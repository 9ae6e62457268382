/**
 The Merkle trees of Deluge's `metafile.py`: the reduction that overwrites the list of leaves level by level, and the
 root of a tree that it computes.
 */
module Merkle {
  import opened Bytes

  function Pow2(k: nat): (n: nat)
    ensures n > 0
  {
    if k == 0 then 1 else 2 * Pow2(k - 1)
  }

  /** The root of the tree of height `k` over the leaves from `i` on, with `sha` as an arbitrary hash function. */
  function RootAt(sha: Bytes -> Bytes, k: nat, leaves: seq<Bytes>, i: nat): Bytes
    requires i + Pow2(k) <= |leaves|
  {
    if k == 0 then leaves[i] else
    sha(RootAt(sha, k - 1, leaves, i) + RootAt(sha, k - 1, leaves, i + Pow2(k - 1)))
  }

  function Root(sha: Bytes -> Bytes, k: nat, leaves: seq<Bytes>): Bytes
    requires |leaves| == Pow2(k)
  {
    RootAt(sha, k, leaves, 0)
  }

  /** The root depends on the leaves below it only. */
  lemma {:induction false} RootOfSame(sha: Bytes -> Bytes, k: nat, a: seq<Bytes>, i: nat, b: seq<Bytes>, j: nat)
    requires i + Pow2(k) <= |a| && j + Pow2(k) <= |b|
    requires forall n :: i <= n < i + Pow2(k) ==> a[n] == b[j + (n - i)]
    ensures RootAt(sha, k, a, i) == RootAt(sha, k, b, j)
  {
    if k > 0 {
      var half := Pow2(k - 1);
      RootOfSame(sha, k - 1, a, i, b, j);
      RootOfSame(sha, k - 1, a, i + half, b, j + half);
    }
  }

  /** The first `n` of the leaves, filled up with `padding`. */
  function Padded(leaves: seq<Bytes>, n: nat, padding: Bytes): (r: seq<Bytes>)
    ensures |r| == n
    ensures forall i :: 0 <= i < n ==> r[i] == if i < |leaves| then leaves[i] else padding
  {
    if n <= |leaves| then leaves[..n] else leaves + seq(n - |leaves|, _ => padding)
  }

  /** The level above `level`, of `n` hashes. */
  function Paired(sha: Bytes -> Bytes, level: seq<Bytes>, n: nat): (r: seq<Bytes>)
    requires |level| == 2 * n
    ensures |r| == n
  {
    if n == 0 then [] else
    Paired(sha, level[..2 * n - 2], n - 1) + [sha(level[2 * n - 2] + level[2 * n - 1])]
  }

  lemma {:induction false} PairedAt(sha: Bytes -> Bytes, level: seq<Bytes>, n: nat, i: nat)
    requires |level| == 2 * n && i < n
    ensures Paired(sha, level, n)[i] == sha(level[2 * i] + level[2 * i + 1])
  {
    if i < n - 1 {
      PairedAt(sha, level[..2 * n - 2], n - 1, i);
    }
  }

  lemma {:induction false} HalfOf(k: nat) returns (half: nat)
    requires k > 0
    ensures half == Pow2(k - 1) && Pow2(k) == 2 * half && Pow2(k + 1) == 4 * half
  {
    half := Pow2(k - 1);
  }

  /** Going up by one level does not change the root. */
  lemma {:induction false} RootOfPaired(sha: Bytes -> Bytes, k: nat, level: seq<Bytes>, above: seq<Bytes>, n: nat,
                                        i: nat)
    requires |level| == 2 * n && above == Paired(sha, level, n) && i + Pow2(k) <= n
    ensures RootAt(sha, k + 1, level, 2 * i) == RootAt(sha, k, above, i)
  {
    hide Paired;
    if k == 0 {
      PairedAt(sha, level, n, i);
    } else {
      var half := HalfOf(k);
      RootOfPaired(sha, k - 1, level, above, n, i);
      RootOfPaired(sha, k - 1, level, above, n, i + half);
      RootAtUnfolds(sha, k + 1, 2 * half, level, 2 * i);
      RootAtUnfolds(sha, k, half, above, i);
    }
  }

  lemma {:induction false} RootOfLevel(sha: Bytes -> Bytes, k: nat, level: seq<Bytes>, list: seq<Bytes>, n: nat,
                                       padding: Bytes)
    requires n == Pow2(k) <= |list| && |level| == 2 * n == Pow2(k + 1) && list[..n] == Paired(sha, level, n)
    ensures Root(sha, k, Padded(list, n, padding)) == Root(sha, k + 1, level)
  {
    RootOfPaired(sha, k, level, list[..n], n, 0);
    assert Padded(list, n, padding) == list[..n];
  }

  /** A list, as callers share it. */
  class HashList {
    var items: seq<Bytes>

    constructor (items: seq<Bytes>)
      ensures this.items == items
    {
      this.items := items;
    }
  }

  /** One level: overwrites the front of the list, or appends to it, while the rest of it is still to be read. */
  method ReduceLevel(sha: Bytes -> Bytes, leafs: HashList, n: nat, padding: Bytes)
    modifies leafs
    ensures n <= |leafs.items|
    ensures leafs.items[..n] == Paired(sha, Padded(old(leafs.items), 2 * n, padding), n)
  {
    ghost var level := Padded(leafs.items, 2 * n, padding);
    ghost var before, above := leafs.items, Paired(sha, level, n);
    for i := 0 to n
      invariant |leafs.items| == if i <= |before| then |before| else i
      invariant forall j :: 0 <= j < i ==> leafs.items[j] == above[j]
      invariant forall j :: i <= j < |before| ==> leafs.items[j] == before[j]
    {
      var node1 := if 2 * i < |leafs.items| then leafs.items[2 * i] else padding;
      var node2 := if 2 * i + 1 < |leafs.items| then leafs.items[2 * i + 1] else padding;
      assert node1 == level[2 * i] && node2 == level[2 * i + 1];
      PairedAt(sha, level, n, i);
      if i < |leafs.items| {
        leafs.items := leafs.items[i := sha(node1 + node2)];
      } else {
        leafs.items := leafs.items + [sha(node1 + node2)];
      }
    }
  }

  /** `_sha256_merkle_root`: the root over the first `nbLeafs` leaves, filled up with `padding`. */
  method MerkleRoot(sha: Bytes -> Bytes, leafs: HashList, nbLeafs: nat, padding: Bytes, inPlace: bool, ghost k: nat)
    returns (root: Bytes)
    requires nbLeafs == Pow2(k)
    modifies leafs
    ensures root == Root(sha, k, Padded(old(leafs.items), nbLeafs, padding))
    ensures !inPlace ==> leafs.items == old(leafs.items)
  {
    var list := leafs;
    if !inPlace {
      list := new HashList(leafs.items);
    }
    var n := nbLeafs;
    ghost var j := k;
    while n > 1
      invariant list == leafs || (fresh(list) && leafs.items == old(leafs.items))
      invariant list == leafs ==> inPlace
      invariant n == Pow2(j)
      invariant Root(sha, j, Padded(list.items, n, padding)) == Root(sha, k, Padded(old(leafs.items), nbLeafs, padding))
    {
      ghost var level := Padded(list.items, n, padding);
      n := n / 2;
      j := j - 1;
      ReduceLevel(sha, list, n, padding);
      RootOfLevel(sha, j, level, list.items, n, padding);
    }
    assert j == 0;
    root := if list.items != [] then list.items[0] else padding;
  }

  // ----- trees of trees

  /** The height of the lowest tree with room for `n` leaves. */
  function Height(n: nat): (k: nat)
    ensures n <= Pow2(k)
    ensures k > 0 ==> Pow2(k - 1) < n
  {
    if n <= 1 then 0 else
    var k := Height((n + 1) / 2) + 1;
    assert Pow2(k) == 2 * Pow2(k - 1);
    k
  }

  /** `_next_pow2`. */
  function NextPow2(n: nat): nat {
    Pow2(Height(n))
  }

  lemma {:induction false} Pow2Monotone(j: nat, k: nat)
    requires j <= k
    ensures Pow2(j) <= Pow2(k)
  {
    if j < k {
      Pow2Monotone(j, k - 1);
    }
  }

  /** No lower tree would do. */
  lemma {:induction false} HeightIsLeast(n: nat, k: nat)
    requires n <= Pow2(k)
    ensures Height(n) <= k
  {
    if k < Height(n) {
      Pow2Monotone(k, Height(n) - 1);
    }
  }

  lemma {:induction false} HeightIs(n: nat, k: nat)
    requires n <= Pow2(k) && (k > 0 ==> Pow2(k - 1) < n)
    ensures Height(n) == k
  {
    HeightIsLeast(n, k);
    if Height(n) < k {
      Pow2Monotone(Height(n), k - 1);
    }
  }

  lemma {:induction false} Pow2Sum(j: nat, k: nat)
    ensures Pow2(j + k) == Pow2(j) * Pow2(k)
  {
    if j > 0 {
      Pow2Sum(j - 1, k);
      assert Pow2(j + k) == 2 * Pow2(j - 1 + k);
      assert Pow2(j) * Pow2(k) == 2 * (Pow2(j - 1) * Pow2(k));
    }
  }

  /** The leaves from `from` on, up to `size` of them. */
  function Span<T>(leaves: seq<T>, from: nat, size: nat): seq<T> {
    var lo := if from <= |leaves| then from else |leaves|;
    var hi := if from + size <= |leaves| then from + size else |leaves|;
    leaves[lo..hi]
  }

  lemma {:induction false} SpanAt(leaves: seq<Bytes>, from: nat, size: nat, i: nat, n: nat, padding: Bytes)
    requires i < size && from + i < n
    ensures Padded(Span(leaves, from, size), size, padding)[i] == Padded(leaves, n, padding)[from + i]
  {}

  lemma {:induction false} SpanRoot(sha: Bytes -> Bytes, leaves: seq<Bytes>, k: nat, from: nat, n: nat, zero: Bytes)
    requires from + Pow2(k) <= n
    ensures RootAt(sha, k, Padded(leaves, n, zero), from)
         == Root(sha, k, Padded(Span(leaves, from, Pow2(k)), Pow2(k), zero))
  {
    var size, all := Pow2(k), Padded(leaves, n, zero);
    var part := Padded(Span(leaves, from, size), size, zero);
    forall i | from <= i < from + size
      ensures all[i] == part[i - from]
    {
      SpanAt(leaves, from, size, i - from, n, zero);
    }
    RootOfSame(sha, k, all, from, part, 0);
  }

  lemma {:induction false} TimesNext(j: nat, size: nat)
    ensures (j + 1) * size == j * size + size
  {}

  lemma {:induction false} TimesMonotone(j: nat, m: nat, size: nat)
    requires j <= m
    ensures j * size <= m * size
  {}

  /** Where part `j` begins, when all parts have that size. */
  function PartStart(j: nat, size: nat): nat {
    if j == 0 then 0 else PartStart(j - 1, size) + size
  }

  lemma {:induction false} PartStartIs(j: nat, size: nat)
    ensures PartStart(j, size) == j * size
  {
    if j > 0 {
      PartStartIs(j - 1, size);
    }
  }

  lemma {:induction false} PartStartSum(a: nat, b: nat, size: nat)
    ensures PartStart(a + b, size) == PartStart(a, size) + PartStart(b, size)
  {
    if b > 0 {
      PartStartSum(a, b - 1, size);
    }
  }

  lemma {:induction false} PartStartMonotone(j: nat, m: nat, size: nat)
    requires j <= m
    ensures PartStart(j, size) <= PartStart(m, size)
  {
    PartStartSum(j, m - j, size);
  }

  /** Twice as many parts take a tree that is one higher. */
  lemma {:induction false} PartStartPow2(k: nat, inner: nat)
    ensures PartStart(Pow2(k), Pow2(inner)) == Pow2(k + inner)
  {
    if k > 0 {
      PartStartPow2(k - 1, inner);
      PartStartSum(Pow2(k - 1), Pow2(k - 1), Pow2(inner));
    } else {
      assert PartStart(1, Pow2(inner)) == PartStart(0, Pow2(inner)) + Pow2(inner);
    }
  }

  /** The roots of the parts, filled up with that of a part of padding only, have the same root as all the leaves. */
  lemma {:induction false} TreeOfTrees(sha: Bytes -> Bytes, leaves: seq<Bytes>, inner: nat, outer: nat,
                                       roots: seq<Bytes>, zero: Bytes)
    requires |roots| <= Pow2(outer) && |leaves| <= |roots| * Pow2(inner)
    requires forall j :: 0 <= j < |roots| ==>
               roots[j] == Root(sha, inner, Padded(Span(leaves, j * Pow2(inner), Pow2(inner)), Pow2(inner), zero))
    ensures Root(sha, outer, Padded(roots, Pow2(outer), Root(sha, inner, Padded([], Pow2(inner), zero))))
         == Root(sha, outer + inner, Padded(leaves, Pow2(outer + inner), zero))
  {
    var size, pad := Pow2(inner), Root(sha, inner, Padded([], Pow2(inner), zero));
    var all, level := Padded(leaves, Pow2(outer + inner), zero), Padded(roots, Pow2(outer), pad);
    PartStartPow2(outer, inner);
    forall j | 0 <= j < Pow2(outer)
      ensures IsRootOf(sha, inner, all, level, j)
    {
      PartStartIs(j, size);
      PartStartMonotone(j + 1, Pow2(outer), size);
      SpanRoot(sha, leaves, inner, PartStart(j, size), |all|, zero);
      if j >= |roots| {
        PartStartIs(|roots|, size);
        PartStartMonotone(|roots|, j, size);
        assert Span(leaves, PartStart(j, size), size) == [];
      }
    }
    RootOfRoots(sha, inner, outer, all, level, 0, 0);
  }

  ghost predicate IsRootOf(sha: Bytes -> Bytes, inner: nat, all: seq<Bytes>, level: seq<Bytes>, j: nat)
    requires j < |level|
  {
    var at := PartStart(j, Pow2(inner));
    at + Pow2(inner) <= |all| && level[j] == RootAt(sha, inner, all, at)
  }

  lemma {:induction false} RootOfRoots(sha: Bytes -> Bytes, inner: nat, k: nat, all: seq<Bytes>, level: seq<Bytes>,
                                       j: nat, at: nat)
    requires j + Pow2(k) <= |level| && at == PartStart(j, Pow2(inner))
    requires forall i :: 0 <= i < |level| ==> IsRootOf(sha, inner, all, level, i)
    ensures at + Pow2(k + inner) <= |all|
    ensures RootAt(sha, k, level, j) == RootAt(sha, k + inner, all, at)
  {
    if k == 0 {
      assert IsRootOf(sha, inner, all, level, j);
    } else {
      var half, width := Halves(inner, k, j, at);
      RootOfRoots(sha, inner, k - 1, all, level, j, at);
      RootOfRoots(sha, inner, k - 1, all, level, j + half, at + width);
      RootAtUnfolds(sha, k, half, level, j);
      RootAtUnfolds(sha, k + inner, width, all, at);
    }
  }

  /** A tree has half of the roots on either side, and `width` of the leaves. */
  lemma {:induction false} Halves(inner: nat, k: nat, j: nat, at: nat) returns (half: nat, width: nat)
    requires k > 0 && at == PartStart(j, Pow2(inner))
    ensures half == Pow2(k - 1) && Pow2(k) == 2 * half
    ensures width == Pow2(k - 1 + inner) && Pow2(k + inner) == 2 * width
    ensures at + width == PartStart(j + half, Pow2(inner))
  {
    half, width := Pow2(k - 1), Pow2(k - 1 + inner);
    PartStartPow2(k - 1, inner);
    PartStartSum(j, half, Pow2(inner));
  }

  lemma {:induction false} RootAtUnfolds(sha: Bytes -> Bytes, k: nat, half: nat, leaves: seq<Bytes>, i: nat)
    requires k > 0 && half == Pow2(k - 1) && i + 2 * half <= |leaves|
    ensures Pow2(k) == 2 * half
    ensures RootAt(sha, k, leaves, i) == sha(RootAt(sha, k - 1, leaves, i) + RootAt(sha, k - 1, leaves, i + half))
  {}
}
