/**
 libtorrent's `bitfield`: a sequence of bits kept in 32-bit words. The source keeps the number of bits in the word in
 front of the buffer; here it is the field `size`.
 */
module Bitfield {
  import opened BitfieldWord

  function WordsFor(n: nat): nat {
    (n + 31) / 32
  }

  predicate BitAt(ws: seq<bv32>, j: nat)
    requires j < 32 * |ws|
  {
    Bit(ws[j / 32], j % 32)
  }

  function BitsOf(ws: seq<bv32>, n: nat): seq<bool>
    requires n <= 32 * |ws|
  {
    seq(n, j requires 0 <= j < n => BitAt(ws, j))
  }

  /** As many words as `n` bits need, with zeros behind the bits. */
  ghost predicate Clean(ws: seq<bv32>, n: nat) {
    |ws| == WordsFor(n) && forall j :: n <= j < 32 * |ws| ==> !BitAt(ws, j)
  }

  /** The first `n` bits of `b`, with copies of `val` behind it where `b` is too short. */
  function Resized(b: seq<bool>, n: nat, val: bool): (r: seq<bool>)
    ensures |r| == n && forall i :: 0 <= i < n ==> r[i] == if i < |b| then b[i] else val
  {
    if n <= |b| then b[..n] else b + seq(n - |b|, _ => val)
  }

  function Trues(b: seq<bool>): nat {
    if b == [] then 0 else Trues(b[..|b| - 1]) + if b[|b| - 1] then 1 else 0
  }

  lemma {:induction false} TruesAre(b: seq<bool>)
    ensures Trues(b) == multiset(b)[true]
  {
    if b != [] {
      TruesAre(b[..|b| - 1]);
      assert b == b[..|b| - 1] + [b[|b| - 1]];
    }
  }

  /** The words `t` are the words `ws` without the bits from bit `n` on. */
  ghost predicate Trimmed(ws: seq<bv32>, t: seq<bv32>, n: nat) {
    && |t| == |ws|
    && forall j :: 0 <= j < 32 * |t| ==> (BitAt(t, j) <==> j < n && BitAt(ws, j))
  }

  // Masks

  ghost predicate MaskOf(m: bv32, lo: nat, hi: nat) {
    forall k :: 0 <= k < 32 ==> (Bit(m, k) <==> lo <= k < hi)
  }

  /** The mask of the first `rest` bits. */
  method FirstBits(rest: nat) returns (m: bv32)
    requires 0 < rest < 32
    ensures MaskOf(m, 0, rest)
  {
    m := ALL << (32 - rest);
    MaskIsShift(rest);
    forall k | 0 <= k < 32
      ensures Bit(m, k) <==> k < rest
    {
      MaskBit(rest, k);
    }
  }

  /** The mask of the bits from bit `b` on. */
  method BitsFrom(b: nat) returns (m: bv32)
    requires b < 32
    ensures MaskOf(m, b, 32)
  {
    m := ALL >> b;
    LowIsShift(b);
    forall k | 0 <= k < 32
      ensures Bit(m, k) <==> k >= b
    {
      LowBit(b, k);
    }
  }

  ghost predicate MaskWithout(m: bv32, b: nat) {
    forall k :: 0 <= k < 32 ==> (Bit(m, k) <==> k != b)
  }

  method OnlyBit(b: nat) returns (m: bv32)
    requires b < 32
    ensures MaskOf(m, b, b + 1)
  {
    m := TOP >> b;
    forall k | 0 <= k < 32
      ensures Bit(m, k) <==> k == b
    {
      OneBit(b, k, m);
    }
  }

  method AllButBit(b: nat) returns (m: bv32)
    requires b < 32
    ensures MaskWithout(m, b)
  {
    m := !(TOP >> b);
    forall k | 0 <= k < 32
      ensures Bit(m, k) <==> k != b
    {
      OtherBits(b, k, m);
    }
  }

  /** `get_bit` on one word. */
  method TestBit(w: bv32, k: nat) returns (r: bool)
    requires k < 32
    ensures r == Bit(w, k)
  {
    var m := TOP >> k;
    BitIsShift(w, k, m);
    r := w & m != 0;
  }

  /** Masking one word. */
  lemma {:induction false} AndAt(ws: seq<bv32>, i: nat, m: bv32, j: nat)
    requires i < |ws| && j < 32 * |ws|
    ensures BitAt(ws[i := ws[i] & m], j) <==> BitAt(ws, j) && (j / 32 == i ==> Bit(m, j % 32))
  {
    if j / 32 == i {
      AndOrBit(ws[i], m, j % 32);
    }
  }

  /** Setting bits of one word. */
  lemma {:induction false} OrAt(ws: seq<bv32>, i: nat, m: bv32, j: nat)
    requires i < |ws| && j < 32 * |ws|
    ensures BitAt(ws[i := ws[i] | m], j) <==> BitAt(ws, j) || (j / 32 == i && Bit(m, j % 32))
  {
    if j / 32 == i {
      AndOrBit(ws[i], m, j % 32);
    }
  }

  lemma {:induction false} InLastWord(s: nat, j: nat)
    ensures j / 32 < s / 32 ==> j < s
    ensures j / 32 >= WordsFor(s) ==> j >= s
    ensures j / 32 == WordsFor(s) - 1 && s % 32 > 0 ==> (j >= s <==> j % 32 >= s % 32)
    ensures WordsFor(s) == s / 32 + if s % 32 > 0 then 1 else 0
  {
  }

  lemma {:induction false} SamePlace(j: nat, p: nat)
    ensures j == p <==> j / 32 == p / 32 && j % 32 == p % 32
  {
  }

  lemma {:induction false} TrimmedByMask(ws: seq<bv32>, n: nat, m: bv32)
    requires |ws| == WordsFor(n) && n % 32 != 0 && MaskOf(m, 0, n % 32)
    ensures Trimmed(ws, ws[|ws| - 1 := ws[|ws| - 1] & m], n)
  {
    hide Bit;
    forall j | 0 <= j < 32 * |ws|
      ensures BitAt(ws[|ws| - 1 := ws[|ws| - 1] & m], j) <==> j < n && BitAt(ws, j)
    {
      InLastWord(n, j);
      AndAt(ws, |ws| - 1, m, j);
    }
  }

  // Growing and shrinking

  /** The words `b` are the words `a`, cut off or with zeros behind them. */
  ghost predicate Extends(a: seq<bv32>, b: seq<bv32>) {
    forall i :: 0 <= i < |b| ==> b[i] == if i < |a| then a[i] else 0
  }

  lemma {:induction false} ExtendsBit(a: seq<bv32>, b: seq<bv32>, s: nat, j: nat)
    requires Clean(a, s) && Extends(a, b) && j < 32 * |b|
    ensures BitAt(b, j) <==> j < s && BitAt(a, j)
  {
    var i := j / 32;
    assert b[i] == if i < |a| then a[i] else 0;
    if i >= |a| {
      ConstantBit(j % 32);
      assert !BitAt(b, j);
    } else {
      assert BitAt(b, j) == BitAt(a, j);
    }
  }

  lemma {:induction false} ResizedWords(a: seq<bv32>, b: seq<bv32>, t: seq<bv32>, s: nat, n: nat)
    requires Clean(a, s) && Extends(a, b) && |b| == WordsFor(n) && Trimmed(b, t, n)
    ensures Clean(t, n)
    ensures BitsOf(t, n) == Resized(BitsOf(a, s), n, false)
  {
    forall j | 0 <= j < n
      ensures BitsOf(t, n)[j] == Resized(BitsOf(a, s), n, false)[j]
    {
      ExtendsBit(a, b, s, j);
    }
  }

  /** Word `i`, with ones from bit `s` on. */
  function Or(w: bv32, m: bv32): bv32 {
    w | m
  }

  function FilledWith(w: bv32, i: nat, s: nat, m: bv32): bv32 {
    if i >= WordsFor(s) then ALL else if i == WordsFor(s) - 1 && s % 32 > 0 then Or(w, m) else w
  }

  /** The words `b` are the words `a` with ones from bit `s` on. */
  ghost predicate Filled(a: seq<bv32>, b: seq<bv32>, s: nat, m: bv32) {
    && s <= 32 * |a| && |b| == |a|
    && forall i :: 0 <= i < |b| ==> b[i] == FilledWith(a[i], i, s, m)
  }

  lemma {:induction false} FilledUp(a: seq<bv32>, middle: seq<bv32>, b: seq<bv32>, s: nat, m: bv32)
    requires s <= 32 * |a| && |b| == |a|
    requires middle == if s % 32 > 0 then a[WordsFor(s) - 1 := Or(a[WordsFor(s) - 1], m)] else a
    requires forall i :: 0 <= i < |b| ==> b[i] == if i < WordsFor(s) then middle[i] else ALL
    ensures Filled(a, b, s, m)
  {
    forall i | 0 <= i < |b|
      ensures b[i] == FilledWith(a[i], i, s, m)
    {
      assert middle[i] == if i == WordsFor(s) - 1 && s % 32 > 0 then Or(a[i], m) else a[i];
    }
  }

  lemma {:induction false} FilledWord(w: bv32, m: bv32, from: nat, k: nat)
    requires MaskOf(m, from, 32) && k < 32
    ensures Bit(Or(w, m), k) <==> k >= from || Bit(w, k)
  {
    AndOrBit(w, m, k);
  }

  lemma {:induction false} FilledWithBit(w: bv32, i: nat, s: nat, m: bv32, k: nat)
    requires MaskOf(m, s % 32, 32) && k < 32
    ensures Bit(FilledWith(w, i, s, m), k) <==> 32 * i + k >= s || Bit(w, k)
  {
    hide Bit, MaskOf, Or;
    InLastWord(s, 32 * i + k);
    if i >= WordsFor(s) {
      ConstantBit(k);
    } else if i == WordsFor(s) - 1 && s % 32 > 0 {
      FilledWord(w, m, s % 32, k);
    }
  }

  lemma {:induction false} FilledBit(a: seq<bv32>, b: seq<bv32>, s: nat, m: bv32, j: nat)
    requires Filled(a, b, s, m) && MaskOf(m, s % 32, 32) && j < 32 * |a|
    ensures BitAt(b, j) <==> j >= s || BitAt(a, j)
  {
    hide Bit, MaskOf, FilledWith;
    FilledWithBit(a[j / 32], j / 32, s, m, j % 32);
  }

  lemma {:induction false} FilledWords(a: seq<bv32>, b: seq<bv32>, t: seq<bv32>, before: seq<bool>, m: bv32, n: nat)
    requires Clean(a, n) && |before| <= n && Filled(a, b, |before|, m) && MaskOf(m, |before| % 32, 32)
    requires BitsOf(a, n) == Resized(before, n, false) && Trimmed(b, t, n)
    ensures Clean(t, n) && BitsOf(t, n) == Resized(before, n, true)
  {
    forall j | 0 <= j < n
      ensures BitsOf(t, n)[j] == Resized(before, n, true)[j]
    {
      FilledBit(a, b, |before|, m, j);
      assert BitsOf(a, n)[j] == BitAt(a, j);
    }
  }

  // Counting

  /** How many of the first `n` bits are set. */
  function SetBits(ws: seq<bv32>, n: nat): nat
    requires n <= 32 * |ws|
  {
    if n == 0 then 0 else SetBits(ws, n - 1) + if BitAt(ws, n - 1) then 1 else 0
  }

  lemma {:induction false} SetBitsOfWord(ws: seq<bv32>, i: nat, k: nat)
    requires i < |ws| && k <= 32
    ensures SetBits(ws, 32 * i + k) == SetBits(ws, 32 * i) + Ones(ws[i], k)
  {
    if k > 0 {
      SetBitsOfWord(ws, i, k - 1);
      assert (32 * i + k - 1) / 32 == i && (32 * i + k - 1) % 32 == k - 1;
    }
  }

  lemma {:induction false} NoneSetBehind(ws: seq<bv32>, n: nat, m: nat)
    requires Clean(ws, n) && n <= m <= 32 * |ws|
    ensures SetBits(ws, m) == SetBits(ws, n)
  {
    if m > n {
      NoneSetBehind(ws, n, m - 1);
    }
  }

  lemma {:induction false} TruesAreSetBits(ws: seq<bv32>, n: nat)
    requires n <= 32 * |ws|
    ensures Trues(BitsOf(ws, n)) == SetBits(ws, n)
  {
    if n > 0 {
      TruesAreSetBits(ws, n - 1);
      assert BitsOf(ws, n)[..n - 1] == BitsOf(ws, n - 1);
    }
  }

  // Comparing

  lemma {:induction false} BitOfWord(ws: seq<bv32>, i: nat, k: nat)
    requires i < |ws| && k < 32
    ensures BitAt(ws, 32 * i + k) == Bit(ws[i], k)
  {
    assert (32 * i + k) / 32 == i && (32 * i + k) % 32 == k;
  }

  /** Clean words are determined by their bits, so that comparing the memory compares the bits. */
  lemma {:induction false} WordsOfBits(a: seq<bv32>, b: seq<bv32>, n: nat)
    requires Clean(a, n) && Clean(b, n)
    ensures a == b <==> BitsOf(a, n) == BitsOf(b, n)
  {
    if BitsOf(a, n) == BitsOf(b, n) {
      forall i | 0 <= i < |a|
        ensures a[i] == b[i]
      {
        forall k | 0 <= k < 32
          ensures Bit(a[i], k) == Bit(b[i], k)
        {
          BitOfWord(a, i, k);
          BitOfWord(b, i, k);
          if 32 * i + k < n {
            assert BitsOf(a, n)[32 * i + k] == BitsOf(b, n)[32 * i + k];
          }
        }
        SameBits(a[i], b[i]);
      }
    }
  }

  ghost predicate TrueFrom(b: seq<bool>, lo: nat, hi: nat)
    requires hi <= |b|
  {
    forall j :: lo <= j < hi ==> b[j]
  }

  /** The first `m` bits of word `i` are set if the `m` bits from bit `32 * i` on are true. */
  lemma {:induction false} WordBits(ws: seq<bv32>, n: nat, i: nat, m: nat)
    requires n <= 32 * |ws| && m <= 32 && 32 * i + m <= n && i < |ws|
    ensures (forall k :: 0 <= k < m ==> Bit(ws[i], k)) <==> TrueFrom(BitsOf(ws, n), 32 * i, 32 * i + m)
  {
    forall k | 0 <= k < m
      ensures BitAt(ws, 32 * i + k) == Bit(ws[i], k) == BitsOf(ws, n)[32 * i + k]
    {
      BitOfWord(ws, i, k);
    }
    if forall k :: 0 <= k < m ==> Bit(ws[i], k) {
      forall j | 32 * i <= j < 32 * i + m
        ensures BitsOf(ws, n)[j]
      {
        assert Bit(ws[i], j - 32 * i);
        BitOfWord(ws, i, j - 32 * i);
      }
    }
  }

  lemma {:induction false} FullWord(w: bv32)
    ensures w == ALL <==> forall k :: 0 <= k < 32 ==> Bit(w, k)
  {
    forall k | 0 <= k < 32
      ensures Bit(ALL, k)
    {
      ConstantBit(k);
    }
    if forall k :: 0 <= k < 32 ==> Bit(w, k) {
      SameBits(w, ALL);
    }
  }

  lemma {:induction false} FullFront(w: bv32, m: bv32, rest: nat)
    requires 0 < rest < 32 && MaskOf(m, 0, rest)
    ensures w & m == m <==> forall k :: 0 <= k < rest ==> Bit(w, k)
  {
    forall k | 0 <= k < 32
      ensures Bit(w & m, k) <==> Bit(m, k) && Bit(w, k)
      ensures Bit(m, k) <==> k < rest
    {
      AndOrBit(w, m, k);
    }
    if forall k :: 0 <= k < rest ==> Bit(w, k) {
      SameBits(w & m, m);
    }
  }

  // Single bits

  lemma {:induction false} OneMore(a: seq<bv32>, b: seq<bv32>, n: nat, p: nat, m: bv32)
    requires Clean(a, n) && p < n && b == a[p / 32 := a[p / 32] | m]
    requires MaskOf(m, p % 32, p % 32 + 1)
    ensures Clean(b, n) && BitsOf(b, n) == BitsOf(a, n)[p := true]
  {
    forall j | 0 <= j < 32 * |a|
      ensures BitAt(b, j) <==> j == p || BitAt(a, j)
    {
      OrAt(a, p / 32, m, j);
      SamePlace(j, p);
    }
  }

  lemma {:induction false} OneLessAt(a: seq<bv32>, p: nat, m: bv32, j: nat)
    requires p < 32 * |a| && j < 32 * |a| && MaskWithout(m, p % 32)
    ensures BitAt(a[p / 32 := a[p / 32] & m], j) <==> j != p && BitAt(a, j)
  {
    hide Bit;
    AndAt(a, p / 32, m, j);
    SamePlace(j, p);
  }

  lemma {:induction false} OneLess(a: seq<bv32>, b: seq<bv32>, n: nat, p: nat, m: bv32)
    requires Clean(a, n) && p < n && b == a[p / 32 := a[p / 32] & m] && MaskWithout(m, p % 32)
    ensures Clean(b, n) && BitsOf(b, n) == BitsOf(a, n)[p := false]
  {
    forall j | 0 <= j < 32 * |a|
      ensures BitAt(b, j) <==> j != p && BitAt(a, j)
    {
      OneLessAt(a, p, m, j);
    }
  }

  /** The portable population count of one word. */
  method PopulationCount(v: bv32) returns (n: nat)
    ensures n == Ones(v, 32)
  {
    var c := Pairs(v);
    var d := Nibbles(c);
    var e := Bytewise(d);
    var r := Quads(e);
    SwarIsOnes(v, c, d, e, r);
    n := r as nat;
  }

  /** Are the first `rest` bits of `w` set? */
  method FrontSet(w: bv32, rest: nat) returns (r: bool)
    requires 0 < rest < 32
    ensures r <==> forall k :: 0 <= k < rest ==> Bit(w, k)
  {
    var mask := FirstBits(rest);
    FullFront(w, mask, rest);
    r := w & mask == mask;
  }

  class Bitfield {
    var size: nat
    var buf: array<bv32>

    ghost predicate Valid()
      reads this, buf
    {
      Clean(buf[..], size)
    }

    ghost function Bits(): (b: seq<bool>)
      requires Valid()
      reads this, buf
      ensures |b| == size
    {
      BitsOf(buf[..], size)
    }

    constructor ()
      ensures Valid() && Bits() == [] && fresh(buf)
    {
      size := 0;
      buf := new bv32[0];
    }

    method ClearTrailingBits()
      requires buf.Length == WordsFor(size)
      modifies buf
      ensures Trimmed(old(buf[..]), buf[..], size)
    {
      if size % 32 != 0 {
        var m := FirstBits(size % 32);
        TrimmedByMask(buf[..], size, m);
        buf[buf.Length - 1] := buf[buf.Length - 1] & m;
      }
    }

    /** `resize(bits)`: new bits are zero. */
    method ResizeTo(bits: nat)
      requires Valid()
      modifies this, buf
      ensures Valid() && (buf == old(buf) || fresh(buf))
      ensures Bits() == Resized(old(Bits()), bits, false)
    {
      if bits == size { return; }
      if bits == 0 {
        size := 0;
        buf := new bv32[0];
        return;
      }
      ghost var before, s := buf[..], size;
      var newWords := (bits + 31) / 32;
      var curWords := (size + 31) / 32;
      if curWords != newWords {
        var b := new bv32[newWords];
        var common := if newWords < curWords then newWords else curWords;
        forall i | 0 <= i < common {
          b[i] := buf[i];
        }
        if newWords > curWords {
          forall i | curWords <= i < newWords {
            b[i] := 0;
          }
        }
        buf := b;
      }
      size := bits;
      ghost var untrimmed := buf[..];
      ClearTrailingBits();
      ResizedWords(before, untrimmed, buf[..], s, bits);
    }

    method OrWord(i: nat, m: bv32)
      requires i < buf.Length
      modifies buf
      ensures buf[..] == old(buf[..])[i := Or(old(buf[i]), m)]
    {
      buf[i] := buf[i] | m;
    }

    method SetWords(from: nat)
      modifies buf
      ensures forall i :: 0 <= i < buf.Length ==> buf[i] == if i < from then old(buf[i]) else ALL
    {
      forall i | from <= i < buf.Length {
        buf[i] := ALL;
      }
    }

    /** Sets the bits behind the first `s`, those behind the last one included. */
    method FillFrom(s: nat) returns (ghost m: bv32)
      requires s <= 32 * buf.Length
      modifies buf
      ensures MaskOf(m, s % 32, 32) && Filled(old(buf[..]), buf[..], s, m)
    {
      hide Bit, MaskOf, Filled, Or;
      ghost var before := buf[..];
      var oldWords := (s + 31) / 32;
      var mask := BitsFrom(s % 32);
      m := mask;
      if oldWords > 0 && s % 32 > 0 {
        OrWord(oldWords - 1, mask);
      }
      ghost var middle := buf[..];
      SetWords(oldWords);
      FilledUp(before, middle, buf[..], s, m);
    }

    /** `resize(bits, val)`: new bits are `val`. */
    method Resize(bits: nat, val: bool)
      requires Valid()
      modifies this, buf
      ensures Valid() && (buf == old(buf) || fresh(buf))
      ensures Bits() == Resized(old(Bits()), bits, val)
    {
      if bits == size { return; }
      var s := size;
      ghost var before := Bits();
      ResizeTo(bits);
      if s >= size { return; }
      var oldWords := (s + 31) / 32;
      var newWords := (size + 31) / 32;
      ghost var grown := buf[..];
      if val {
        ghost var m := FillFrom(s);
        ghost var filled := buf[..];
        ClearTrailingBits();
        FilledWords(grown, filled, buf[..], before, m, bits);
      } else {
        forall i | oldWords <= i < newWords {
          buf[i] := 0;
        }
        AlreadyZero(grown, buf[..], s, bits, before);
      }
    }

    method GetBit(index: nat) returns (r: bool)
      requires Valid() && index < size
      ensures r == Bits()[index]
    {
      r := TestBit(buf[index / 32], index % 32);
    }

    method SetBit(index: nat)
      requires Valid() && index < size
      modifies buf
      ensures Valid() && Bits() == old(Bits())[index := true]
    {
      ghost var before := buf[..];
      var m := OnlyBit(index % 32);
      buf[index / 32] := buf[index / 32] | m;
      OneMore(before, buf[..], size, index, m);
    }

    method ClearBit(index: nat)
      requires Valid() && index < size
      modifies buf
      ensures Valid() && Bits() == old(Bits())[index := false]
    {
      ghost var before := buf[..];
      var m := AllButBit(index % 32);
      buf[index / 32] := buf[index / 32] & m;
      OneLess(before, buf[..], size, index, m);
    }

    method Count() returns (ret: nat)
      requires Valid()
      ensures ret == Trues(Bits())
    {
      ret := 0;
      var words := (size + 31) / 32;
      for i := 0 to words
        invariant ret == SetBits(buf[..], 32 * i)
      {
        var c := PopulationCount(buf[i]);
        SetBitsOfWord(buf[..], i, 32);
        ret := ret + c;
      }
      NoneSetBehind(buf[..], size, 32 * words);
      TruesAreSetBits(buf[..], size);
    }

    method AllSet() returns (r: bool)
      requires Valid()
      ensures r <==> size > 0 && forall i :: 0 <= i < size ==> Bits()[i]
    {
      if size == 0 { return false; }
      var words := size / 32;
      for i := 0 to words
        invariant TrueFrom(Bits(), 0, 32 * i)
      {
        FullWord(buf[i]);
        WordBits(buf[..], size, i, 32);
        if buf[i] != ALL { return false; }
      }
      r := RestSet();
    }

    method RestSet() returns (r: bool)
      requires Valid()
      ensures r <==> TrueFrom(Bits(), size - size % 32, size)
    {
      var words := size / 32;
      var rest := size % 32;
      if rest > 0 {
        WordBits(buf[..], size, words, rest);
        r := FrontSet(buf[words], rest);
        return;
      }
      return true;
    }

    /** `operator==`. A buffer belongs to one bitfield. */
    method Equals(rhs: Bitfield) returns (r: bool)
      requires Valid() && rhs.Valid()
      requires buf == rhs.buf ==> this == rhs
      ensures r <==> Bits() == rhs.Bits()
    {
      if buf == rhs.buf { return true; }
      if size != rhs.size { return false; }
      WordsOfBits(buf[..], rhs.buf[..], size);
      return buf[..] == rhs.buf[..];
    }
  }

  lemma {:induction false} AlreadyZero(a: seq<bv32>, b: seq<bv32>, s: nat, n: nat, before: seq<bool>)
    requires Clean(a, n) && |before| == s <= n && BitsOf(a, n) == Resized(before, n, false) && |b| == |a|
    requires forall i :: 0 <= i < |b| ==> b[i] == if i >= WordsFor(s) then 0 else a[i]
    ensures b == a
  {
    forall i | WordsFor(s) <= i < |a|
      ensures a[i] == 0
    {
      forall k | 0 <= k < 32
        ensures Bit(a[i], k) == Bit(0, k)
      {
        ConstantBit(k);
        BitOfWord(a, i, k);
        if 32 * i + k < n {
          assert !BitsOf(a, n)[32 * i + k];
        }
      }
      SameBits(a[i], 0);
    }
  }
}
