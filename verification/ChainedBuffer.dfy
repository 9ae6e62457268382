/**
 libtorrent's `chained_buffer`: a byte queue over chunks of memory that it owns. A chunk may have room behind its used
 part, and loses room in front when bytes are popped.
 */
module ChainedBuffer {
  import opened Bytes

  /**
   `buf` is the part of `memory` that starts at `start`; `size` bytes of it belong to the chunk, the first `used` are in
   use.
   */
  datatype Chunk = Chunk(memory: array<Byte>, start: nat, size: nat, used: nat)

  /** A part of memory, as it is passed to the socket. */
  datatype View = View(memory: array<Byte>, start: nat, length: nat)

  predicate ChunkOk(c: Chunk) {
    c.used <= c.size && c.start + c.size <= c.memory.Length
  }

  predicate ViewOk(v: View) {
    v.start + v.length <= v.memory.Length
  }

  function UsedBytes(c: Chunk): Bytes
    requires ChunkOk(c)
    reads c.memory
  {
    c.memory[c.start..c.start + c.used]
  }

  predicate ChunksOk(vec: seq<Chunk>) {
    forall i :: 0 <= i < |vec| ==> ChunkOk(vec[i])
  }

  ghost function Memories(vec: seq<Chunk>): set<array<Byte>> {
    set i | 0 <= i < |vec| :: vec[i].memory
  }

  /** No two chunks share memory. */
  ghost predicate Separate(vec: seq<Chunk>) {
    forall i, j :: 0 <= i < j < |vec| ==> vec[i].memory != vec[j].memory
  }

  function UsedSum(vec: seq<Chunk>): nat {
    if vec == [] then 0 else vec[0].used + UsedSum(vec[1..])
  }

  function SizeSum(vec: seq<Chunk>): nat {
    if vec == [] then 0 else vec[0].size + SizeSum(vec[1..])
  }

  /** The bytes in the chunks, one after the other. */
  ghost function Queued(vec: seq<Chunk>): (b: Bytes)
    requires ChunksOk(vec)
    reads Memories(vec)
    ensures |b| == UsedSum(vec)
  {
    if vec == [] then [] else
    assert vec[0].memory in Memories(vec) && Memories(vec[1..]) <= Memories(vec) by { RestMemories(vec); }
    UsedBytes(vec[0]) + Queued(vec[1..])
  }

  lemma {:induction false} RestMemories(vec: seq<Chunk>)
    requires vec != []
    ensures vec[0].memory in Memories(vec) && Memories(vec[1..]) <= Memories(vec)
  {
    forall m | m in Memories(vec[1..])
      ensures m in Memories(vec)
    {
      var i :| 0 <= i < |vec[1..]| && vec[1..][i].memory == m;
      assert vec[i + 1].memory == m;
    }
  }

  lemma {:induction false} UsedWithinSize(vec: seq<Chunk>)
    requires ChunksOk(vec)
    ensures UsedSum(vec) <= SizeSum(vec)
  {
    if vec != [] {
      UsedWithinSize(vec[1..]);
    }
  }

  lemma {:induction false} QueuedConcat(a: seq<Chunk>, b: seq<Chunk>)
    requires ChunksOk(a + b)
    ensures ChunksOk(a) && ChunksOk(b)
    ensures Queued(a + b) == Queued(a) + Queued(b)
    ensures UsedSum(a + b) == UsedSum(a) + UsedSum(b) && SizeSum(a + b) == SizeSum(a) + SizeSum(b)
  {
    assert forall i :: 0 <= i < |a| ==> a[i] == (a + b)[i];
    assert forall i :: 0 <= i < |b| ==> b[i] == (a + b)[|a| + i];
    if a == [] {
      assert a + b == b;
    } else {
      assert (a + b)[1..] == a[1..] + b;
      QueuedConcat(a[1..], b);
      ConcatAssociative(UsedBytes(a[0]), Queued(a[1..]), Queued(b));
    }
  }

  lemma {:induction false} OneChunk(c: Chunk)
    requires ChunkOk(c)
    ensures Queued([c]) == UsedBytes(c) && UsedSum([c]) == c.used && SizeSum([c]) == c.size
  {
    assert [c][1..] == [];
  }

  /** The last chunk makes up the end of the queue. */
  lemma {:induction false} LastChunk(vec: seq<Chunk>)
    requires ChunksOk(vec) && vec != []
    ensures var init, last := vec[..|vec| - 1], vec[|vec| - 1];
      && ChunksOk(init) && Queued(vec) == Queued(init) + UsedBytes(last)
      && UsedSum(vec) == UsedSum(init) + last.used && SizeSum(vec) == SizeSum(init) + last.size
  {
    var init, last := vec[..|vec| - 1], vec[|vec| - 1];
    assert vec == init + [last];
    QueuedConcat(init, [last]);
    OneChunk(last);
  }

  function Viewed(v: View): Bytes
    requires ViewOk(v)
    reads v.memory
  {
    v.memory[v.start..v.start + v.length]
  }

  predicate ViewsOk(vs: seq<View>) {
    forall i :: 0 <= i < |vs| ==> ViewOk(vs[i])
  }

  ghost function ViewMemories(vs: seq<View>): set<array<Byte>> {
    set i | 0 <= i < |vs| :: vs[i].memory
  }

  ghost function ViewedAll(vs: seq<View>): Bytes
    requires ViewsOk(vs)
    reads ViewMemories(vs)
  {
    if vs == [] then [] else
    var init, last := vs[..|vs| - 1], vs[|vs| - 1];
    assert last.memory in ViewMemories(vs) && ViewMemories(init) <= ViewMemories(vs);
    ViewedAll(init) + Viewed(last)
  }

  /** The first `n` bytes, or all when there are fewer, or none. */
  function UpTo(b: Bytes, n: int): Bytes {
    if n <= 0 then [] else if n < |b| then b[..n] else b
  }

  lemma {:induction false} UpToConcat(a: Bytes, b: Bytes, n: int)
    requires |a| <= n
    ensures UpTo(a + b, n) == a + UpTo(b, n - |a|)
  {
    if n < |a + b| {
      assert (a + b)[..n] == a + b[..n - |a|];
    }
  }

  lemma {:induction false} StartOfConcat(a: Bytes, b: Bytes, n: int)
    requires 0 < n < |a|
    ensures UpTo(a + b, n) == a[..n]
  {}

  lemma {:induction false} MoreViews(vs: seq<View>, v: View)
    requires ViewsOk(vs) && ViewOk(v)
    ensures ViewsOk(vs + [v]) && ViewedAll(vs + [v]) == ViewedAll(vs) + Viewed(v)
    ensures ViewMemories(vs + [v]) == ViewMemories(vs) + {v.memory}
  {
    var more := vs + [v];
    assert more[..|more| - 1] == vs && more[|more| - 1] == v;
    assert forall i :: 0 <= i < |vs| ==> more[i] == vs[i];
    forall m | m in ViewMemories(vs)
      ensures m in ViewMemories(more)
    {
      var i :| 0 <= i < |vs| && vs[i].memory == m;
      assert more[i].memory == m;
    }
    assert more[|vs|].memory == v.memory;
  }

  /** The next view takes the next chunk, or as much of it as is wanted. */
  lemma {:induction false} NextView(views: seq<View>, rest: seq<Chunk>, left: int, total: Bytes)
    requires ViewsOk(views) && ChunksOk(rest) && rest != [] && left > 0
    requires ViewedAll(views) + UpTo(Queued(rest), left) == total
    ensures var c := rest[0];
      var v := View(c.memory, c.start, if c.used > left then left else c.used);
      && ViewsOk(views + [v]) && ViewMemories(views + [v]) == ViewMemories(views) + {c.memory}
      && (c.used > left ==> ViewedAll(views + [v]) == total)
      && (c.used <= left ==> ChunksOk(rest[1..])
                             && ViewedAll(views + [v]) + UpTo(Queued(rest[1..]), left - c.used) == total)
  {
    var c := rest[0];
    var v := View(c.memory, c.start, if c.used > left then left else c.used);
    MoreViews(views, v);
    QueuedUnfolds(rest);
    if c.used > left {
      StartOfConcat(UsedBytes(c), Queued(rest[1..]), left);
      assert UsedBytes(c)[..left] == Viewed(v);
    } else {
      ViewGoesOn(ViewedAll(views), UsedBytes(c), Queued(rest[1..]), left, total);
    }
  }

  lemma {:induction false} QueuedUnfolds(vec: seq<Chunk>)
    requires ChunksOk(vec) && vec != []
    ensures ChunksOk(vec[1..]) && Queued(vec) == UsedBytes(vec[0]) + Queued(vec[1..])
  {}

  lemma {:induction false} ViewGoesOn(before: Bytes, a: Bytes, b: Bytes, left: int, total: Bytes)
    requires |a| <= left && before + UpTo(a + b, left) == total
    ensures (before + a) + UpTo(b, left - |a|) == total
  {
    UpToConcat(a, b, left);
    ConcatAssociative(before, a, UpTo(b, left - |a|));
  }

  method Copy(v: View, buf: Bytes)
    requires ViewOk(v) && |buf| == v.length
    modifies v.memory
    ensures Viewed(v) == buf && v.memory[..v.start] == old(v.memory[..v.start])
  {
    for i := 0 to |buf|
      invariant v.memory[..v.start] == old(v.memory[..v.start])
      invariant v.memory[v.start..v.start + i] == buf[..i]
    {
      v.memory[v.start + i] := buf[i];
    }
  }

  /** The last chunk is apart from the others. */
  lemma {:induction false} LastApart(vec: seq<Chunk>)
    requires vec != [] && Separate(vec)
    ensures vec[|vec| - 1].memory !in Memories(vec[..|vec| - 1])
    ensures Memories(vec[..|vec| - 1]) <= Memories(vec)
  {
    var init := vec[..|vec| - 1];
    forall i | 0 <= i < |init|
      ensures init[i].memory != vec[|vec| - 1].memory && init[i].memory in Memories(vec)
    {
      assert init[i] == vec[i];
    }
  }

  /** The queue when the last bytes in use are those of a view. */
  lemma {:induction false} LastParts(vec: seq<Chunk>, v: View)
    requires ChunksOk(vec) && vec != [] && ViewOk(v) && v.memory == vec[|vec| - 1].memory
    requires vec[|vec| - 1].start <= v.start && v.start + v.length == vec[|vec| - 1].start + vec[|vec| - 1].used
    ensures ChunksOk(vec[..|vec| - 1])
    ensures Queued(vec) == (Queued(vec[..|vec| - 1]) + v.memory[..v.start][vec[|vec| - 1].start..]) + Viewed(v)
  {
    var last := vec[|vec| - 1];
    LastChunk(vec);
    assert UsedBytes(last) == v.memory[..v.start][last.start..] + Viewed(v);
    ConcatAssociative(Queued(vec[..|vec| - 1]), v.memory[..v.start][last.start..], Viewed(v));
  }

  lemma {:induction false} SameEnd(a: Bytes, b: Bytes, end: Bytes)
    requires a + end == b + end
    ensures a == b
  {
    assert |a| == |b|;
    assert a == (a + end)[..|a|] && b == (b + end)[..|a|];
  }

  lemma {:induction false} PopTwice(a: Bytes, m: nat, n: nat)
    requires m + n <= |a|
    ensures a[m..][n..] == a[m + n..]
  {}

  class ChainedBuffer {
    var vec: seq<Chunk>
    // all used bytes, and all bytes of the chunks
    var bytes: int
    var capacity: int

    constructor ()
      ensures Valid() && Contents() == [] && vec == []
    {
      vec, bytes, capacity := [], 0, 0;
    }

    ghost predicate Valid()
      reads this
    {
      ChunksOk(vec) && Separate(vec) && bytes == UsedSum(vec) && capacity == SizeSum(vec)
    }

    ghost function Contents(): (b: Bytes)
      requires Valid()
      reads this, Memories(vec)
      ensures |b| == bytes
    {
      Queued(vec)
    }

    /** Never more bytes than capacity. */
    lemma {:induction false} WithinCapacity()
      requires Valid()
      ensures 0 <= bytes <= capacity
    {
      UsedWithinSize(vec);
    }

    /** Drops the first bytes. Chunks that are used up are released. */
    method PopFront(bytesToPop: int)
      requires Valid() && 0 <= bytesToPop <= bytes
      modifies this
      ensures Valid() && Contents() == old(Contents())[bytesToPop..]
      ensures Memories(vec) <= old(Memories(vec)) && capacity <= old(capacity)
    {
      var n := bytesToPop;
      ghost var all := Contents();
      while n > 0 && vec != []
        invariant Valid() && 0 <= n <= bytes && all[bytesToPop..] == Contents()[n..] && n <= bytesToPop <= |all|
        invariant Memories(vec) <= old(Memories(vec)) && capacity <= old(capacity)
        decreases |vec|
      {
        var b := vec[0];
        if b.used > n {
          PopPart(n);
          n := 0;
          break;
        }
        ghost var before := Contents();
        PopWhole();
        PopTwice(before, b.used, n - b.used);
        n := n - b.used;
      }
    }

    /** Drops bytes of the front chunk only. */
    method PopPart(n: nat)
      requires Valid() && vec != [] && n < vec[0].used
      modifies this
      ensures Valid() && Contents() == old(Contents())[n..]
      ensures Memories(vec) <= old(Memories(vec)) && capacity == old(capacity) - n
    {
      var b := vec[0];
      FrontShrinks(vec, n);
      vec := vec[0 := Chunk(b.memory, b.start + n, b.size - n, b.used - n)];
      capacity := capacity - n;
      bytes := bytes - n;
    }

    /** Releases the front chunk. */
    method PopWhole()
      requires Valid() && vec != []
      modifies this
      ensures Valid() && |vec| == old(|vec|) - 1
      ensures old(vec[0].used) <= old(bytes) && Contents() == old(Contents())[old(vec[0].used)..]
      ensures Memories(vec) <= old(Memories(vec)) && capacity <= old(capacity)
    {
      var b := vec[0];
      RestMemories(vec);
      SeparateRest(vec);
      assert Queued(vec) == UsedBytes(b) + Queued(vec[1..]);
      bytes := bytes - b.used;
      capacity := capacity - b.size;
      vec := vec[1..];
    }

    method SpaceInLastBuffer() returns (space: int)
      requires Valid()
      ensures space == if vec == [] then 0 else vec[|vec| - 1].size - vec[|vec| - 1].used
      ensures space >= 0
    {
      if vec == [] {
        return 0;
      }
      var b := vec[|vec| - 1];
      space := b.size - b.used;
    }

    /** Takes over a chunk of memory, of which `used` bytes are in use, at the end. */
    method AppendBuffer(memory: array<Byte>, used: nat)
      requires Valid() && used <= memory.Length && memory !in Memories(vec)
      modifies this
      ensures Valid() && Contents() == old(Contents()) + memory[..used]
      ensures capacity == old(capacity) + memory.Length && Memories(vec) == old(Memories(vec)) + {memory}
    {
      var b := Chunk(memory, 0, memory.Length, used);
      MoreMemory(vec, b);
      QueuedConcat(vec, [b]);
      OneChunk(b);
      vec := vec + [b];
      bytes := bytes + used;
      capacity := capacity + memory.Length;
    }

    /** The same at the front. */
    method PrependBuffer(memory: array<Byte>, used: nat)
      requires Valid() && used <= memory.Length && memory !in Memories(vec)
      modifies this
      ensures Valid() && Contents() == memory[..used] + old(Contents())
      ensures capacity == old(capacity) + memory.Length && Memories(vec) == old(Memories(vec)) + {memory}
    {
      var b := Chunk(memory, 0, memory.Length, used);
      MoreMemoryInFront(vec, b);
      QueuedConcat([b], vec);
      OneChunk(b);
      vec := [b] + vec;
      bytes := bytes + used;
      capacity := capacity + memory.Length;
    }

    /** Takes `s` bytes of room from the end of the last chunk, or nothing when there is not enough. */
    method AllocateAppendix(s: nat) returns (insert: Option<View>)
      requires Valid()
      modifies this`vec, this`bytes
      ensures Valid() && capacity == old(capacity) && Memories(vec) == old(Memories(vec))
      ensures insert.None? <==> old(vec) == [] || s > old(vec[|vec| - 1].size - vec[|vec| - 1].used)
      ensures insert.None? ==> vec == old(vec) && bytes == old(bytes)
      ensures insert.Some? ==>
                && ViewOk(insert.value) && insert.value.length == s && insert.value.memory in Memories(vec)
                && Contents() == old(Contents()) + Viewed(insert.value)
                && vec != [] && insert.value.memory == vec[|vec| - 1].memory
                  && vec[|vec| - 1].start <= insert.value.start
                && insert.value.start + s == vec[|vec| - 1].start + vec[|vec| - 1].used
    {
      if vec == [] {
        return None;
      }
      var b := vec[|vec| - 1];
      var at := b.start + b.used;
      if at + s > b.start + b.size {
        return None;
      }
      insert := Some(View(b.memory, at, s));
      UseMore(s);
    }

    /** Takes `s` more bytes of the last chunk into use. */
    method UseMore(s: nat)
      requires Valid() && vec != [] && s <= vec[|vec| - 1].size - vec[|vec| - 1].used
      modifies this`vec, this`bytes
      ensures Valid() && capacity == old(capacity) && Memories(vec) == old(Memories(vec))
      ensures var b := old(vec[|vec| - 1]);
        && vec == old(vec)[|old(vec)| - 1 := b.(used := b.used + s)] && b.memory in Memories(vec)
        && Contents() == old(Contents()) + b.memory[b.start + b.used..b.start + b.used + s]
    {
      var b := vec[|vec| - 1];
      ghost var more, tail := LastGrows(vec, s);
      vec := vec[|vec| - 1 := b.(used := b.used + s)];
      bytes := bytes + s;
      assert vec == more;
    }

    /** Copies `buf` to the end of the last chunk, if it fits there. */
    method Append(buf: Bytes) returns (insert: Option<View>)
      requires Valid()
      modifies this`vec, this`bytes, Memories(vec)
      ensures Valid() && capacity == old(capacity) && Memories(vec) == old(Memories(vec))
      ensures insert.None? <==> old(vec) == [] || |buf| > old(vec[|vec| - 1].size - vec[|vec| - 1].used)
      ensures insert.None? ==> vec == old(vec) && Contents() == old(Contents())
      ensures insert.Some? ==> Contents() == old(Contents()) + buf
    {
      insert := AllocateAppendix(|buf|);
      if insert == None {
        return;
      }
      var v := insert.value;
      ghost var first := vec[|vec| - 1].start;
      LastParts(vec, v);
      LastApart(vec);
      SameEnd(old(Contents()), Queued(vec[..|vec| - 1]) + v.memory[..v.start][first..], Viewed(v));
      Copy(v, buf);
      LastParts(vec, v);
    }

    /** The pieces of memory that hold the first `n` bytes. */
    method BuildVec(n: int) returns (views: seq<View>)
      requires Valid()
      ensures ViewsOk(views) && ViewMemories(views) <= Memories(vec)
      ensures ViewedAll(views) == UpTo(Contents(), n)
    {
      views := [];
      var left, i := n, 0;
      ghost var rest, total := vec, UpTo(Contents(), n);
      while left > 0 && i < |vec|
        invariant i <= |vec| && rest == vec[i..] && ChunksOk(rest)
        invariant ViewsOk(views) && ViewMemories(views) <= Memories(vec)
        invariant ViewedAll(views) + UpTo(Queued(rest), left) == total
        decreases |vec| - i
      {
        var c := vec[i];
        assert c == rest[0] && c.memory in Memories(vec);
        NextView(views, rest, left, total);
        if c.used > left {
          views := views + [View(c.memory, c.start, left)];
          return;
        }
        views := views + [View(c.memory, c.start, c.used)];
        left := left - c.used;
        i := i + 1;
        rest := rest[1..];
      }
    }

    /** Releases all chunks. */
    method Clear()
      requires Valid()
      modifies this
      ensures Valid() && Contents() == [] && bytes == capacity == 0
    {
      bytes := 0;
      capacity := 0;
      vec := [];
    }
  }

  lemma {:induction false} SeparateRest(vec: seq<Chunk>)
    requires Separate(vec) && vec != []
    ensures Separate(vec[1..])
  {}

  /** Bytes go from the front of a chunk that has more. */
  lemma {:induction false} FrontShrinks(vec: seq<Chunk>, n: nat)
    requires ChunksOk(vec) && Separate(vec) && vec != [] && n < vec[0].used
    ensures var b := vec[0];
      var less := vec[0 := Chunk(b.memory, b.start + n, b.size - n, b.used - n)];
      && ChunksOk(less) && Separate(less) && Memories(less) == Memories(vec)
      && Queued(less) == Queued(vec)[n..]
      && UsedSum(less) == UsedSum(vec) - n && SizeSum(less) == SizeSum(vec) - n
  {
    var b := vec[0];
    var less := vec[0 := Chunk(b.memory, b.start + n, b.size - n, b.used - n)];
    assert less[1..] == vec[1..];
    SameMemories(vec, less);
    QueuedUnfolds(vec);
    QueuedUnfolds(less);
    assert UsedBytes(less[0]) == UsedBytes(b)[n..];
    DropOfConcat(UsedBytes(b), Queued(vec[1..]), n);
  }

  lemma {:induction false} DropOfConcat(a: Bytes, b: Bytes, n: nat)
    requires n <= |a|
    ensures (a + b)[n..] == a[n..] + b
  {}

  lemma {:induction false} MoreMemory(vec: seq<Chunk>, b: Chunk)
    requires ChunksOk(vec) && Separate(vec) && ChunkOk(b) && b.memory !in Memories(vec)
    ensures ChunksOk(vec + [b]) && Separate(vec + [b]) && Memories(vec + [b]) == Memories(vec) + {b.memory}
  {
    assert forall i :: 0 <= i < |vec| ==> vec[i].memory in Memories(vec) && (vec + [b])[i] == vec[i];
    assert (vec + [b])[|vec|] == b;
  }

  lemma {:induction false} MoreMemoryInFront(vec: seq<Chunk>, b: Chunk)
    requires ChunksOk(vec) && Separate(vec) && ChunkOk(b) && b.memory !in Memories(vec)
    ensures ChunksOk([b] + vec) && Separate([b] + vec) && Memories([b] + vec) == Memories(vec) + {b.memory}
  {
    MemoriesInFront(vec, b);
    forall i, j | 0 <= i < j < |[b] + vec|
      ensures ([b] + vec)[i].memory != ([b] + vec)[j].memory
    {
      if i == 0 {
        assert vec[j - 1].memory in Memories(vec);
      }
    }
  }

  lemma {:induction false} MemoriesInFront(vec: seq<Chunk>, b: Chunk)
    ensures Memories([b] + vec) == Memories(vec) + {b.memory}
  {
    var more := [b] + vec;
    forall m | m in Memories(vec) + {b.memory}
      ensures m in Memories(more)
    {
      if m == b.memory {
        assert more[0].memory == m;
      } else {
        var i :| 0 <= i < |vec| && vec[i].memory == m;
        assert more[i + 1].memory == m;
      }
    }
    forall m | m in Memories(more)
      ensures m in Memories(vec) + {b.memory}
    {
      var i :| 0 <= i < |more| && more[i].memory == m;
      assert i == 0 || vec[i - 1].memory == m;
    }
  }

  /** Room of the last chunk comes into use. */
  lemma {:induction false} LastGrows(vec: seq<Chunk>, s: nat) returns (more: seq<Chunk>, tail: Bytes)
    requires ChunksOk(vec) && Separate(vec) && vec != [] && s <= vec[|vec| - 1].size - vec[|vec| - 1].used
    ensures var b := vec[|vec| - 1];
      && more == vec[|vec| - 1 := b.(used := b.used + s)]
      && ChunksOk(more) && Separate(more) && Memories(more) == Memories(vec) && b.memory in Memories(more)
      && tail == b.memory[b.start + b.used..b.start + b.used + s] && Queued(more) == Queued(vec) + tail
      && UsedSum(more) == UsedSum(vec) + s && SizeSum(more) == SizeSum(vec)
  {
    var b := vec[|vec| - 1];
    var c := b.(used := b.used + s);
    more, tail := vec[|vec| - 1 := c], b.memory[b.start + b.used..b.start + b.used + s];
    SameMemories(vec, more);
    assert vec[|vec| - 1].memory in Memories(vec);
    LastReplaced(vec, more, b, c, s);
  }

  lemma {:induction false} LastReplaced(vec: seq<Chunk>, more: seq<Chunk>, b: Chunk, c: Chunk, s: nat)
    requires ChunksOk(vec) && ChunksOk(more) && vec != [] && b == vec[|vec| - 1] && s <= b.size - b.used
    requires c == b.(used := b.used + s) && more == vec[|vec| - 1 := c]
    ensures Queued(more) == Queued(vec) + b.memory[b.start + b.used..b.start + b.used + s]
    ensures UsedSum(more) == UsedSum(vec) + s && SizeSum(more) == SizeSum(vec)
  {
    assert more[..|vec| - 1] == vec[..|vec| - 1];
    LastChunk(vec);
    LastChunk(more);
    LongerChunk(b, c, s);
    ConcatAssociative(Queued(vec[..|vec| - 1]), UsedBytes(b), b.memory[b.start + b.used..b.start + c.used]);
  }

  lemma {:induction false} LongerChunk(b: Chunk, c: Chunk, s: nat)
    requires c == b.(used := b.used + s) && ChunkOk(b) && ChunkOk(c)
    ensures UsedBytes(c) == UsedBytes(b) + b.memory[b.start + b.used..b.start + c.used]
  {}

  lemma {:induction false} SameMemories(vec: seq<Chunk>, more: seq<Chunk>)
    requires |vec| == |more| && forall i :: 0 <= i < |vec| ==> more[i].memory == vec[i].memory
    ensures Memories(more) == Memories(vec) && (Separate(vec) ==> Separate(more))
  {}
}
