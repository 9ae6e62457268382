/**
 What Deluge's torrents are made of, without the functions that compute them: which bytes are hashed in which order,
 what is listed, and what is padding. With a hash function that changes nothing the roots show the bytes themselves.
 */
module TorrentLaws {
  import opened Bytes
  import opened Merkle
  import opened TorrentHashing

  // ----- trees

  /** Hashing that changes nothing. */
  ghost predicate Transparent(sha: Bytes -> Bytes) {
    forall x: Bytes :: sha(x) == x
  }

  /** The leaves come from left to right. */
  lemma {:induction false} LeavesInOrder(sha: Bytes -> Bytes, k: nat, leaves: seq<Bytes>, i: nat)
    requires Transparent(sha) && i + Pow2(k) <= |leaves|
    ensures RootAt(sha, k, leaves, i) == Join(leaves[i..i + Pow2(k)])
  {
    hide Join, Transparent;
    if k == 0 {
      assert leaves[i..i + 1] == [leaves[i]];
      JoinOne(leaves[i]);
    } else {
      var half := Pow2(k - 1);
      LeavesInOrder(sha, k - 1, leaves, i);
      LeavesInOrder(sha, k - 1, leaves, i + half);
      TwoSlices(leaves, i, half);
      JoinConcat(leaves[i..i + half], leaves[i + half..i + 2 * half]);
      Unchanged(sha, Join(leaves[i..i + 2 * half]));
    }
  }

  lemma {:induction false} TwoSlices<T>(s: seq<T>, i: nat, n: nat)
    requires i + 2 * n <= |s|
    ensures s[i..i + 2 * n] == s[i..i + n] + s[i + n..i + 2 * n]
  {}

  lemma {:induction false} Unchanged(sha: Bytes -> Bytes, x: Bytes)
    requires Transparent(sha)
    ensures sha(x) == x
  {}

  lemma {:induction false} JoinOfZeros(n: nat, m: nat)
    ensures Join(seq(n, _ => Zeros(m))) == Zeros(n * m)
  {
    var all: seq<Bytes> := seq(n, _ => Zeros(m));
    if n > 0 {
      JoinOfZeros(n - 1, m);
      assert all[..n - 1] == seq(n - 1, _ => Zeros(m));
      TimesNext(n - 1, m);
    }
  }

  lemma {:induction false} JoinNone()
    ensures Join([]) == []
  {}

  lemma {:induction false} ChunksInOrder(sha: Bytes -> Bytes, data: Bytes, len: nat)
    requires Transparent(sha) && len > 0
    ensures Join(Hashes(sha, data, len)) == data
    decreases |data|
  {
    hide Join, Transparent;
    if data == [] {
      JoinNone();
    } else {
      var first := if |data| <= len then data else data[..len];
      Unchanged(sha, first);
      JoinOne(first);
      if |data| > len {
        ChunksInOrder(sha, data[len..], len);
        JoinConcat([first], Hashes(sha, data[len..], len));
        assert first + data[len..] == data;
      }
    }
  }

  /** The tree of a file is over all of its bytes in order, and then over blocks of 32 zeros up to a power of two. */
  lemma {:induction false} FileInOrder(sha: Bytes -> Bytes, content: Bytes)
    requires Transparent(sha)
    ensures var blocks := ChunkCount(|content|, 16384);
      var root, missing := FileRoot(sha, content), Pow2(Height(blocks)) - blocks;
      && missing >= 0 && |root| == |content| + 32 * missing && root[..|content|] == content
      && forall i :: |content| <= i < |root| ==> root[i] == 0
  {
    hide Transparent, Join, Hashes;
    var blocks := Hashes(sha, content, BLOCK_LEN);
    HashCount(sha, content, BLOCK_LEN);
    var n, all := |blocks|, Pow2(Height(|blocks|));
    var padded := Padded(blocks, all, BLOCK_PADDING);
    LeavesInOrder(sha, Height(n), padded, 0);
    assert padded[0..all] == padded == blocks + seq(all - n, _ => Zeros(32));
    JoinConcat(blocks, seq(all - n, _ => Zeros(32)));
    JoinOfZeros(all - n, 32);
    ChunksInOrder(sha, content, BLOCK_LEN);
  }

  /** Where there are no blocks the tree is over zeros only. */
  lemma {:induction false} NoBlocks(sha: Bytes -> Bytes, k: nat)
    requires Transparent(sha)
    ensures var root := BlocksRoot(sha, [], k);
      |root| == 32 * Pow2(k) && forall i :: 0 <= i < |root| ==> root[i] == 0
  {
    hide Transparent, Join;
    var padded := Padded([], Pow2(k), BLOCK_PADDING);
    LeavesInOrder(sha, k, padded, 0);
    assert padded[0..Pow2(k)] == padded == seq(Pow2(k), _ => Zeros(32));
    JoinOfZeros(Pow2(k), 32);
  }

  // ----- the bytes that are hashed, and what is listed

  /**
   File `i` in the stream that the v1 pieces are cut from: all of it, right behind the files in front of it; with
   padding, zeros up to the next piece boundary follow, and fewer than a piece.
   */
  lemma {:induction false} FileInStream(files: seq<Bytes>, len: nat, pad: bool, i: nat)
    requires len > 0 && i < |files|
    ensures var stream, start := Stream(files, len, pad), |Stream(files[..i], len, pad)|;
      var end, next := start + |files[i]|, |Stream(files[..i + 1], len, pad)|;
      && end <= next <= |stream| && stream[start..end] == files[i]
      && (forall j :: end <= j < next ==> stream[j] == 0)
      && (if pad then next % len == 0 && next - end < len else next == end)
  {
    hide Stream, Streamed, Zeros, PadLength;
    NextStream(files, i, len, pad);
    StreamGrows(files, len, pad, i + 1);
    FileAtEnd(Stream(files[..i], len, pad), files[i], len, pad, Stream(files, len, pad));
  }

  lemma {:induction false} FileAtEnd(before: Bytes, file: Bytes, len: nat, pad: bool, stream: Bytes)
    requires len > 0 && Streamed(before, file, len, pad) <= stream
    ensures var end, next := |before| + |file|, |Streamed(before, file, len, pad)|;
      && end <= next <= |stream| && stream[|before|..end] == file
      && (forall j :: end <= j < next ==> stream[j] == 0)
      && (if pad then next % len == 0 && next - end < len else next == end)
  {
    var part, end := Streamed(before, file, len, pad), |before| + |file|;
    assert part[|before|..end] == file;
    assert stream[|before|..end] == stream[..|part|][|before|..end];
    forall j | end <= j < |part|
      ensures stream[j] == 0
    {
      assert stream[j] == stream[..|part|][j];
    }
    if pad {
      PadFills(end, len);
      PadIsShort(end, len);
    }
  }

  lemma {:induction false} PadIsShort(n: nat, len: nat)
    requires len > 0
    ensures PadLength(n, len) < len
  {}

  lemma {:induction false} StreamGrows(files: seq<Bytes>, len: nat, pad: bool, i: nat)
    requires len > 0 && i <= |files|
    ensures Stream(files[..i], len, pad) <= Stream(files, len, pad)
    decreases |files| - i
  {
    if i == |files| {
      TakeAll(files);
    } else {
      StreamGrows(files, len, pad, i + 1);
      NextStream(files, i, len, pad);
    }
  }

  /** The lengths of the entries that are padding, or of those that are not. */
  function Lengths(listed: seq<Listed>, pad: bool): seq<nat> {
    if listed == [] then [] else
    var last := listed[|listed| - 1];
    Lengths(listed[..|listed| - 1], pad) + if last.pad == pad then [last.length] else []
  }

  function Sizes(files: seq<Bytes>): seq<nat> {
    if files == [] then [] else Sizes(files[..|files| - 1]) + [|files[|files| - 1]|]
  }

  /** Entry `i` is a file that starts at a piece boundary, or padding that fills a piece up and is shorter than one. */
  ghost predicate AlignedAt(listed: seq<Listed>, i: nat, len: nat)
    requires len > 0 && i < |listed|
  {
    if listed[i].pad then 0 < listed[i].length < len && TotalLength(listed[..i + 1]) % len == 0
    else TotalLength(listed[..i]) % len == 0
  }

  ghost predicate Aligned(listed: seq<Listed>, len: nat)
    requires len > 0
  {
    forall i :: 0 <= i < |listed| ==> AlignedAt(listed, i, len)
  }

  /** The files are listed with their sizes, in order; and padding files only where they are needed. */
  lemma {:induction false} ListedInOrder(files: seq<Bytes>, len: nat, pad: bool)
    requires len > 0
    ensures Lengths(ListedFiles(files, len, pad), false) == Sizes(files)
    ensures !pad ==> Lengths(ListedFiles(files, len, pad), true) == []
    ensures pad ==> Aligned(ListedFiles(files, len, pad), len) && TotalLength(ListedFiles(files, len, pad)) % len == 0
  {
    hide Stream, Listing, Aligned;
    if files == [] {
      QuotientIs(0, len, 0, 0);
      NothingListed(len);
    } else {
      var init, last := files[..|files| - 1], files[|files| - 1];
      var front, end := ListedFiles(init, len, pad), |Stream(init, len, pad)| + |last|;
      ListedInOrder(init, len, pad);
      ListedLengths(init, len, pad);
      ListedLengths(files, len, pad);
      if pad {
        FilesAreAligned(files, len);
      }
      OneListing(front, last, end, len, pad);
    }
  }

  lemma {:induction false} NothingListed(len: nat)
    requires len > 0
    ensures Aligned([], len) && TotalLength([]) == 0
  {}

  lemma {:induction false} OneListing(front: seq<Listed>, file: Bytes, end: nat, len: nat, pad: bool)
    requires len > 0 && end == TotalLength(front) + |file|
    requires pad ==> Aligned(front, len) && TotalLength(front) % len == 0
    ensures var all := front + Listing(file, end, len, pad);
      && Lengths(all, false) == Lengths(front, false) + [|file|]
      && (!pad ==> Lengths(all, true) == Lengths(front, true))
      && (pad ==> Aligned(all, len))
  {
    var one, rest := front + [Listed(|file|, false)], PadLength(end, len);
    InitOfAppend(front, Listed(|file|, false));
    if pad {
      AlignedOneMore(front, Listed(|file|, false), len);
      if rest > 0 {
        InitOfAppend(one, Listed(rest, true));
        PadFills(end, len);
        AlignedOneMore(one, Listed(rest, true), len);
      }
    }
    assert front + Listing(file, end, len, pad) == if pad && rest > 0 then one + [Listed(rest, true)] else one;
  }

  lemma {:induction false} AlignedOneMore(front: seq<Listed>, entry: Listed, len: nat)
    requires len > 0 && Aligned(front, len)
    requires if entry.pad then 0 < entry.length < len && (TotalLength(front) + entry.length) % len == 0
             else TotalLength(front) % len == 0
    ensures Aligned(front + [entry], len)
  {
    hide TotalLength;
    var all := front + [entry];
    TotalAppend(front, entry);
    forall i | 0 <= i < |all|
      ensures AlignedAt(all, i, len)
    {
      if i < |front| {
        assert AlignedAt(front, i, len);
        assert all[..i] == front[..i] && all[..i + 1] == front[..i + 1];
      } else {
        assert all[..i] == front && all[..i + 1] == all;
      }
    }
  }

  lemma {:induction false} TotalAppend(front: seq<Listed>, entry: Listed)
    ensures TotalLength(front + [entry]) == TotalLength(front) + entry.length
  {
    InitOfAppend(front, entry);
  }

  // ----- the layers

  /** `layer` is made of the roots of the pieces of a file that is longer than one, and `root` is the root of that. */
  ghost predicate LayerOf(sha: Bytes -> Bytes, files: seq<Bytes>, len: nat, k: nat, root: Bytes, layer: Bytes)
    requires len > 0
  {
    exists file :: file in files && |file| > len && HasLayer(sha, file, len, k, root, layer)
  }

  ghost predicate HasLayer(sha: Bytes -> Bytes, file: Bytes, len: nat, k: nat, root: Bytes, layer: Bytes)
    requires len > 0
  {
    root == PiecesRoot(sha, file, len, k) && layer == Join(PieceRoots(sha, file, len, k))
  }

  /** There is a layer for the root of every file that is longer than a piece, and none else. */
  lemma {:induction false} LayersAre(sha: Bytes -> Bytes, files: seq<Bytes>, len: nat, k: nat)
    requires len > 0
    ensures var layers := Layers(sha, files, len, k);
      && (forall file :: file in files && |file| > len ==> PiecesRoot(sha, file, len, k) in layers)
      && (forall root :: root in layers ==> LayerOf(sha, files, len, k, root, layers[root]))
  {
    hide PiecesRoot, PieceRoot, Join;
    if files != [] {
      var init, last := files[..|files| - 1], files[|files| - 1];
      LayersAre(sha, init, len, k);
      assert files == init + [last];
      ManyPieces(last, len);
      var before, layers := Layers(sha, init, len, k), Layers(sha, files, len, k);
      forall root | root in layers
        ensures LayerOf(sha, files, len, k, root, layers[root])
      {
        if |last| > len && root == PiecesRoot(sha, last, len, k) {
          assert last in files && HasLayer(sha, last, len, k, root, layers[root]);
        } else {
          assert LayerOf(sha, init, len, k, root, before[root]);
        }
      }
    }
  }

  lemma {:induction false} ManyPieces(file: Bytes, len: nat)
    requires len > 0
    ensures ChunkCount(|file|, len) > 1 <==> |file| > len
  {
    if file != [] {
      CountBounds(|file|, len, ChunkCount(|file|, len));
    } else {
      QuotientIs(len - 1, len, 0, len - 1);
    }
    if |file| > len {
      TorrentHashing.MoreThan(|file|, 1, ChunkCount(|file|, len), len);
    } else if file != [] {
      AtMost(|file|, ChunkCount(|file|, len), 1, len);
    }
  }

  /** A piece length will do for v2 exactly if it is a power of two of at least 16 KiB. */
  lemma {:induction false} GoodIff(len: nat)
    requires len > 0
    ensures GoodPieceLength(len) <==> exists k :: k >= 14 && len == Pow2(k)
  {
    assert Pow2(14) == 16384 by {
      assert Pow2(7) == 128;
      Pow2Sum(7, 7);
    }
    if GoodPieceLength(len) {
      var k := BlocksPerPiece(len);
      Pow2Sum(k, 14);
      assert len == Pow2(k + 14);
    }
    forall k: nat | k >= 14 && len == Pow2(k)
      ensures GoodPieceLength(len)
    {
      Pow2Monotone(14, k);
      PowerIsNext(k);
    }
  }

  lemma {:induction false} PowerIsNext(k: nat)
    ensures NextPow2(Pow2(k)) == Pow2(k)
  {
    if k > 0 {
      HalfOfPower(k);
      HeightIs(Pow2(k), k);
    }
  }

  lemma {:induction false} HalfOfPower(k: nat)
    requires k > 0
    ensures Pow2(k - 1) < Pow2(k)
  {}
}
