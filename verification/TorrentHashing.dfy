/**
 The hashing loop of Deluge's `makeinfo`: one pass over the files makes the v1 pieces, which cross file boundaries, and
 a Merkle tree for each file. Files are the sequences of their bytes, in the given order; the hashes are any functions.
 */
module TorrentHashing {
  import opened Bytes
  import opened Merkle

  // ----- hashes of consecutive chunks

  /** The hashes of the chunks of `len` bytes, the last of which may be shorter. */
  function Hashes(sha: Bytes -> Bytes, data: Bytes, len: nat): seq<Bytes>
    requires len > 0
  {
    if data == [] then []
    else if |data| <= len then [sha(data)]
    else [sha(data[..len])] + Hashes(sha, data[len..], len)
  }

  function ChunkCount(size: nat, len: nat): nat
    requires len > 0
  {
    (size + len - 1) / len
  }

  lemma {:induction false} OneChunkLess(size: nat, len: nat)
    requires size > len > 0
    ensures ChunkCount(size, len) == 1 + ChunkCount(size - len, len)
  {
    var n := size - 1;
    var q, r := n / len, n % len;
    TimesNext(q, len);
    QuotientIs(size + len - 1, len, q + 1, r);
  }

  lemma {:induction false} QuotientIs(n: nat, len: nat, q: nat, r: nat)
    requires n == q * len + r && r < len
    ensures n / len == q && n % len == r
  {
    var d := n / len;
    assert n == d * len + n % len;
    if d < q {
      TimesMonotone(d + 1, q, len);
      TimesNext(d, len);
    } else if d > q {
      TimesMonotone(q + 1, d, len);
      TimesNext(q, len);
    }
  }

  lemma {:induction false} HashCount(sha: Bytes -> Bytes, data: Bytes, len: nat)
    requires len > 0
    ensures |Hashes(sha, data, len)| == ChunkCount(|data|, len)
    decreases |data|
  {
    if |data| > len {
      HashCount(sha, data[len..], len);
      OneChunkLess(|data|, len);
    }
  }

  lemma {:induction false} SpanOfRest<T>(data: seq<T>, len: nat, at: nat)
    requires len <= |data| && len <= at
    ensures Span(data[len..], at - len, len) == Span(data, at, len)
  {}

  lemma {:induction false} HashAt(sha: Bytes -> Bytes, data: Bytes, len: nat, i: nat)
    requires len > 0 && i < |Hashes(sha, data, len)|
    ensures Hashes(sha, data, len)[i] == sha(Span(data, i * len, len))
    decreases i
  {
    if i == 0 {
      assert Span(data, 0, len) == if |data| <= len then data else data[..len];
    } else {
      HashAt(sha, data[len..], len, i - 1);
      TimesNext(i - 1, len);
      SpanOfRest(data, len, i * len);
    }
  }

  /** `_sha256_buffer_blocks`. */
  function BufferBlocks(sha: Bytes -> Bytes, buffer: Bytes, blockLen: nat): seq<Bytes>
    requires blockLen > 0
  {
    seq(ChunkCount(|buffer|, blockLen), i requires i >= 0 => sha(Span(buffer, i * blockLen, blockLen)))
  }

  lemma {:induction false} BlocksAreHashes(sha: Bytes -> Bytes, buffer: Bytes, blockLen: nat)
    requires blockLen > 0
    ensures BufferBlocks(sha, buffer, blockLen) == Hashes(sha, buffer, blockLen)
  {
    HashCount(sha, buffer, blockLen);
    forall i | 0 <= i < ChunkCount(|buffer|, blockLen)
      ensures Hashes(sha, buffer, blockLen)[i] == sha(Span(buffer, i * blockLen, blockLen))
    {
      HashAt(sha, buffer, blockLen, i);
    }
  }

  // ----- the running hash of the v1 pieces

  /**
   Of `data`, the pieces are hashed and the `rest` is in the running hash: whatever follows can be hashed on from there.
   */
  ghost predicate Continues(sha: Bytes -> Bytes, len: nat, data: Bytes, pieces: seq<Bytes>, rest: Bytes)
    requires len > 0
  {
    && |rest| < len && |data| % len == |rest|
    && forall more: Bytes :: Hashes(sha, data + more, len) == pieces + Hashes(sha, rest + more, len)
  }

  lemma {:induction false} RestAdvances(n: nat, x: nat, len: nat)
    requires len > 0
    ensures (n + x) % len == (n % len + x) % len
  {
    var q, r := n / len, n % len + x;
    Division(n, len);
    Division(r, len);
    TimesSum(q, r / len, len);
    QuotientIs(n + x, len, q + r / len, r % len);
  }

  lemma {:induction false} Division(n: nat, len: nat)
    requires len > 0
    ensures n == (n / len) * len + n % len && n % len < len
  {}

  lemma {:induction false} NothingYet(sha: Bytes -> Bytes, len: nat)
    requires len > 0
    ensures Continues(sha, len, [], [], [])
  {
    QuotientIs(0, len, 0, 0);
  }

  lemma {:induction false} GoesOn(sha: Bytes -> Bytes, len: nat, data: Bytes, pieces: seq<Bytes>, rest: Bytes, x: Bytes)
    requires len > 0 && Continues(sha, len, data, pieces, rest) && |rest + x| < len
    ensures Continues(sha, len, data + x, pieces, rest + x)
  {
    RestAdvances(|data|, |x|, len);
    QuotientIs(|rest + x|, len, 0, |rest + x|);
    forall more: Bytes
      ensures Hashes(sha, (data + x) + more, len) == pieces + Hashes(sha, (rest + x) + more, len)
    {
      ConcatAssociative(data, x, more);
      ConcatAssociative(rest, x, more);
    }
  }

  lemma {:induction false} FullChunk(sha: Bytes -> Bytes, len: nat, chunk: Bytes, more: Bytes)
    requires len > 0 && |chunk| == len
    ensures Hashes(sha, chunk + more, len) == [sha(chunk)] + Hashes(sha, more, len)
  {
    if more == [] {
      assert chunk + more == chunk;
    } else {
      assert (chunk + more)[..len] == chunk && (chunk + more)[len..] == more;
    }
  }

  lemma {:induction false} PieceIsFull(sha: Bytes -> Bytes, len: nat, data: Bytes, pieces: seq<Bytes>, rest: Bytes,
                                       x: Bytes)
    requires len > 0 && Continues(sha, len, data, pieces, rest) && |rest + x| == len
    ensures Continues(sha, len, data + x, pieces + [sha(rest + x)], [])
  {
    RestAdvances(|data|, |x|, len);
    QuotientIs(len, len, 1, 0);
    forall more: Bytes
      ensures Hashes(sha, (data + x) + more, len) == (pieces + [sha(rest + x)]) + Hashes(sha, [] + more, len)
    {
      ConcatAssociative(data, x, more);
      ConcatAssociative(rest, x, more);
      FullChunk(sha, len, rest + x, more);
      assert [] + more == more;
      ConcatAssociative(pieces, [sha(rest + x)], Hashes(sha, more, len));
    }
  }

  /** In the end the rest makes up the last piece. */
  lemma {:induction false} LastPiece(sha: Bytes -> Bytes, len: nat, data: Bytes, pieces: seq<Bytes>, rest: Bytes)
    requires len > 0 && Continues(sha, len, data, pieces, rest)
    ensures Hashes(sha, data, len) == if rest != [] then pieces + [sha(rest)] else pieces
  {
    assert data + [] == data && rest + [] == rest;
    assert Hashes(sha, data + [], len) == pieces + Hashes(sha, rest + [], len);
  }

  /** Feeds a part of a buffer, which fits into the piece that is open. */
  method FeedPart(sha: Bytes -> Bytes, len: nat, part: Bytes, pieces: seq<Bytes>, sh: Bytes, done: nat,
                  ghost data: Bytes)
    returns (pieces': seq<Bytes>, sh': Bytes, done': nat)
    requires len > 0 && Continues(sha, len, data, pieces, sh) && done == |sh| && done + |part| <= len
    ensures Continues(sha, len, data + part, pieces', sh') && done' == |sh'|
    ensures done' == if done + |part| == len then 0 else done + |part|
  {
    pieces', sh', done' := pieces, sh, done;
    if part != [] {
      sh' := sh' + part;
      done' := done' + |part|;
      if done' == len {
        PieceIsFull(sha, len, data, pieces, sh, part);
        pieces' := pieces' + [sha(sh')];
        done' := 0;
        sh' := [];
      } else {
        GoesOn(sha, len, data, pieces, sh, part);
      }
    } else {
      assert data + part == data;
    }
  }

  /** Feeds a buffer: what completes the piece that is open, and what starts the next one. */
  method Feed(sha: Bytes -> Bytes, len: nat, buffer: Bytes, pieces: seq<Bytes>, sh: Bytes, done: nat, ghost data: Bytes)
    returns (pieces': seq<Bytes>, sh': Bytes, done': nat)
    requires len > 0 && Continues(sha, len, data, pieces, sh) && done == |sh| && |buffer| <= len
    ensures Continues(sha, len, data + buffer, pieces', sh') && done' == |sh'|
  {
    var a := if len - done < |buffer| then len - done else |buffer|;
    pieces', sh', done' := FeedPart(sha, len, buffer[..a], pieces, sh, done, data);
    pieces', sh', done' := FeedPart(sha, len, buffer[a..], pieces', sh', done', data + buffer[..a]);
    assert (data + buffer[..a]) + buffer[a..] == data + buffer;
  }

  // ----- the trees of a file

  const BLOCK_LEN: nat := 16384

  const DIGEST_SIZE: nat := 32

  function Zeros(n: nat): (z: Bytes)
    ensures |z| == n
  {
    seq(n, _ => 0)
  }

  const BLOCK_PADDING: Bytes := Zeros(DIGEST_SIZE)

  /** The root over blocks, filled up to a tree of height `k`. */
  function BlocksRoot(sha: Bytes -> Bytes, blocks: seq<Bytes>, k: nat): Bytes {
    Root(sha, k, Padded(blocks, Pow2(k), BLOCK_PADDING))
  }

  /** The bytes of piece `j`. */
  function Piece(content: Bytes, len: nat, j: nat): Bytes {
    Span(content, j * len, len)
  }

  /**
   The roots of the pieces of a file, of `Pow2(k)` blocks each. A file that is but one piece gets as small a tree as it
   can.
   */
  function PieceRoot(sha: Bytes -> Bytes, content: Bytes, len: nat, k: nat, j: nat): Bytes {
    var blocks := Hashes(sha, Piece(content, len, j), BLOCK_LEN);
    BlocksRoot(sha, blocks, if |content| <= len then Height(|blocks|) else k)
  }

  function PieceRoots(sha: Bytes -> Bytes, content: Bytes, len: nat, k: nat): seq<Bytes>
    requires len > 0
  {
    seq(ChunkCount(|content|, len), j requires j >= 0 => PieceRoot(sha, content, len, k, j))
  }

  /** The `pieces root` of a file as it is computed: in two levels. */
  function PiecesRoot(sha: Bytes -> Bytes, content: Bytes, len: nat, k: nat): Bytes
    requires len > 0
  {
    var roots := PieceRoots(sha, content, len, k);
    Root(sha, Height(|roots|), Padded(roots, NextPow2(|roots|), BlocksRoot(sha, [], k)))
  }

  /** The root of one tree over all blocks of a file. */
  function FileRoot(sha: Bytes -> Bytes, content: Bytes): Bytes {
    var blocks := Hashes(sha, content, BLOCK_LEN);
    BlocksRoot(sha, blocks, Height(|blocks|))
  }

  /** The hashes of a piece are a part of those of the file. */
  lemma {:induction false} HashesOfPiece(sha: Bytes -> Bytes, content: Bytes, from: nat, at: nat, n: nat, size: nat,
                                         blockLen: nat)
    requires blockLen > 0 && at == from * blockLen && size == n * blockLen
    ensures Hashes(sha, Span(content, at, size), blockLen) == Span(Hashes(sha, content, blockLen), from, n)
    decreases |content|
  {
    if content == [] {
      assert Span(content, at, size) == [];
    } else if from == 0 {
      HashesOfStart(sha, content, n, blockLen);
    } else {
      TimesNext(from - 1, blockLen);
      if |content| > blockLen {
        HashesOfPiece(sha, content[blockLen..], from - 1, at - blockLen, n, size, blockLen);
      }
      HashesOfRest(sha, content, from, at, n, size, blockLen);
    }
  }

  lemma {:induction false} HashesOfRest(sha: Bytes -> Bytes, content: Bytes, from: nat, at: nat, n: nat, size: nat,
                                        blockLen: nat)
    requires blockLen > 0 && content != [] && from > 0 && at >= blockLen
    requires |content| > blockLen ==>
               Hashes(sha, Span(content[blockLen..], at - blockLen, size), blockLen)
               == Span(Hashes(sha, content[blockLen..], blockLen), from - 1, n)
    ensures Hashes(sha, Span(content, at, size), blockLen) == Span(Hashes(sha, content, blockLen), from, n)
  {
    var hashes := Hashes(sha, content, blockLen);
    if |content| <= blockLen {
      assert Span(content, at, size) == [] && Span(hashes, from, n) == [];
    } else {
      SpanBehind(content, blockLen, at, size);
      SpanBehind(hashes, 1, from, n);
      assert hashes[1..] == Hashes(sha, content[blockLen..], blockLen);
    }
  }

  lemma {:induction false} SpanBehind<T>(s: seq<T>, k: nat, from: nat, n: nat)
    requires k <= |s| && k <= from
    ensures Span(s[k..], from - k, n) == Span(s, from, n)
  {}

  lemma {:induction false} HashesOfStart(sha: Bytes -> Bytes, content: Bytes, n: nat, blockLen: nat)
    requires blockLen > 0
    ensures Hashes(sha, Span(content, 0, n * blockLen), blockLen) == Span(Hashes(sha, content, blockLen), 0, n)
    decreases |content|
  {
    var hashes, start := Hashes(sha, content, blockLen), Span(content, 0, n * blockLen);
    if n == 0 || content == [] {
      assert start == [] && Span(hashes, 0, n) == [];
    } else {
      TimesNext(n - 1, blockLen);
      if |content| <= blockLen {
        assert start == content && Span(hashes, 0, n) == hashes;
      } else {
        HashesOfStart(sha, content[blockLen..], n - 1, blockLen);
        StartOfStart(sha, content, n, blockLen);
      }
    }
  }

  lemma {:induction false} StartOfStart(sha: Bytes -> Bytes, content: Bytes, n: nat, blockLen: nat)
    requires 0 < blockLen < |content| && n > 0 && n * blockLen == (n - 1) * blockLen + blockLen
    requires Hashes(sha, Span(content[blockLen..], 0, (n - 1) * blockLen), blockLen)
          == Span(Hashes(sha, content[blockLen..], blockLen), 0, n - 1)
    ensures Hashes(sha, Span(content, 0, n * blockLen), blockLen) == Span(Hashes(sha, content, blockLen), 0, n)
  {
    var first, more := content[..blockLen], Span(content[blockLen..], 0, (n - 1) * blockLen);
    assert Span(content, 0, n * blockLen) == first + more;
    FullChunk(sha, blockLen, first, more);
    var rest := Hashes(sha, content[blockLen..], blockLen);
    assert Hashes(sha, content, blockLen) == [sha(first)] + rest;
    assert Span([sha(first)] + rest, 0, n) == [sha(first)] + Span(rest, 0, n - 1);
  }

  /** The two levels compute the root of one tree over all blocks, as BEP 52 asks for. */
  lemma {:induction false} TwoLevelsAreOne(sha: Bytes -> Bytes, content: Bytes, len: nat, k: nat)
    requires content != [] && len == Pow2(k) * BLOCK_LEN
    ensures PiecesRoot(sha, content, len, k) == FileRoot(sha, content)
  {
    if |content| <= len {
      OnePieceRoot(sha, content, len, k);
    } else {
      ManyPiecesRoot(sha, content, len, k);
    }
  }

  lemma {:induction false} OnePieceRoot(sha: Bytes -> Bytes, content: Bytes, len: nat, k: nat)
    requires 0 < |content| <= len
    ensures PiecesRoot(sha, content, len, k) == FileRoot(sha, content)
  {
    var roots := PieceRoots(sha, content, len, k);
    QuotientIs(|content| + len - 1, len, 1, |content| - 1);
    assert Piece(content, len, 0) == content;
    assert |roots| == 1 && roots[0] == FileRoot(sha, content);
  }

  lemma {:induction false} ManyPiecesRoot(sha: Bytes -> Bytes, content: Bytes, len: nat, k: nat)
    requires |content| > len == Pow2(k) * BLOCK_LEN
    ensures PiecesRoot(sha, content, len, k) == FileRoot(sha, content)
  {
    var blocks, roots := Hashes(sha, content, BLOCK_LEN), PieceRoots(sha, content, len, k);
    var m, n, size := |roots|, |blocks|, Pow2(k);
    HashCount(sha, content, BLOCK_LEN);
    PieceAndBlockCounts(|content|, size, BLOCK_LEN);
    forall j | 0 <= j < m
      ensures roots[j] == BlocksRoot(sha, Span(blocks, j * size, size), k)
    {
      PieceIsSpan(sha, content, size, j);
    }
    var outer := Height(m);
    HeightOfBoth(m, n, k);
    TreeOfTrees(sha, blocks, k, outer, roots, BLOCK_PADDING);
  }

  lemma {:induction false} PieceIsSpan(sha: Bytes -> Bytes, content: Bytes, size: nat, j: nat)
    ensures Hashes(sha, Piece(content, size * BLOCK_LEN, j), BLOCK_LEN)
         == Span(Hashes(sha, content, BLOCK_LEN), j * size, size)
  {
    TimesAssociative(j, size, BLOCK_LEN);
    HashesOfPiece(sha, content, j * size, j * (size * BLOCK_LEN), size, size * BLOCK_LEN, BLOCK_LEN);
  }

  lemma {:induction false} PieceAndBlockCounts(bytes: nat, size: nat, blockLen: nat)
    requires size > 0 && blockLen > 0 && bytes > size * blockLen
    ensures var m, n := ChunkCount(bytes, size * blockLen), ChunkCount(bytes, blockLen);
      m >= 2 && (m - 1) * size < n <= m * size
  {
    var len := size * blockLen;
    var m, n := ChunkCount(bytes, len), ChunkCount(bytes, blockLen);
    CountBounds(bytes, len, m);
    CountBounds(bytes, blockLen, n);
    TimesAssociative(m, size, blockLen);
    TimesAssociative(m - 1, size, blockLen);
    AtMost(bytes, n, m * size, blockLen);
    MoreThan(bytes, (m - 1) * size, n, blockLen);
    MoreThan(bytes, 1, m, len);
  }

  lemma {:induction false} TimesAssociative(a: nat, b: nat, c: nat)
    ensures a * (b * c) == (a * b) * c
  {}

  lemma {:induction false} AtMost(bytes: nat, n: nat, x: nat, len: nat)
    requires n > 0 && (n - 1) * len < bytes <= x * len
    ensures n <= x
  {
    if x < n {
      TimesMonotone(x, n - 1, len);
    }
  }

  lemma {:induction false} MoreThan(bytes: nat, x: nat, n: nat, len: nat)
    requires x * len < bytes <= n * len
    ensures x < n
  {
    if n <= x {
      TimesMonotone(n, x, len);
    }
  }

  lemma {:induction false} CountBounds(bytes: nat, len: nat, m: nat)
    requires len > 0 && bytes > 0 && m == ChunkCount(bytes, len)
    ensures m > 0 && (m - 1) * len < bytes <= m * len
  {
    var t := bytes + len - 1;
    assert t == m * len + t % len;
    TimesNext(m - 1, len);
  }

  lemma {:induction false} HeightOfBoth(m: nat, n: nat, k: nat)
    requires m >= 2 && (m - 1) * Pow2(k) < n <= m * Pow2(k)
    ensures Height(n) == Height(m) + k
  {
    var h := Height(m);
    Pow2Sum(h, k);
    TimesMonotone(m, Pow2(h), Pow2(k));
    Pow2Sum(h - 1, k);
    TimesMonotone(Pow2(h - 1), m - 1, Pow2(k));
    HeightIs(n, h + k);
  }

  // ----- all files

  datatype Format = V1 | V2 | Hybrid

  /** A file of the v1 list, or padding. */
  datatype Listed = Listed(length: nat, pad: bool)

  /** A file of the v2 tree. */
  datatype TreeFile = TreeFile(length: nat, root: Bytes)

  datatype Info = Info(pieces: seq<Bytes>, files: seq<Listed>, tree: seq<TreeFile>, layers: map<Bytes, Bytes>)

  /** What is missing to the end of the piece that ends a stream of `n` bytes. */
  function PadLength(n: nat, len: nat): nat
    requires len > 0
  {
    if n % len == 0 then 0 else len - n % len
  }

  /** The bytes that the v1 pieces are cut from. With `pad`, zeros follow every file up to the end of its last piece. */
  function Stream(files: seq<Bytes>, len: nat, pad: bool): Bytes
    requires len > 0
  {
    if files == [] then [] else
    Streamed(Stream(files[..|files| - 1], len, pad), files[|files| - 1], len, pad)
  }

  function Streamed(before: Bytes, file: Bytes, len: nat, pad: bool): Bytes
    requires len > 0
  {
    var data := before + file;
    if pad then data + Zeros(PadLength(|data|, len)) else data
  }

  /** What is listed for a file that ends at `end` bytes of the stream. */
  function Listing(file: Bytes, end: nat, len: nat, pad: bool): seq<Listed>
    requires len > 0
  {
    [Listed(|file|, false)] + if pad && PadLength(end, len) > 0 then [Listed(PadLength(end, len), true)] else []
  }

  function ListedFiles(files: seq<Bytes>, len: nat, pad: bool): seq<Listed>
    requires len > 0
  {
    if files == [] then [] else
    var init, last := files[..|files| - 1], files[|files| - 1];
    ListedFiles(init, len, pad) + Listing(last, |Stream(init, len, pad)| + |last|, len, pad)
  }

  /** The piece layers of the files that are more than one piece. */
  function Layers(sha: Bytes -> Bytes, files: seq<Bytes>, len: nat, k: nat): map<Bytes, Bytes>
    requires len > 0
  {
    if files == [] then map[] else
    var last := files[|files| - 1];
    var roots, before := PieceRoots(sha, last, len, k), Layers(sha, files[..|files| - 1], len, k);
    if |roots| > 1 then before[PiecesRoot(sha, last, len, k) := Join(roots)] else before
  }

  /** The blocks of a buffer and the root over them, in place of the list of their hashes. */
  method BufferRoot(sha: Bytes -> Bytes, buffer: Bytes, size: nat, len: nat, blocksPerPiece: nat, ghost content: Bytes,
                    ghost k: nat, ghost j: nat)
    returns (root: Bytes)
    requires len > 0 && blocksPerPiece == Pow2(k) && size == |content| && buffer == Piece(content, len, j)
    ensures root == PieceRoot(sha, content, len, k, j)
  {
    BlocksAreHashes(sha, buffer, BLOCK_LEN);
    var blockHashes := new HashList(BufferBlocks(sha, buffer, BLOCK_LEN));
    var numLeafs := blocksPerPiece;
    ghost var height := k;
    if size <= len {
      // only pad to the next power of 2
      numLeafs := NextPow2(|blockHashes.items|);
      height := Height(|blockHashes.items|);
    }
    root := MerkleRoot(sha, blockHashes, numLeafs, BLOCK_PADDING, true, height);
  }

  /** The piece that was read next goes through the v1 hash. */
  method FeedNext(sha1: Bytes -> Bytes, len: nat, buffer: Bytes, pieces: seq<Bytes>, sh: Bytes, done: nat,
                  ghost data: Bytes, ghost content: Bytes, ghost pos: nat, ghost next: nat)
    returns (pieces': seq<Bytes>, sh': Bytes, done': nat)
    requires len > 0 && |buffer| <= len && next == pos + |buffer| <= |content| && buffer == content[pos..next]
    requires Continues(sha1, len, data + content[..pos], pieces, sh) && done == |sh|
    ensures Continues(sha1, len, data + content[..next], pieces', sh') && done' == |sh'|
  {
    ReadOn(data, content, pos, |buffer|);
    pieces', sh', done' := Feed(sha1, len, buffer, pieces, sh, done, data + content[..pos]);
  }

  /** It is hashed block by block for v2. */
  method RootNext(sha256: Bytes -> Bytes, buffer: Bytes, size: nat, len: nat, blocksPerPiece: nat, roots: seq<Bytes>,
                  ghost content: Bytes, ghost k: nat, ghost j: nat)
    returns (roots': seq<Bytes>)
    requires len > 0 && blocksPerPiece == Pow2(k) && size == |content| && buffer == Piece(content, len, j)
    requires j < ChunkCount(size, len) && roots == PieceRoots(sha256, content, len, k)[..j]
    ensures roots' == PieceRoots(sha256, content, len, k)[..j + 1]
  {
    var root := BufferRoot(sha256, buffer, size, len, blocksPerPiece, content, k, j);
    OneMore(PieceRoots(sha256, content, len, k), j);
    roots' := roots + [root];
  }

  /** One file goes through both hashes at once. */
  method HashFile(sha1: Bytes -> Bytes, sha256: Bytes -> Bytes, content: Bytes, len: nat, format: Format,
                  blocksPerPiece: nat, pieces: seq<Bytes>, sh: Bytes, done: nat, ghost data: Bytes, ghost k: nat)
    returns (pieces': seq<Bytes>, sh': Bytes, done': nat, roots: seq<Bytes>)
    requires len > 0 && blocksPerPiece == Pow2(k)
    requires format != V2 ==> Continues(sha1, len, data, pieces, sh) && done == |sh|
    ensures format != V2 ==> Continues(sha1, len, data + content, pieces', sh') && done' == |sh'|
    ensures format == V2 ==> pieces' == pieces && sh' == sh && done' == done
    ensures format != V1 ==> roots == PieceRoots(sha256, content, len, k)
  {
    pieces', sh', done', roots := pieces, sh, done, [];
    var pos, size := 0, |content|;
    ghost var j := 0;
    assert data + content[..0] == data;
    while pos < size
      invariant pos == (if j * len < size then j * len else size) && j <= ChunkCount(size, len)
      invariant format != V2 ==> Continues(sha1, len, data + content[..pos], pieces', sh') && done' == |sh'|
      invariant format == V2 ==> pieces' == pieces && sh' == sh && done' == done
      invariant format != V1 ==> roots == PieceRoots(sha256, content, len, k)[..j]
      decreases size - pos
    {
      var toRead := if size - pos < len then size - pos else len;
      var next := pos + toRead;
      var buffer := content[pos..next];
      NextPiece(content, len, j, pos, toRead);
      if format != V2 {
        pieces', sh', done' := FeedNext(sha1, len, buffer, pieces', sh', done', data, content, pos, next);
      }
      if format != V1 {
        roots := RootNext(sha256, buffer, size, len, blocksPerPiece, roots, content, k, j);
      }
      pos := next;
      j := j + 1;
    }
    AllPiecesRead(size, len, j);
    assert content[..pos] == content;
  }

  lemma {:induction false} ReadOn(data: Bytes, content: Bytes, pos: nat, n: nat)
    requires pos + n <= |content|
    ensures (data + content[..pos]) + content[pos..pos + n] == data + content[..pos + n]
  {
    SliceExtends(content, pos, pos + n);
  }

  lemma {:induction false} NextPiece(content: Bytes, len: nat, j: nat, pos: nat, toRead: nat)
    requires len > 0 && pos < |content| && pos == j * len
    requires toRead == if |content| - pos < len then |content| - pos else len
    ensures content[pos..pos + toRead] == Piece(content, len, j) && j < ChunkCount(|content|, len)
    ensures pos + toRead == if (j + 1) * len < |content| then (j + 1) * len else |content|
  {
    TimesNext(j, len);
    CountBounds(|content|, len, ChunkCount(|content|, len));
    MoreThan(|content|, j, ChunkCount(|content|, len), len);
  }

  lemma {:induction false} AllPiecesRead(size: nat, len: nat, j: nat)
    requires len > 0 && j <= ChunkCount(size, len) && size <= j * len
    ensures j == ChunkCount(size, len)
  {
    if size == 0 {
      QuotientIs(len - 1, len, 0, len - 1);
    } else {
      CountBounds(size, len, ChunkCount(size, len));
      AtMost(size, ChunkCount(size, len), j, len);
    }
  }

  /** Whether a piece length will do for v2. */
  predicate GoodPieceLength(len: nat) {
    NextPow2(len) == len && len >= BLOCK_LEN
  }

  /** How many blocks make up a piece. */
  lemma {:induction false} BlocksPerPiece(len: nat) returns (k: nat)
    requires GoodPieceLength(len)
    ensures len / BLOCK_LEN == Pow2(k) && len == Pow2(k) * BLOCK_LEN
  {
    var h := Height(len);
    assert Pow2(14) == BLOCK_LEN by {
      assert Pow2(7) == 128;
      Pow2Sum(7, 7);
    }
    assert h >= 14 by {
      if h < 14 {
        Pow2Monotone(h, 13);
      }
    }
    k := h - 14;
    Pow2Sum(k, 14);
    QuotientIs(len, BLOCK_LEN, Pow2(k), 0);
  }

  /** Lists a file that was hashed, and in a hybrid torrent the padding file that follows it. */
  method EndFile(sha: Bytes -> Bytes, len: nat, format: Format, isMultiFile: bool, file: Bytes, pieces: seq<Bytes>,
                 sh: Bytes, done: nat, listed: seq<Listed>, ghost before: Bytes, ghost after: Bytes, ghost end: nat,
                 ghost entries: seq<Listed>, ghost pad: bool)
    returns (pieces': seq<Bytes>, sh': Bytes, done': nat, listed': seq<Listed>)
    requires pad == (format == Hybrid && isMultiFile)
    requires len > 0 && end == |before| + |file| && entries == Listing(file, end, len, pad)
    requires after == Streamed(before, file, len, pad)
    requires format != V2 ==> Continues(sha, len, before + file, pieces, sh) && done == |sh|
    ensures format != V2 ==> Continues(sha, len, after, pieces', sh') && done' == |sh'|
    ensures format == V2 ==> pieces' == pieces && done' == done
    ensures listed' == listed + entries
  {
    pieces', sh', done' := pieces, sh, done;
    listed' := listed + [Listed(|file|, false)];
    if format == Hybrid && isMultiFile {
      if done > 0 {
        var padding := len - done;
        PieceIsFull(sha, len, before + file, pieces, sh, Zeros(padding));
        listed' := listed' + [Listed(padding, true)];
        pieces' := pieces' + [sha(sh + Zeros(padding))];
        done' := 0;
        sh' := [];
      } else {
        assert (before + file) + Zeros(0) == before + file;
      }
    }
  }

  /** The part of the loop that builds the tree of a file and its layer. */
  method AddTree(sha: Bytes -> Bytes, files: seq<Bytes>, i: nat, roots: seq<Bytes>, len: nat, piecePadding: Bytes,
                 tree: seq<TreeFile>, layers: map<Bytes, Bytes>, ghost k: nat)
    returns (tree': seq<TreeFile>, layers': map<Bytes, Bytes>)
    requires len > 0 && i < |files| && TreeOk(sha, files[..i], len, k, tree, layers)
    requires roots == PieceRoots(sha, files[i], len, k) && piecePadding == BlocksRoot(sha, [], k)
    ensures TreeOk(sha, files[..i + 1], len, k, tree', layers')
  {
    var pieces := new HashList(roots);
    var root := MerkleRoot(sha, pieces, NextPow2(|roots|), piecePadding, false, Height(|roots|));
    tree' := tree + [TreeFile(|files[i]|, root)];
    layers' := if |pieces.items| > 1 then layers[root := Join(pieces.items)] else layers;
    assert root == PiecesRoot(sha, files[i], len, k);
    NextTree(sha, files, i, len, k, tree, layers);
  }

  lemma {:induction false} NextTree(sha: Bytes -> Bytes, files: seq<Bytes>, i: nat, len: nat, k: nat,
                                    tree: seq<TreeFile>, layers: map<Bytes, Bytes>)
    requires len > 0 && i < |files| && TreeOk(sha, files[..i], len, k, tree, layers)
    ensures var root, roots := PiecesRoot(sha, files[i], len, k), PieceRoots(sha, files[i], len, k);
      TreeOk(sha, files[..i + 1], len, k, tree + [TreeFile(|files[i]|, root)],
             if |roots| > 1 then layers[root := Join(roots)] else layers)
  {
    OneMore(files, i);
    InitOfAppend(files[..i], files[i]);
  }

  /** What the loop has after some files. */
  datatype State = State(pieces: seq<Bytes>, sh: Bytes, done: nat, listed: seq<Listed>, tree: seq<TreeFile>,
                         layers: map<Bytes, Bytes>)

  ghost predicate StateOk(s: State, sha1: Bytes -> Bytes, sha256: Bytes -> Bytes, files: seq<Bytes>, len: nat,
                          format: Format, pad: bool, k: nat)
    requires len > 0
  {
    && (format != V2 ==> Continues(sha1, len, Stream(files, len, pad), s.pieces, s.sh) && s.done == |s.sh|)
    && (format == V2 ==> s.pieces == [] && s.done == 0)
    && s.listed == ListedFiles(files, len, pad)
    && (format == V1 ==> s.tree == [] && s.layers == map[])
    && (format != V1 ==> TreeOk(sha256, files, len, k, s.tree, s.layers))
  }

  /** The turn of the loop for file `i`. */
  method AddFile(s: State, sha1: Bytes -> Bytes, sha256: Bytes -> Bytes, files: seq<Bytes>, i: nat, len: nat,
                 format: Format, isMultiFile: bool, blocksPerPiece: nat, piecePadding: Bytes, ghost k: nat,
                 ghost pad: bool)
    returns (s': State)
    requires pad == (format == Hybrid && isMultiFile)
    requires len > 0 && i < |files| && blocksPerPiece == Pow2(k) && (format != V1 ==>
      piecePadding == BlocksRoot(sha256, [], k))
    requires StateOk(s, sha1, sha256, files[..i], len, format, pad, k)
    ensures StateOk(s', sha1, sha256, files[..i + 1], len, format, pad, k)
  {
    var pieces, sh, done, listed, roots := HashAndList(s, sha1, sha256, files, i, len, format, isMultiFile,
      blocksPerPiece, k, pad);
    var tree, layers := s.tree, s.layers;
    if format != V1 {
      tree, layers := AddTree(sha256, files, i, roots, len, piecePadding, tree, layers, k);
    }
    s' := State(pieces, sh, done, listed, tree, layers);
  }

  /** The part of the loop that hashes a file and lists it. */
  method HashAndList(s: State, sha1: Bytes -> Bytes, sha256: Bytes -> Bytes, files: seq<Bytes>, i: nat, len: nat,
                     format: Format, isMultiFile: bool, blocksPerPiece: nat, ghost k: nat, ghost pad: bool)
    returns (pieces: seq<Bytes>, sh: Bytes, done: nat, listed: seq<Listed>, roots: seq<Bytes>)
    requires pad == (format == Hybrid && isMultiFile)
    requires len > 0 && i < |files| && blocksPerPiece == Pow2(k)
    requires StateOk(s, sha1, sha256, files[..i], len, format, pad, k)
    ensures format != V2 ==> Continues(sha1, len, Stream(files[..i + 1], len, pad), pieces, sh) && done == |sh|
    ensures format == V2 ==> pieces == [] && done == 0
    ensures listed == ListedFiles(files[..i + 1], len, pad)
    ensures format != V1 ==> roots == PieceRoots(sha256, files[i], len, k)
  {
    ghost var stream, after := Stream(files[..i], len, pad), Stream(files[..i + 1], len, pad);
    ghost var end := |stream| + |files[i]|;
    ghost var entries := Listing(files[i], end, len, pad);
    assert after == Streamed(stream, files[i], len, pad) by {
      NextStream(files, i, len, pad);
    }
    assert ListedFiles(files[..i + 1], len, pad) == s.listed + entries by {
      NextListed(files, i, len, pad, end);
    }
    pieces, sh, done, roots := HashFile(sha1, sha256, files[i], len, format, blocksPerPiece, s.pieces, s.sh, s.done,
      stream, k);
    pieces, sh, done, listed :=
      EndFile(sha1, len, format, isMultiFile, files[i], pieces, sh, done, s.listed, stream, after, end, entries, pad);
  }

  /** `makeinfo`, as far as it is about hashes. */
  method MakeInfo(sha1: Bytes -> Bytes, sha256: Bytes -> Bytes, files: seq<Bytes>, len: nat, format: Format)
    returns (info: Option<Info>)
    requires len > 0
    ensures info.None? <==> format != V1 && !GoodPieceLength(len)
    ensures info.Some? && format != V2 ==>
              info.value.pieces == Hashes(sha1, Stream(files, len, format == Hybrid && |files| > 1), len)
    ensures info.Some? && format == V2 ==> info.value.pieces == []
    ensures info.Some? ==> info.value.files == ListedFiles(files, len, format == Hybrid && |files| > 1)
    ensures info.Some? && format == V1 ==> info.value.tree == [] && info.value.layers == map[]
    ensures info.Some? && format != V1 ==>
              exists k :: len == Pow2(k) * BLOCK_LEN
                && TreeOk(sha256, files, len, k, info.value.tree, info.value.layers)
    ensures info.Some? && format != V1 ==> |info.value.tree| == |files| && forall i :: 0 <= i < |files| ==>
              && info.value.tree[i].length == |files[i]|
              && (files[i] != [] ==> info.value.tree[i].root == FileRoot(sha256, files[i]))
    ensures info.Some? && format == Hybrid && |files| > 1 ==> |info.value.pieces| == PieceSum(files, len)
  {
    var blocksPerPiece := 1;
    var piecePadding: Bytes := [];
    ghost var k := 0;
    if format != V1 {
      if NextPow2(len) != len || len < BLOCK_LEN {
        return None;
      }
      k := BlocksPerPiece(len);
      blocksPerPiece := len / BLOCK_LEN;
      var none := new HashList([]);
      piecePadding := MerkleRoot(sha256, none, blocksPerPiece, BLOCK_PADDING, true, k);
    }
    var isMultiFile := |files| > 1;
    var s := State([], [], 0, [], [], map[]);
    ghost var pad := format == Hybrid && isMultiFile;
    NothingYet(sha1, len);
    for i := 0 to |files|
      invariant StateOk(s, sha1, sha256, files[..i], len, format, pad, k)
    {
      s := AddFile(s, sha1, sha256, files, i, len, format, isMultiFile, blocksPerPiece, piecePadding, k, pad);
    }
    assert files[..|files|] == files;
    if format != V2 {
      LastPiece(sha1, len, Stream(files, len, pad), s.pieces, s.sh);
    }
    var pieces := s.pieces;
    if s.done > 0 {
      pieces := pieces + [sha1(s.sh)];
    }
    info := Some(Info(pieces, s.listed, s.tree, s.layers));
    if format != V1 {
      AllTreeRoots(sha256, files, len, k, s.tree, s.layers);
    }
    if pad {
      PieceCountsAgree(sha1, files, len);
    }
  }

  lemma {:induction false} AllTreeRoots(sha: Bytes -> Bytes, files: seq<Bytes>, len: nat, k: nat, tree: seq<TreeFile>,
                                        layers: map<Bytes, Bytes>)
    requires len == Pow2(k) * BLOCK_LEN && TreeOk(sha, files, len, k, tree, layers)
    ensures |tree| == |files| && forall i :: 0 <= i < |files| ==>
              tree[i].length == |files[i]| && (files[i] != [] ==> tree[i].root == FileRoot(sha, files[i]))
  {
    forall i | 0 <= i < |files|
      ensures tree[i].length == |files[i]| && (files[i] != [] ==> tree[i].root == FileRoot(sha, files[i]))
    {
      TreeRoots(sha, files, len, k, tree, layers, i);
    }
  }

  lemma {:induction false} NextStream(files: seq<Bytes>, i: nat, len: nat, pad: bool)
    requires i < |files| && len > 0
    ensures Stream(files[..i + 1], len, pad) == Streamed(Stream(files[..i], len, pad), files[i], len, pad)
  {
    OneMore(files, i);
    InitOfAppend(files[..i], files[i]);
  }

  lemma {:induction false} NextListed(files: seq<Bytes>, i: nat, len: nat, pad: bool, end: nat)
    requires i < |files| && len > 0 && end == |Stream(files[..i], len, pad)| + |files[i]|
    ensures ListedFiles(files[..i + 1], len, pad)
         == ListedFiles(files[..i], len, pad) + Listing(files[i], end, len, pad)
  {
    OneMore(files, i);
    InitOfAppend(files[..i], files[i]);
  }

  /** The tree and the layers of the files. */
  ghost predicate TreeOk(sha: Bytes -> Bytes, files: seq<Bytes>, len: nat, k: nat, tree: seq<TreeFile>,
                         layers: map<Bytes, Bytes>)
    requires len > 0
  {
    && |tree| == |files| && layers == Layers(sha, files, len, k)
    && forall i :: 0 <= i < |files| ==> tree[i] == TreeFile(|files[i]|, PiecesRoot(sha, files[i], len, k))
  }

  // ----- what the lists and the trees say

  /** The v2 tree holds, for every file that is not empty, the root of one tree over all of its blocks. */
  lemma {:induction false} TreeRoots(sha: Bytes -> Bytes, files: seq<Bytes>, len: nat, k: nat, tree: seq<TreeFile>,
                                     layers: map<Bytes, Bytes>, i: nat)
    requires len == Pow2(k) * BLOCK_LEN && TreeOk(sha, files, len, k, tree, layers) && i < |files|
    ensures tree[i].length == |files[i]|
    ensures files[i] != [] ==> tree[i].root == FileRoot(sha, files[i])
    ensures files[i] == [] ==> tree[i].root == BlocksRoot(sha, [], k)
  {
    if files[i] != [] {
      TwoLevelsAreOne(sha, files[i], len, k);
    } else {
      QuotientIs(len - 1, len, 0, len - 1);
      assert PieceRoots(sha, [], len, k) == [];
    }
  }

  function TotalLength(listed: seq<Listed>): nat {
    if listed == [] then 0 else TotalLength(listed[..|listed| - 1]) + listed[|listed| - 1].length
  }

  lemma {:induction false} TotalConcat(a: seq<Listed>, b: seq<Listed>)
    ensures TotalLength(a + b) == TotalLength(a) + TotalLength(b)
  {
    if b == [] {
      assert a + b == a;
    } else {
      TotalConcat(a, b[..|b| - 1]);
      InitOfConcat(a, b);
    }
  }

  lemma {:induction false} ListingLength(file: Bytes, end: nat, len: nat, pad: bool)
    requires len > 0
    ensures TotalLength(Listing(file, end, len, pad)) == |file| + if pad then PadLength(end, len) else 0
  {
    var first := [Listed(|file|, false)];
    assert first[..0] == [];
    assert TotalLength(first) == |file|;
    if pad && PadLength(end, len) > 0 {
      InitOfAppend(first, Listed(PadLength(end, len), true));
    } else {
      assert first + [] == first;
    }
  }

  /** The files that are listed, padding included, are as long as what was hashed. */
  lemma {:induction false} ListedLengths(files: seq<Bytes>, len: nat, pad: bool)
    requires len > 0
    ensures TotalLength(ListedFiles(files, len, pad)) == |Stream(files, len, pad)|
  {
    if files != [] {
      var init, last := files[..|files| - 1], files[|files| - 1];
      var end := |Stream(init, len, pad)| + |last|;
      ListedLengths(init, len, pad);
      TotalConcat(ListedFiles(init, len, pad), Listing(last, end, len, pad));
      ListingLength(last, end, len, pad);
    }
  }

  lemma {:induction false} PadFills(n: nat, len: nat)
    requires len > 0
    ensures (n + PadLength(n, len)) % len == 0
    ensures n % len == 0 || (n + PadLength(n, len)) / len == n / len + 1
  {
    Division(n, len);
    if n % len != 0 {
      FillsTo(n, len, n / len, n % len);
    }
  }

  lemma {:induction false} FillsTo(n: nat, len: nat, q: nat, r: nat)
    requires n == q * len + r && 0 < r < len
    ensures (n + (len - r)) % len == 0 && (n + (len - r)) / len == q + 1
  {
    TimesNext(q, len);
    QuotientIs(n + (len - r), len, q + 1, 0);
  }

  /** In a hybrid torrent of several files every file starts at a piece boundary. */
  lemma {:induction false} FilesAreAligned(files: seq<Bytes>, len: nat)
    requires len > 0
    ensures |Stream(files, len, true)| % len == 0
  {
    if files == [] {
      QuotientIs(0, len, 0, 0);
    } else {
      var data := Stream(files[..|files| - 1], len, true) + files[|files| - 1];
      PadFills(|data|, len);
    }
  }

  function PieceSum(files: seq<Bytes>, len: nat): nat
    requires len > 0
  {
    if files == [] then 0 else PieceSum(files[..|files| - 1], len) + ChunkCount(|files[|files| - 1]|, len)
  }

  lemma {:induction false} CountOfMultiple(n: nat, len: nat)
    requires len > 0 && n % len == 0
    ensures ChunkCount(n, len) == n / len
  {
    Division(n, len);
    QuotientIs(n + len - 1, len, n / len, len - 1);
  }

  lemma {:induction false} CountByQuotient(n: nat, len: nat)
    requires len > 0
    ensures ChunkCount(n, len) == n / len + if n % len == 0 then 0 else 1
  {
    if n % len == 0 {
      CountOfMultiple(n, len);
    } else {
      Division(n, len);
      CountOf(n, len, n / len, n % len);
    }
  }

  lemma {:induction false} CountOf(n: nat, len: nat, q: nat, r: nat)
    requires n == q * len + r && 0 < r < len
    ensures ChunkCount(n, len) == q + 1
  {
    TimesNext(q, len);
    QuotientIs(n + len - 1, len, q + 1, r - 1);
  }

  /** And there are as many v1 pieces as there are v2 pieces in all files. */
  lemma {:induction false} PieceCountsAgree(sha1: Bytes -> Bytes, files: seq<Bytes>, len: nat)
    requires len > 0
    ensures |Hashes(sha1, Stream(files, len, true), len)| == PieceSum(files, len)
  {
    HashCount(sha1, Stream(files, len, true), len);
    FilesAreAligned(files, len);
    CountOfMultiple(|Stream(files, len, true)|, len);
    StreamPieces(files, len);
  }

  lemma {:induction false} StreamPieces(files: seq<Bytes>, len: nat)
    requires len > 0
    ensures |Stream(files, len, true)| / len == PieceSum(files, len)
  {
    if files == [] {
      QuotientIs(0, len, 0, 0);
    } else {
      StreamPieces(files[..|files| - 1], len);
      LastFilePieces(files, len);
    }
  }

  lemma {:induction false} LastFilePieces(files: seq<Bytes>, len: nat)
    requires len > 0 && files != []
    ensures |Stream(files, len, true)| / len
         == |Stream(files[..|files| - 1], len, true)| / len + ChunkCount(|files[|files| - 1]|, len)
  {
    FilesAreAligned(files[..|files| - 1], len);
    AlignedEnd(|Stream(files[..|files| - 1], len, true)|, |files[|files| - 1]|, len);
  }

  lemma {:induction false} AlignedEnd(before: nat, size: nat, len: nat)
    requires len > 0 && before % len == 0
    ensures (before + size + PadLength(before + size, len)) / len == before / len + ChunkCount(size, len)
  {
    var p, q, r := before / len, size / len, size % len;
    Division(before, len);
    Division(size, len);
    TimesSum(p, q, len);
    QuotientIs(before + size, len, p + q, r);
    PadFills(before + size, len);
    CountByQuotient(size, len);
  }

  /** In every list of roots there is one for each piece. */
  lemma {:induction false} OneRootPerPiece(sha: Bytes -> Bytes, content: Bytes, len: nat, k: nat)
    requires len > 0
    ensures |PieceRoots(sha, content, len, k)| == |Hashes(sha, content, len)| == ChunkCount(|content|, len)
  {
    HashCount(sha, content, len);
  }
}
