/** Deluge's second way to v1 pieces, `TorrentMetadata.save`: it fills a buffer until that is a piece. */
module MakeTorrent {
  import opened Bytes
  import opened Merkle
  import opened TorrentHashing

  /** The loop over the files of a directory, without padding files. */
  method SaveDirectory(sha: Bytes -> Bytes, files: seq<Bytes>, pieceSize: nat) returns (pieces: seq<Bytes>)
    requires pieceSize > 0
    ensures pieces == Hashes(sha, Stream(files, pieceSize, false), pieceSize)
  {
    pieces := [];
    var buf := [];
    NothingYet(sha, pieceSize);
    for i := 0 to |files|
      invariant Continues(sha, pieceSize, Stream(files[..i], pieceSize, false), pieces, buf)
    {
      NextStream(files, i, pieceSize, false);
      pieces, buf := ReadFile(sha, files[i], pieceSize, pieces, buf, Stream(files[..i], pieceSize, false));
    }
    assert files[..|files|] == files;
    LastPiece(sha, pieceSize, Stream(files, pieceSize, false), pieces, buf);
    if buf != [] {
      pieces := pieces + [sha(buf)];
    }
  }

  /** What `read(n)` returns at `pos`. */
  function ReadAt(file: Bytes, pos: nat, n: nat): Bytes
    requires pos <= |file|
  {
    if pos + n <= |file| then file[pos..pos + n] else file[pos..]
  }

  /** One file: reads what the buffer lacks, until there is nothing more or the buffer stays short. */
  method ReadFile(sha: Bytes -> Bytes, file: Bytes, pieceSize: nat, pieces: seq<Bytes>, buf: Bytes, ghost data: Bytes)
    returns (pieces': seq<Bytes>, buf': Bytes)
    requires pieceSize > 0 && Continues(sha, pieceSize, data, pieces, buf)
    ensures Continues(sha, pieceSize, data + file, pieces', buf')
  {
    pieces', buf' := pieces, buf;
    var r := ReadAt(file, 0, pieceSize - |buf'|);
    var pos := |r|;
    ghost var before := 0;
    assert data + file[..0] == data;
    while r != []
      invariant before + |r| == pos <= |file| && r == file[before..pos]
      invariant Continues(sha, pieceSize, data + file[..before], pieces', buf')
      invariant |buf'| + |r| <= pieceSize && (|buf'| + |r| < pieceSize ==> pos == |file|)
      decreases |file| - before
    {
      ReadOn(data, file, before, |r|);
      if |buf' + r| == pieceSize {
        PieceIsFull(sha, pieceSize, data + file[..before], pieces', buf', r);
        buf' := buf' + r;
        pieces' := pieces' + [sha(buf')];
        buf' := [];
      } else {
        GoesOn(sha, pieceSize, data + file[..before], pieces', buf', r);
        buf' := buf' + r;
        before := pos;
        break;
      }
      before := pos;
      r := ReadAt(file, pos, pieceSize - |buf'|);
      pos := pos + |r|;
    }
    assert file[..before] == file;
  }

  /** A single file. */
  method SaveFile(sha: Bytes -> Bytes, file: Bytes, pieceSize: nat) returns (pieces: seq<Bytes>)
    requires pieceSize > 0
    ensures pieces == Hashes(sha, file, pieceSize)
  {
    pieces := [];
    var r := ReadAt(file, 0, pieceSize);
    var pos := |r|;
    ghost var before := 0;
    assert file[0..] == file;
    while r != []
      invariant before + |r| == pos <= |file| && r == ReadAt(file, before, pieceSize)
      invariant Hashes(sha, file, pieceSize) == pieces + Hashes(sha, file[before..], pieceSize)
      decreases |file| - before
    {
      NextChunk(sha, file[before..], pieceSize, r, file[pos..]);
      ConcatAssociative(pieces, [sha(r)], Hashes(sha, file[pos..], pieceSize));
      pieces := pieces + [sha(r)];
      before := pos;
      r := ReadAt(file, pos, pieceSize);
      pos := pos + |r|;
    }
    assert file[before..] == [];
  }

  lemma {:induction false} NextChunk(sha: Bytes -> Bytes, data: Bytes, len: nat, r: Bytes, rest: Bytes)
    requires len > 0 && data == r + rest && r != [] && |r| <= len && (|r| < len ==> rest == [])
    ensures Hashes(sha, data, len) == [sha(r)] + Hashes(sha, rest, len)
  {
    if |r| == len {
      FullChunk(sha, len, r, rest);
    } else {
      assert data == r;
    }
  }

  /** Both ways hash a single file alike. */
  lemma {:induction false} OneFileStream(file: Bytes, len: nat)
    requires len > 0
    ensures Stream([file], len, false) == file
  {
    assert [file][..0] == [] && [] + file == file;
  }

  /** `save` and `makeinfo` come to the same v1 pieces for the same files. */
  method BothWays(sha1: Bytes -> Bytes, sha256: Bytes -> Bytes, files: seq<Bytes>, len: nat)
    returns (info: Option<Info>, saved: seq<Bytes>)
    requires len > 0
    ensures info.Some? && info.value.pieces == saved
    ensures |files| == 1 ==> saved == Hashes(sha1, files[0], len)
  {
    info := MakeInfo(sha1, sha256, files, len, V1);
    if |files| == 1 {
      assert files == [files[0]];
      OneFileStream(files[0], len);
      saved := SaveFile(sha1, files[0], len);
    } else {
      saved := SaveDirectory(sha1, files, len);
    }
  }

  const MIN_PIECE: nat := 16384

  const MAX_PIECE: nat := 8388608

  /**
   The piece size that is chosen for a number of bytes: the smallest power of two that makes at most 1024 whole pieces.
   */
  method PieceSize(dataSize: nat) returns (pieceSize: nat, ghost k: nat)
    ensures k <= 9 && pieceSize == 16384 * Pow2(k) <= 8388608
    ensures dataSize / pieceSize <= 1024 || pieceSize == 8388608
    ensures forall j :: 0 <= j < k ==> dataSize / (16384 * Pow2(j)) > 1024
  {
    pieceSize, k := MIN_PIECE, 0;
    while dataSize / pieceSize > 1024 && pieceSize < MAX_PIECE
      invariant k <= 9 && pieceSize == MIN_PIECE * Pow2(k) <= MAX_PIECE
      invariant forall j :: 0 <= j < k ==> dataSize / (MIN_PIECE * Pow2(j)) > 1024
      decreases 9 - k
    {
      NextSize(k);
      pieceSize := pieceSize * 2;
      k := k + 1;
    }
  }

  lemma {:induction false} NextSize(k: nat)
    requires k <= 9 && MIN_PIECE * Pow2(k) < MAX_PIECE
    ensures k < 9 && MIN_PIECE * Pow2(k + 1) == MIN_PIECE * Pow2(k) * 2 <= MAX_PIECE
  {
    assert Pow2(5) == 32;
    assert Pow2(9) == 512;
    Pow2Monotone(k, 9);
    if k < 9 {
      Pow2Monotone(k + 1, 9);
    }
  }
}
