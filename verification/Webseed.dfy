/** Splitting a piece into per-file HTTP ranges (src/webseed.rs). */
module Webseed {
  import opened Bytes
  import opened Layouts
  import opened Storage

  datatype FileChunk = FileChunk(file: nat, fileOffset: nat, len: nat)

  ghost function TotalLen(chunks: seq<FileChunk>): nat {
    if chunks == [] then 0 else TotalLen(chunks[..|chunks| - 1]) + chunks[|chunks| - 1].len
  }

  /** Each chunk is a non-empty range of its file, and together they are consecutive from `off`. */
  ghost predicate Consecutive(files: seq<FileInfo>, off: nat, chunks: seq<FileChunk>) {
    forall k :: 0 <= k < |chunks| ==> var c := chunks[k];
      && c.file < |files| && 0 < c.len && c.fileOffset + c.len <= files[c.file].length
      && files[c.file].offset + c.fileOffset == off + TotalLen(chunks[..k])
  }

  method SplitPieceIntoFileChunks(files: seq<FileInfo>, pieceOffset: nat, pieceSize: nat)
    returns (r: Result<seq<FileChunk>>)
    requires Contiguous(files)
    ensures r.Success? <==> pieceSize > 0 && pieceOffset < TotalSize(files)
    ensures r.Success? ==> Consecutive(files, pieceOffset, r.value)
    ensures r.Success? ==> TotalLen(r.value) == Min(pieceSize, TotalSize(files) - pieceOffset)
  {
    hide Consecutive, TotalLen, Contiguous;
    var out: seq<FileChunk> := [];
    NoChunks(files, pieceOffset);
    NothingBefore(files, pieceOffset, pieceSize);
    var remaining, abs := pieceSize, pieceOffset;
    ghost var done := 0;
    for i := 0 to |files|
      invariant abs == pieceOffset + done && remaining == pieceSize - done
      invariant done == Clamp(Boundary(files, i) - pieceOffset, pieceSize)
      invariant TotalLen(out) == done && (out == [] <==> done == 0)
      invariant Consecutive(files, pieceOffset, out)
    {
      WalkStep(files, i, pieceOffset, pieceSize, done);
      if remaining == 0 {
        BoundariesGrow(files, i, |files|);
        break;
      }
      var file := files[i];
      if abs >= file.offset + file.length {
        continue;
      }
      // The exit for files past the piece cannot be taken: some bytes remain, and
      // the files before this one end where it starts.
      if abs + remaining <= file.offset {
        assert false;
      }
      var skip := abs - file.offset;
      var take := Min(remaining, file.length - skip);
      ExtendChunks(files, pieceOffset, out, FileChunk(i, skip, take));
      out := out + [FileChunk(i, skip, take)];
      abs := abs + take;
      remaining := remaining - take;
      done := done + take;
    }
    if out == [] {
      return Failure("piece did not map to any file");
    }
    return Success(out);
  }

  lemma NoChunks(files: seq<FileInfo>, off: nat)
    ensures Consecutive(files, off, []) && TotalLen([]) == 0
  {
  }

  lemma ExtendChunks(files: seq<FileInfo>, off: nat, chunks: seq<FileChunk>, c: FileChunk)
    requires Consecutive(files, off, chunks)
    requires c.file < |files| && 0 < c.len && c.fileOffset + c.len <= files[c.file].length
    requires files[c.file].offset + c.fileOffset == off + TotalLen(chunks)
    ensures Consecutive(files, off, chunks + [c])
    ensures TotalLen(chunks + [c]) == TotalLen(chunks) + c.len
  {
    var more := chunks + [c];
    assert more[..|chunks|] == chunks;
    forall k | 0 <= k < |more| ensures more[..k] == chunks[..k] {
    }
  }

  /** The bytes a server holding `remote` answers to the ranges, joined in order. */
  ghost function Joined(remote: seq<Bytes>, chunks: seq<FileChunk>): Bytes
    requires forall k :: 0 <= k < |chunks| ==>
      chunks[k].file < |remote| && chunks[k].fileOffset + chunks[k].len <= |remote[chunks[k].file]|
  {
    if chunks == [] then []
    else var c := chunks[|chunks| - 1];
      Joined(remote, chunks[..|chunks| - 1]) + remote[c.file][c.fileOffset..c.fileOffset + c.len]
  }

  /** Fetching the chunks of a piece and joining them is reading the piece from the flat array. */
  lemma {:induction false} JoinedIsSlice(files: seq<FileInfo>, remote: seq<Bytes>, off: nat, chunks: seq<FileChunk>)
    requires Contiguous(files) && DiskOk(files, remote) && Consecutive(files, off, chunks)
    ensures Joined(remote, chunks) == Slice(Flat(remote), off, TotalLen(chunks))
  {
    hide Slice, Flat, Contiguous, Consecutive;
    if chunks != [] {
      var n := |chunks| - 1;
      var c, before := chunks[n], chunks[..n];
      LastChunk(files, off, chunks);
      ConsecutivePrefix(files, off, chunks);
      JoinedIsSlice(files, remote, off, before);
      var m := TotalLen(before);
      FileInSlice(files, remote, c.file, off, m + c.len, m, c.len);
      SliceGrows(Flat(remote), off, m, c.len);
      assert remote[c.file][c.fileOffset..c.fileOffset + c.len] == Slice(Flat(remote), off, m + c.len)[m..m + c.len];
    }
  }

  lemma LastChunk(files: seq<FileInfo>, off: nat, chunks: seq<FileChunk>)
    requires chunks != [] && Consecutive(files, off, chunks)
    ensures var c, before := chunks[|chunks| - 1], chunks[..|chunks| - 1];
      && c.file < |files| && c.fileOffset + c.len <= files[c.file].length
      && files[c.file].offset + c.fileOffset == off + TotalLen(before)
      && TotalLen(chunks) == TotalLen(before) + c.len
  {
  }

  lemma ConsecutivePrefix(files: seq<FileInfo>, off: nat, chunks: seq<FileChunk>)
    requires chunks != [] && Consecutive(files, off, chunks)
    ensures Consecutive(files, off, chunks[..|chunks| - 1])
  {
    var before := chunks[..|chunks| - 1];
    forall k | 0 <= k < |before| ensures before[..k] == chunks[..k] && before[k] == chunks[k] {
    }
  }

  lemma SliceGrows(flat: Bytes, off: nat, n: nat, m: nat)
    ensures Slice(flat, off, n + m) == Slice(flat, off, n) + Slice(flat, off, n + m)[n..n + m]
  {
  }
}
