/** Multi-file piece storage with a read cache (src/storage.rs). */
module Storage {
  import opened Bytes
  import opened Layouts

  /** Priorities beyond the end of the vector count as wanted. */
  predicate IsSkipped(priorities: seq<FilePriority>, i: nat) {
    i < |priorities| && priorities[i] == Skip
  }

  // ----- specification over the flat array

  /** File `f` after writing `data` at absolute offset `off`. */
  ghost function WrittenFile(f: FileInfo, content: Bytes, off: nat, data: Bytes): (r: Bytes)
    ensures |r| == |content|
  {
    seq(|content|, j requires 0 <= j < |content| =>
      if off <= f.offset + j < off + |data| then data[f.offset + j - off] else content[j])
  }

  ghost function Written(files: seq<FileInfo>, priorities: seq<FilePriority>, disk: seq<Bytes>, off: nat,
          data: Bytes): seq<Bytes>
    requires |disk| == |files|
  {
    seq(|disk|, i requires 0 <= i < |disk| =>
      if IsSkipped(priorities, i) then disk[i] else WrittenFile(files[i], disk[i], off, data))
  }

  /** `size` bytes from absolute offset `off`; zeros past the end. */
  ghost function Slice(flat: Bytes, off: nat, size: nat): (s: Bytes)
    ensures |s| == size
  {
    seq(size, k requires 0 <= k < size => if off + k < |flat| then flat[off + k] else 0)
  }

  ghost predicate SkippedAt(files: seq<FileInfo>, priorities: seq<FilePriority>, p: nat) {
    exists i :: 0 <= i < |files| && files[i].offset <= p < files[i].offset + files[i].length && IsSkipped(priorities, i)
  }

  /** Writing to the files is writing to the flat array, with Skip files as a mask. */
  lemma WriteIsMaskedSplice(files: seq<FileInfo>, priorities: seq<FilePriority>, disk: seq<Bytes>, off: nat,
          data: Bytes, p: nat)
    requires Contiguous(files) && DiskOk(files, disk) && p < TotalSize(files)
    ensures DiskOk(files, Written(files, priorities, disk, off, data))
    ensures |Flat(disk)| == |Flat(Written(files, priorities, disk, off, data))| == TotalSize(files)
    ensures Flat(Written(files, priorities, disk, off, data))[p]
      == if off <= p < off + |data| && !SkippedAt(files, priorities, p) then data[p - off] else Flat(disk)[p]
  {
    hide SkippedAt, Contiguous, Flat, Boundary, Written;
    var disk1 := Written(files, priorities, disk, off, data);
    WrittenSizes(files, priorities, disk, off, data);
    var i := OwnerExists(files, p, |files|);
    var j := p - files[i].offset;
    WrittenByte(files, priorities, disk, off, data, i, j);
    FlatAt(files, disk, i, j);
    FlatAt(files, disk1, i, j);
    SkippedAtOwner(files, priorities, p, i);
  }

  lemma WrittenSizes(files: seq<FileInfo>, priorities: seq<FilePriority>, disk: seq<Bytes>, off: nat, data: Bytes)
    requires DiskOk(files, disk)
    ensures DiskOk(files, Written(files, priorities, disk, off, data))
  {
  }

  lemma WrittenByte(files: seq<FileInfo>, priorities: seq<FilePriority>, disk: seq<Bytes>, off: nat, data: Bytes,
          i: nat, j: nat)
    requires DiskOk(files, disk) && DiskOk(files, Written(files, priorities, disk, off, data))
    requires i < |files| && j < files[i].length
    ensures Written(files, priorities, disk, off, data)[i][j]
      == if off <= files[i].offset + j < off + |data| && !IsSkipped(priorities, i)
         then data[files[i].offset + j - off] else disk[i][j]
  {
  }

  lemma SkippedAtOwner(files: seq<FileInfo>, priorities: seq<FilePriority>, p: nat, i: nat)
    requires Contiguous(files) && i < |files| && files[i].offset <= p < files[i].offset + files[i].length
    ensures SkippedAt(files, priorities, p) <==> IsSkipped(priorities, i)
  {
    if SkippedAt(files, priorities, p) {
      var k :| 0 <= k < |files| && files[k].offset <= p < files[k].offset + files[k].length && IsSkipped(priorities, k);
      OwnerUnique(files, p, i, k);
    }
  }

  /** With no Skip file, a write that fits splices the flat array. */
  lemma WriteIsSplice(files: seq<FileInfo>, priorities: seq<FilePriority>, disk: seq<Bytes>, off: nat, data: Bytes)
    requires Contiguous(files) && DiskOk(files, disk) && off + |data| <= TotalSize(files)
    requires forall i :: 0 <= i < |files| ==> !IsSkipped(priorities, i)
    ensures DiskOk(files, Written(files, priorities, disk, off, data))
    ensures |Flat(disk)| == TotalSize(files)
    ensures Flat(Written(files, priorities, disk, off, data)) == Flat(disk)[..off] + data + Flat(disk)[off + |data|..]
  {
    var disk1 := Written(files, priorities, disk, off, data);
    FlatSize(files, disk);
    FlatSize(files, disk1);
    forall p | 0 <= p < TotalSize(files)
      ensures Flat(disk1)[p] == (Flat(disk)[..off] + data + Flat(disk)[off + |data|..])[p]
    {
      WriteIsMaskedSplice(files, priorities, disk, off, data, p);
    }
  }

  /** A read returns what was last written there. */
  lemma ReadAfterWrite(files: seq<FileInfo>, priorities: seq<FilePriority>, disk: seq<Bytes>, off: nat, data: Bytes)
    requires Contiguous(files) && DiskOk(files, disk) && off + |data| <= TotalSize(files)
    requires forall i :: 0 <= i < |files| ==> !IsSkipped(priorities, i)
    ensures Slice(Flat(Written(files, priorities, disk, off, data)), off, |data|) == data
  {
    WriteIsSplice(files, priorities, disk, off, data);
  }

  /** A write leaves every disjoint range as it was, whatever the mask. */
  lemma OtherRangesUntouched(files: seq<FileInfo>, priorities: seq<FilePriority>, disk: seq<Bytes>, off: nat,
          data: Bytes, off2: nat, size: nat)
    requires Contiguous(files) && DiskOk(files, disk)
    requires off + |data| <= off2 || off2 + size <= off
    ensures Slice(Flat(Written(files, priorities, disk, off, data)), off2, size) == Slice(Flat(disk), off2, size)
  {
    var disk1 := Written(files, priorities, disk, off, data);
    FlatSize(files, disk);
    FlatSize(files, disk1);
    forall k | 0 <= k < size ensures Slice(Flat(disk1), off2, size)[k] == Slice(Flat(disk), off2, size)[k] {
      if off2 + k < TotalSize(files) {
        WriteIsMaskedSplice(files, priorities, disk, off, data, off2 + k);
      }
    }
  }

  // ----- the walk

  ghost function Clamp(x: int, hi: nat): nat {
    if x < 0 then 0 else Min(x, hi)
  }

  /** Where the walk of `write_piece` and `read_piece_uncached` stands before file `i`. */
  lemma WalkStep(files: seq<FileInfo>, i: nat, off: nat, len: nat, done: nat)
    requires Contiguous(files) && i < |files|
    requires done == Clamp(Boundary(files, i) - off, len)
    ensures done <= len
    ensures Boundary(files, i) == files[i].offset && Boundary(files, i + 1) == files[i].offset + files[i].length
    ensures off + done >= files[i].offset + files[i].length || off + len <= files[i].offset
      ==> Clamp(Boundary(files, i + 1) - off, len) == done
    ensures off + done < files[i].offset + files[i].length && files[i].offset < off + len
      ==> files[i].offset <= off + done
          && Clamp(Boundary(files, i + 1) - off, len)
            == done + Min(len - done, files[i].length - (off + done - files[i].offset))
  {
  }

  lemma NothingBefore(files: seq<FileInfo>, off: nat, len: nat)
    requires Contiguous(files)
    ensures Clamp(Boundary(files, 0) - off, len) == 0
  {
  }

  datatype CacheEntry = CacheEntry(index: nat, data: Bytes)

  /** Entries of the LRU cache, most recently used first. */
  type Cache = seq<CacheEntry>

  function Without(cache: Cache, index: nat): (r: Cache)
    ensures |r| <= |cache|
    ensures forall e :: e in r <==> e in cache && e.index != index
  {
    if cache == [] then []
    else if cache[0].index == index then Without(cache[1..], index)
    else [cache[0]] + Without(cache[1..], index)
  }

  /** `LruCache::put`: newest in front, the least recently used entry dropped when full. */
  function Put(cache: Cache, e: CacheEntry, capacity: nat): (r: Cache)
    requires capacity > 0
    ensures |cache| <= capacity ==> |r| <= capacity
    ensures |r| > 0 && r[0] == e && r[1..] <= Without(cache, e.index)
    ensures |r| == Min(1 + |Without(cache, e.index)|, capacity)
    ensures forall x :: x in r ==> x == e || (x in cache && x.index != e.index)
  {
    var others := Without(cache, e.index);
    [e] + if |others| >= capacity then others[..capacity - 1] else others
  }

  /** The size of the cache in bytes, in 64 bits. */
  function CacheBytes(cacheSizeMb: nat): nat {
    Min(cacheSizeMb * 0x10_0000, 0xFFFF_FFFF_FFFF_FFFF)
  }

  /** As many pieces as fit, but at least 64 and at most 2048. */
  function CacheCapacity(cacheSizeMb: nat, pieceLength: nat): (n: nat)
    ensures n >= 1
    ensures pieceLength > 0 ==> 64 <= n <= 2048
    ensures pieceLength > 0 && n > 64 ==> n * pieceLength <= cacheSizeMb * 1_048_576
    ensures pieceLength > 0 && n > 64 ==> n * pieceLength < 0x1_0000_0000_0000_0000
    ensures pieceLength > 0 && n < 2048 && cacheSizeMb <= 0xFFF_FFFF_FFFF ==>
      (n + 1) * pieceLength > cacheSizeMb * 1_048_576
  {
    if pieceLength > 0 then
      var n := Min(Max(CacheBytes(cacheSizeMb) / pieceLength, 64), 2048);
      QuotientAtLeast(CacheBytes(cacheSizeMb), pieceLength, n);
      QuotientAtLeast(CacheBytes(cacheSizeMb), pieceLength, n + 1);
      n
    else 128
  }

  class DiskStorage {
    const files: seq<FileInfo>
    const pieceLength: nat
    const totalSize: nat
    const numPieces: nat
    const priorities: seq<FilePriority>
    const capacity: nat
    var disk: seq<Bytes>
    var cache: Cache

    ghost predicate Valid()
      reads this
    {
      && Contiguous(files) && DiskOk(files, disk)
      && pieceLength > 0 && capacity > 0 && |cache| <= capacity
    }

    /** Every cached piece is what an uncached read would return now. */
    ghost predicate Coherent()
      requires pieceLength > 0
      reads this
    {
      forall e :: e in cache ==> e.data == Slice(Flat(disk), e.index * pieceLength, Size(e.index))
    }

    function Size(index: nat): nat
      requires pieceLength > 0
    {
      PieceSize(numPieces, pieceLength, totalSize, index)
    }

    constructor (files: seq<FileInfo>, pieceLength: nat, totalSize: nat, numPieces: nat,
                 priorities: seq<FilePriority>, cacheSizeMb: nat, disk: seq<Bytes>)
      requires Contiguous(files) && DiskOk(files, disk) && pieceLength > 0
      ensures Valid() && Coherent() && this.disk == disk && this.files == files && this.pieceLength == pieceLength
      ensures this.totalSize == totalSize && this.numPieces == numPieces && this.priorities == priorities
      ensures cache == [] && capacity == CacheCapacity(cacheSizeMb, pieceLength)
    {
      this.files := files;
      this.pieceLength := pieceLength;
      this.totalSize := totalSize;
      this.numPieces := numPieces;
      this.priorities := priorities;
      this.capacity := CacheCapacity(cacheSizeMb, pieceLength);
      this.disk := disk;
      this.cache := [];
    }

    method WritePiece(index: nat, data: Bytes)
      requires Valid()
      modifies this
      ensures Valid()
      ensures disk == Written(files, priorities, old(disk), index * pieceLength, data)
      ensures cache == Without(old(cache), index)
      ensures old(Coherent()) && |data| <= pieceLength ==> Coherent()
    {
      ghost var disk0, cache0 := disk, cache;
      WriteFiles(index * pieceLength, data);
      cache := Without(cache, index);
      if old(Coherent()) && |data| <= pieceLength {
        forall e | e in cache ensures e.data == Slice(Flat(disk), e.index * pieceLength, Size(e.index)) {
          assert e in cache0;
          PiecesDisjoint(index, e.index, pieceLength);
          OtherRangesUntouched(files, priorities, disk0, index * pieceLength, data, e.index * pieceLength,
            Size(e.index));
        }
      }
    }

    /** The loop of `write_piece` over the file table. */
    method WriteFiles(pieceOffset: nat, data: Bytes)
      requires Valid()
      modifies this`disk
      ensures Valid()
      ensures disk == Written(files, priorities, old(disk), pieceOffset, data)
    {
      hide WrittenFile, Contiguous;
      NothingBefore(files, pieceOffset, |data|);
      var dataOffset, remaining := 0, |data|;
      ghost var disk0 := disk;
      ghost var target := Written(files, priorities, disk, pieceOffset, data);
      for i := 0 to |files|
        invariant dataOffset == Clamp(Boundary(files, i) - pieceOffset, |data|) && remaining == |data| - dataOffset
        invariant |disk| == |files|
        invariant forall j :: 0 <= j < i ==> disk[j] == target[j]
        invariant forall j :: i <= j < |files| ==> disk[j] == disk0[j]
      {
        WalkStep(files, i, pieceOffset, |data|, dataOffset);
        var file := files[i];
        var absStart := pieceOffset + dataOffset;
        if absStart >= file.offset + file.length || absStart + remaining <= file.offset {
          FileOutside(files, i, pieceOffset, data, disk0[i]);
          continue;
        }
        var offsetInFile := absStart - file.offset;
        var writable := Min(remaining, file.length - offsetInFile);
        if !IsSkipped(priorities, i) {
          FileInside(file, pieceOffset, data, disk0[i], dataOffset, writable);
          disk := disk[i := disk[i][..offsetInFile] + data[dataOffset..dataOffset + writable]
            + disk[i][offsetInFile + writable..]];
        }
        dataOffset := dataOffset + writable;
        remaining := remaining - writable;
        if remaining == 0 {
          RestOutside(files, priorities, disk0, pieceOffset, data, i + 1);
          assert forall j :: i + 1 <= j < |files| ==> disk0[j] == target[j];
          break;
        }
      }
      assert disk == target;
    }

    method ReadPiece(index: nat, pieceSize: nat) returns (data: Bytes)
      requires Valid() && Coherent() && pieceSize == Size(index)
      modifies this`cache
      ensures Valid() && Coherent()
      ensures data == Slice(Flat(disk), index * pieceLength, pieceSize)
      ensures cache == Put(old(cache), CacheEntry(index, data), capacity)
    {
      var k := 0;
      while k < |cache| && cache[k].index != index
        invariant k <= |cache| && forall j :: 0 <= j < k ==> cache[j].index != index
      {
        k := k + 1;
      }
      if k < |cache| {
        data := cache[k].data;
        assert cache[k] in cache;
        cache := Put(cache, cache[k], capacity);
        return;
      }
      data := ReadPieceUncached(index, pieceSize);
      cache := Put(cache, CacheEntry(index, data), capacity);
    }

    method ReadPieceUncached(index: nat, pieceSize: nat) returns (result: Bytes)
      requires Valid()
      ensures result == Slice(Flat(disk), index * pieceLength, pieceSize)
    {
      hide Filled, Slice, Flat, Contiguous, Boundary, Clamp;
      NothingBefore(files, index * pieceLength, pieceSize);
      var pieceOffset := index * pieceLength;
      result := seq(pieceSize, _ => 0);
      FilledNothing(Slice(Flat(disk), pieceOffset, pieceSize));
      var dataOffset, remaining := 0, pieceSize;
      ghost var target := Slice(Flat(disk), pieceOffset, pieceSize);
      for i := 0 to |files|
        invariant dataOffset == Clamp(Boundary(files, i) - pieceOffset, pieceSize)
          && remaining == pieceSize - dataOffset
        invariant result == Filled(target, dataOffset)
      {
        WalkStep(files, i, pieceOffset, pieceSize, dataOffset);
        var file := files[i];
        var absStart := pieceOffset + dataOffset;
        if absStart >= file.offset + file.length || absStart + remaining <= file.offset {
          continue;
        }
        var offsetInFile := absStart - file.offset;
        var readable := Min(remaining, file.length - offsetInFile);
        FileInSlice(files, disk, i, pieceOffset, pieceSize, dataOffset, readable);
        FillMore(target, dataOffset, readable);
        result := result[..dataOffset] + disk[i][offsetInFile..offsetInFile + readable]
          + result[dataOffset + readable..];
        dataOffset := dataOffset + readable;
        remaining := remaining - readable;
        if remaining == 0 {
          break;
        }
      }
      FlatSize(files, disk);
      FilledEnough(Flat(disk), pieceOffset, pieceSize, dataOffset);
    }
  }

  /** The first `done` bytes of `target`, then zeros. */
  ghost function Filled(target: Bytes, done: nat): (r: Bytes)
    ensures |r| == |target|
  {
    seq(|target|, k requires 0 <= k < |target| => if k < done then target[k] else 0)
  }

  lemma FilledNothing(target: Bytes)
    ensures Filled(target, 0) == seq(|target|, _ => 0)
  {
  }

  lemma FilledEnough(flat: Bytes, off: nat, size: nat, done: nat)
    requires done == size || done == Clamp(|flat| - off, size)
    ensures Filled(Slice(flat, off, size), done) == Slice(flat, off, size)
  {
  }

  lemma FillMore(target: Bytes, done: nat, n: nat)
    requires done + n <= |target|
    ensures Filled(target, done)[..done] + target[done..done + n] + Filled(target, done)[done + n..]
      == Filled(target, done + n)
  {
  }

  lemma FileInSlice(files: seq<FileInfo>, disk: seq<Bytes>, i: nat, off: nat, size: nat, done: nat, n: nat)
    requires Contiguous(files) && DiskOk(files, disk) && i < |files|
    requires files[i].offset <= off + done && off + done + n <= files[i].offset + files[i].length && done + n <= size
    ensures var o := off + done - files[i].offset; disk[i][o..o + n] == Slice(Flat(disk), off, size)[done..done + n]
  {
    var o := off + done - files[i].offset;
    var here, there := disk[i][o..o + n], Slice(Flat(disk), off, size)[done..done + n];
    forall k | 0 <= k < n ensures here[k] == there[k] {
      FlatAt(files, disk, i, o + k);
    }
  }

  lemma FileOutside(files: seq<FileInfo>, i: nat, off: nat, data: Bytes, content: Bytes)
    requires Contiguous(files) && i < |files| && |content| == files[i].length
    requires var done := Clamp(Boundary(files, i) - off, |data|);
      off + done >= files[i].offset + files[i].length || off + |data| <= files[i].offset
    ensures WrittenFile(files[i], content, off, data) == content
  {
  }

  lemma FileInside(f: FileInfo, off: nat, data: Bytes, content: Bytes, done: nat, n: nat)
    requires |content| == f.length && done <= |data| && f.offset <= off + done < f.offset + f.length
    requires n == Min(|data| - done, f.length - (off + done - f.offset))
    requires done > 0 ==> off + done == f.offset
    ensures var o := off + done - f.offset;
      WrittenFile(f, content, off, data) == content[..o] + data[done..done + n] + content[o + n..]
  {
  }

  lemma RestOutside(files: seq<FileInfo>, priorities: seq<FilePriority>, disk: seq<Bytes>, off: nat, data: Bytes,
          n: nat)
    requires Contiguous(files) && DiskOk(files, disk) && n <= |files| && off + |data| <= Boundary(files, n)
    ensures Written(files, priorities, disk, off, data)[n..] == disk[n..]
  {
    forall i | n <= i < |files| ensures WrittenFile(files[i], disk[i], off, data) == disk[i] {
      BoundariesGrow(files, n, i);
    }
  }

  lemma PiecesDisjoint(i: nat, j: nat, pieceLength: nat)
    requires i != j
    ensures i * pieceLength + pieceLength <= j * pieceLength || j * pieceLength + pieceLength <= i * pieceLength
  {
    if i < j {
      PieceBefore(i, j - i - 1, pieceLength);
    } else {
      PieceBefore(j, i - j - 1, pieceLength);
    }
  }

  lemma PieceBefore(i: nat, gap: nat, pieceLength: nat)
    ensures i * pieceLength + pieceLength <= (i + 1 + gap) * pieceLength
  {
    assert (i + 1 + gap) * pieceLength == i * pieceLength + pieceLength + gap * pieceLength;
  }
}
