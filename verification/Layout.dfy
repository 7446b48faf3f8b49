/** The file table of a torrent (src/metainfo.rs) and its view as one flat byte array. */
module Layouts {
  import opened Bytes

  datatype FilePriority = Skip | Low | Normal | High

  datatype FileInfo = FileInfo(path: Bytes, length: nat, offset: nat)

  /** Each file starts where the previous one ends, the first at zero. */
  ghost predicate Contiguous(files: seq<FileInfo>) {
    && (files != [] ==> files[0].offset == 0)
    && forall i :: 0 <= i < |files| - 1 ==> files[i + 1].offset == files[i].offset + files[i].length
  }

  /** The absolute offset of file `i`, or the total size after the last file. */
  ghost function Boundary(files: seq<FileInfo>, i: nat): nat
    requires i <= |files|
  {
    if i < |files| then files[i].offset
    else if i == 0 then 0
    else files[i - 1].offset + files[i - 1].length
  }

  ghost function TotalSize(files: seq<FileInfo>): nat {
    Boundary(files, |files|)
  }

  lemma {:induction false} BoundariesGrow(files: seq<FileInfo>, i: nat, j: nat)
    requires Contiguous(files) && i <= j <= |files|
    ensures Boundary(files, i) <= Boundary(files, j)
    ensures i < j ==> files[i].offset + files[i].length <= Boundary(files, j)
    decreases j - i
  {
    if i < j {
      BoundariesGrow(files, i, j - 1);
    }
  }

  /** What the files hold: one byte string of the declared length per file. */
  ghost predicate DiskOk(files: seq<FileInfo>, disk: seq<Bytes>) {
    |disk| == |files| && forall i :: 0 <= i < |files| ==> |disk[i]| == files[i].length
  }

  /** All files laid end to end. */
  ghost function Flat(disk: seq<Bytes>): Bytes {
    if disk == [] then [] else Flat(disk[..|disk| - 1]) + disk[|disk| - 1]
  }

  lemma {:induction false} FlatLength(files: seq<FileInfo>, disk: seq<Bytes>, n: nat)
    requires Contiguous(files) && DiskOk(files, disk) && n <= |files|
    ensures |Flat(disk[..n])| == Boundary(files, n)
  {
    if n > 0 {
      FlatLength(files, disk, n - 1);
      assert disk[..n][..n - 1] == disk[..n - 1];
    }
  }

  lemma {:induction false} FlatPrefixAt(files: seq<FileInfo>, disk: seq<Bytes>, n: nat, i: nat, j: nat)
    requires Contiguous(files) && DiskOk(files, disk) && i < n <= |files| && j < files[i].length
    ensures files[i].offset + j < |Flat(disk[..n])| && Flat(disk[..n])[files[i].offset + j] == disk[i][j]
  {
    FlatLength(files, disk, n - 1);
    var before := Flat(disk[..n - 1]);
    assert disk[..n][..n - 1] == disk[..n - 1];
    assert Flat(disk[..n]) == before + disk[n - 1];
    if i < n - 1 {
      FlatPrefixAt(files, disk, n - 1, i, j);
    }
  }

  /** Byte `j` of file `i` is byte `offset + j` of the flat array. */
  lemma FlatAt(files: seq<FileInfo>, disk: seq<Bytes>, i: nat, j: nat)
    requires Contiguous(files) && DiskOk(files, disk) && i < |files| && j < files[i].length
    ensures |Flat(disk)| == TotalSize(files)
    ensures files[i].offset + j < |Flat(disk)| && Flat(disk)[files[i].offset + j] == disk[i][j]
  {
    FlatSize(files, disk);
    FlatPrefixAt(files, disk, |files|, i, j);
    assert disk[..|files|] == disk;
  }

  lemma FlatSize(files: seq<FileInfo>, disk: seq<Bytes>)
    requires Contiguous(files) && DiskOk(files, disk)
    ensures |Flat(disk)| == TotalSize(files)
  {
    FlatLength(files, disk, |files|);
    assert disk[..|files|] == disk;
  }

  /** Every absolute position lies in exactly one file. */
  lemma {:induction false} OwnerExists(files: seq<FileInfo>, p: nat, n: nat) returns (i: nat)
    requires Contiguous(files) && n <= |files| && p < Boundary(files, n)
    ensures i < n && files[i].offset <= p < files[i].offset + files[i].length
  {
    if files[n - 1].offset <= p {
      i := n - 1;
    } else {
      i := OwnerExists(files, p, n - 1);
    }
  }

  lemma OwnerUnique(files: seq<FileInfo>, p: nat, i: nat, j: nat)
    requires Contiguous(files) && i < |files| && j < |files|
    requires files[i].offset <= p < files[i].offset + files[i].length
    requires files[j].offset <= p < files[j].offset + files[j].length
    ensures i == j
  {
    if i < j {
      BoundariesGrow(files, i, j);
    } else if j < i {
      BoundariesGrow(files, j, i);
    }
  }

  /** `MetaInfo::piece_size` and `PieceManager::piece_size` */
  function PieceSize(numPieces: nat, pieceLength: nat, totalSize: nat, index: nat): (size: nat)
    requires pieceLength > 0
    ensures size <= pieceLength
  {
    if index + 1 == numPieces then
      var remainder := totalSize % pieceLength;
      if remainder == 0 then pieceLength else remainder
    else pieceLength
  }

  ghost function SumOfSizes(numPieces: nat, pieceLength: nat, totalSize: nat, n: nat): nat
    requires pieceLength > 0
  {
    if n == 0 then 0
    else SumOfSizes(numPieces, pieceLength, totalSize, n - 1) + PieceSize(numPieces, pieceLength, totalSize, n - 1)
  }

  lemma {:induction false} SizesOfFullPieces(numPieces: nat, pieceLength: nat, totalSize: nat, n: nat)
    requires pieceLength > 0 && n < numPieces
    ensures SumOfSizes(numPieces, pieceLength, totalSize, n) == n * pieceLength
  {
    if n > 0 {
      SizesOfFullPieces(numPieces, pieceLength, totalSize, n - 1);
    }
  }

  /** The piece sizes add up to the total exactly when there is one hash per started
      piece length (an empty torrent with one hash is the exception the code makes). */
  lemma PieceSizesAddUp(numPieces: nat, pieceLength: nat, totalSize: nat)
    requires pieceLength > 0 && numPieces > 0
    ensures SumOfSizes(numPieces, pieceLength, totalSize, numPieces) == totalSize
      <==> totalSize > 0 && numPieces == (totalSize + pieceLength - 1) / pieceLength
  {
    SizesOfFullPieces(numPieces, pieceLength, totalSize, numPieces - 1);
    var last := PieceSize(numPieces, pieceLength, totalSize, numPieces - 1);
    var q, r := totalSize / pieceLength, totalSize % pieceLength;
    assert totalSize == q * pieceLength + r;
    assert SumOfSizes(numPieces, pieceLength, totalSize, numPieces) == (numPieces - 1) * pieceLength + last;
    hide SumOfSizes;
    DivideUp(q, r, pieceLength);
    FullPlusLast(numPieces, q, r, pieceLength);
  }

  lemma FullPlusLast(numPieces: nat, q: nat, r: nat, d: nat)
    requires r < d && numPieces > 0
    ensures (numPieces - 1) * d + (if r == 0 then d else r) == q * d + r
      <==> q * d + r > 0 && numPieces == if r == 0 then q else q + 1
  {
    if r == 0 {
      assert (numPieces - 1) * d + d == numPieces * d;
      CancelFactor(numPieces, q, d);
    } else {
      CancelFactor(numPieces - 1, q, d);
    }
  }

  lemma DivideUp(q: nat, r: nat, d: nat)
    requires r < d
    ensures (q * d + r + d - 1) / d == if r == 0 then q else q + 1
  {
    if r == 0 {
      DivideExact(q, d - 1, d);
    } else {
      assert q * d + r + d - 1 == (q + 1) * d + (r - 1);
      DivideExact(q + 1, r - 1, d);
    }
  }

  lemma DivideExact(q: nat, r: nat, d: nat)
    requires r < d
    ensures (q * d + r) / d == q && (q * d + r) % d == r
  {
    var x := q * d + r;
    var e := x / d - q;
    assert x == (x / d) * d + x % d;
    assert e * d == r - x % d;
    Multiple(e, d);
  }

  lemma Multiple(e: int, d: nat)
    ensures e >= 1 ==> e * d >= d
    ensures e <= -1 ==> e * d <= -(d as int)
  {
    if e >= 1 {
      assert e * d == d + (e - 1) * d;
    } else if e <= -1 {
      assert e * d == (e + 1) * d - d;
    }
  }

  lemma QuotientAtLeast(x: nat, d: nat, k: nat)
    requires d > 0
    ensures k <= x / d <==> k * d <= x
  {
    var q := x / d;
    assert x == q * d + x % d;
    assert (q - k) * d == q * d - k * d;
    Multiple(q - k, d);
  }

  lemma CancelFactor(a: int, b: int, d: nat)
    requires d > 0
    ensures a * d == b * d <==> a == b
  {
    assert (b - a) * d == b * d - a * d;
    Multiple(b - a, d);
  }
}
