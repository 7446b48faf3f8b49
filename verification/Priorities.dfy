/** The two readings of a list of file priorities: the piece priorities of src/piece.rs and the
    mask over the bytes of src/storage.rs. */
module Priorities {
  import opened Bytes
  import opened Layouts
  import opened PieceManagers
  import Storage

  /** No byte of piece `k` would be written. */
  ghost predicate AllSkipped(files: seq<FileInfo>, prios: seq<FilePriority>, pieceLength: nat, k: nat) {
    forall p :: PieceByte(files, pieceLength, k, p) ==> Storage.SkippedAt(files, prios, p)
  }

  ghost predicate PieceByte(files: seq<FileInfo>, pieceLength: nat, k: nat, p: nat) {
    p < TotalSize(files) && k * pieceLength <= p < (k + 1) * pieceLength
  }

  /** Every file with a byte in piece `k` is listed as Skip. */
  ghost predicate OverlapsSkipped(files: seq<FileInfo>, prios: seq<FilePriority>, pieceLength: nat, k: nat) {
    forall i :: 0 <= i < |files| && Overlaps(files[i], pieceLength, k) ==> Storage.IsSkipped(prios, i)
  }

  lemma AllSkippedByFile(files: seq<FileInfo>, prios: seq<FilePriority>, pieceLength: nat, k: nat)
    requires Contiguous(files)
    ensures AllSkipped(files, prios, pieceLength, k) <==> OverlapsSkipped(files, prios, pieceLength, k)
  {
    hide Contiguous;
    if AllSkipped(files, prios, pieceLength, k) {
      forall i | 0 <= i < |files| && Overlaps(files[i], pieceLength, k) ensures Storage.IsSkipped(prios, i) {
        var p: nat :| ByteIn(files[i], pieceLength, k, p);
        BoundariesGrow(files, i, |files|);
        assert PieceByte(files, pieceLength, k, p);
        Storage.SkippedAtOwner(files, prios, p, i);
      }
    }
    if OverlapsSkipped(files, prios, pieceLength, k) {
      forall p: nat | PieceByte(files, pieceLength, k, p) ensures Storage.SkippedAt(files, prios, p) {
        var i := OwnerExists(files, p, |files|);
        assert ByteIn(files[i], pieceLength, k, p);
      }
    }
  }

  /** A file beyond the end of the list has a byte in the piece, and no listed file wants it. */
  ghost predicate Orphaned(files: seq<FileInfo>, prios: seq<FilePriority>, pieceLength: nat, k: nat)
    requires pieceLength > 0
  {
    && (exists i :: |prios| <= i < |files| && Overlaps(files[i], pieceLength, k))
    && (forall i: nat :: !Claims(files, prios, pieceLength, k, i))
  }

  /** A wanted empty file claims the piece, and every file with a byte in it is listed as Skip. */
  ghost predicate Lifted(files: seq<FileInfo>, prios: seq<FilePriority>, pieceLength: nat, k: nat)
    requires pieceLength > 0
  {
    && (exists i: nat :: Claims(files, prios, pieceLength, k, i) && files[i].length == 0)
    && OverlapsSkipped(files, prios, pieceLength, k)
  }

  /** A piece is unwanted when all its bytes are masked and only then, except exactly for an
      orphaned piece, which is unwanted but would be written, and for a lifted one, which is
      wanted but of which nothing would be written. */
  lemma SkipAgreesExactly(files: seq<FileInfo>, prios: seq<FilePriority>, pieceLength: nat, k: nat, p: FilePriority)
    requires Contiguous(files) && pieceLength > 0
    requires IsBestClaim(files, prios, pieceLength, k, Min(|files|, |prios|), p)
    ensures (p == Skip <==> AllSkipped(files, prios, pieceLength, k)) <==>
      !Orphaned(files, prios, pieceLength, k) && !Lifted(files, prios, pieceLength, k)
  {
    hide Touches, Overlaps, Contiguous, AllSkipped, IsBestClaim, PrioRank;
    AllSkippedByFile(files, prios, pieceLength, k);
    UnwantedIsUnclaimed(files, prios, pieceLength, k, p);
    forall i | 0 <= i < |files|
      ensures Touches(files[i], pieceLength, k) && files[i].length > 0 ==> Overlaps(files[i], pieceLength, k)
      ensures Overlaps(files[i], pieceLength, k) ==> Touches(files[i], pieceLength, k)
    {
      TouchedPieces(files[i], pieceLength, k);
    }
    if i: nat :| Claims(files, prios, pieceLength, k, i) {
      assert files[i].length > 0 ==> !Storage.IsSkipped(prios, i);
    } else {
      assert !Lifted(files, prios, pieceLength, k);
      forall i | 0 <= i < |files| && Overlaps(files[i], pieceLength, k)
        ensures Storage.IsSkipped(prios, i) <==> i < |prios|
      {
        assert !Claims(files, prios, pieceLength, k, i);
      }
    }
  }

  lemma UnwantedIsUnclaimed(files: seq<FileInfo>, prios: seq<FilePriority>, pieceLength: nat, k: nat, p: FilePriority)
    requires pieceLength > 0 && IsBestClaim(files, prios, pieceLength, k, Min(|files|, |prios|), p)
    ensures p == Skip <==> forall i: nat :: !Claims(files, prios, pieceLength, k, i)
  {
    hide Touches;
  }

  /** With a priority for every file and no wanted file empty, the two always agree. */
  lemma FullListAgrees(files: seq<FileInfo>, prios: seq<FilePriority>, pieceLength: nat, k: nat, p: FilePriority)
    requires Contiguous(files) && pieceLength > 0
    requires IsBestClaim(files, prios, pieceLength, k, Min(|files|, |prios|), p)
    requires |prios| >= |files| && forall i :: 0 <= i < |files| && files[i].length == 0 ==> prios[i] == Skip
    ensures p == Skip <==> AllSkipped(files, prios, pieceLength, k)
  {
    hide AllSkipped, OverlapsSkipped, Overlaps, IsBestClaim;
    SkipAgreesExactly(files, prios, pieceLength, k, p);
  }

  /** An empty list: the one piece of the one file is unwanted, and its bytes would be written. */
  lemma ShortListOrphans(p: FilePriority)
    requires IsBestClaim([FileInfo([], 4, 0)], [], 4, 0, 0, p)
    ensures p == Skip && forall q :: !Storage.SkippedAt([FileInfo([], 4, 0)], [], q)
  {
  }
}
