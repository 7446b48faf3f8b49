/** Piece priorities and piece selection (src/piece.rs, `PieceManager`). */
module PieceManagers {
  import opened Bytes
  import opened Layouts
  import opened Bitfields
  import opened Sorting

  // ----- priorities

  function PrioRank(p: FilePriority): nat {
    match p
    case High => 0
    case Normal => 1
    case Low => 2
    case Skip => 3
  }

  function FirstPiece(f: FileInfo, pieceLength: nat): nat
    requires pieceLength > 0
  {
    f.offset / pieceLength
  }

  function LastPiece(f: FileInfo, pieceLength: nat): nat
    requires pieceLength > 0
  {
    var lastByte := f.offset + f.length;
    if lastByte == 0 then 0 else (lastByte - 1) / pieceLength
  }

  /** The pieces the loop of `apply_file_priorities` visits for a file. */
  predicate Touches(f: FileInfo, pieceLength: nat, k: nat)
    requires pieceLength > 0
  {
    FirstPiece(f, pieceLength) <= k <= LastPiece(f, pieceLength)
  }

  predicate ByteIn(f: FileInfo, pieceLength: nat, k: nat, p: nat) {
    f.offset <= p < f.offset + f.length && k * pieceLength <= p < (k + 1) * pieceLength
  }

  /** Some byte of the file lies in piece `k`. */
  ghost predicate Overlaps(f: FileInfo, pieceLength: nat, k: nat) {
    exists p :: ByteIn(f, pieceLength, k, p)
  }

  /** The loop visits a file's own pieces; an empty file also claims the piece it lies in
      when it starts inside that piece, or at the very beginning. */
  lemma TouchedPieces(f: FileInfo, pieceLength: nat, k: nat)
    requires pieceLength > 0
    ensures Touches(f, pieceLength, k) <==>
      Overlaps(f, pieceLength, k)
      || (f.length == 0 && k == f.offset / pieceLength && (f.offset == 0 || f.offset % pieceLength != 0))
  {
    var end := f.offset + f.length;
    QuotientAtLeast(f.offset, pieceLength, k + 1);
    if end > 0 {
      QuotientAtLeast(end - 1, pieceLength, k);
    }
    if f.length > 0 {
      if Touches(f, pieceLength, k) {
        assert ByteIn(f, pieceLength, k, Max(f.offset, k * pieceLength));
      }
    } else if f.offset > 0 {
      PreviousQuotient(f.offset, pieceLength);
    } else {
      DivideExact(0, 0, pieceLength);
    }
  }

  /** A wanted empty file in the middle of a piece of an unwanted file lifts that piece,
      although no byte of the piece is wanted. */
  lemma EmptyFileLiftsPiece()
    ensures var f := FileInfo([], 0, 3); Touches(f, 4, 0) && forall k :: !Overlaps(f, 4, k)
  {
  }

  lemma PreviousQuotient(x: nat, d: nat)
    requires d > 0 && x > 0
    ensures (x - 1) / d == if x % d == 0 then x / d - 1 else x / d
  {
    var q, r := x / d, x % d;
    assert x == q * d + r;
    if r == 0 {
      assert x - 1 == (q - 1) * d + (d - 1);
      DivideExact(q - 1, d - 1, d);
    } else {
      assert x - 1 == q * d + (r - 1);
      DivideExact(q, r - 1, d);
    }
  }

  ghost predicate Claims(files: seq<FileInfo>, prios: seq<FilePriority>, pieceLength: nat, k: nat, i: nat)
    requires pieceLength > 0
  {
    i < |files| && i < |prios| && prios[i] != Skip && Touches(files[i], pieceLength, k)
  }

  /** `p` is the best priority among the first `n` files that claim piece `k`, or Skip. */
  ghost predicate IsBestClaim(files: seq<FileInfo>, prios: seq<FilePriority>, pieceLength: nat, k: nat, n: nat,
          p: FilePriority)
    requires pieceLength > 0
  {
    && (p != Skip ==> exists i :: 0 <= i < n && Claims(files, prios, pieceLength, k, i) && prios[i] == p)
    && (forall i :: 0 <= i < n && Claims(files, prios, pieceLength, k, i) ==> PrioRank(p) <= PrioRank(prios[i]))
  }

  /** The priority of piece `k` after the first `n` files; without a piece length none is wanted. */
  ghost predicate Assigned(files: seq<FileInfo>, prios: seq<FilePriority>, pieceLength: nat, k: nat, n: nat,
                           p: FilePriority)
  {
    if pieceLength > 0 then IsBestClaim(files, prios, pieceLength, k, n, p) else p == Skip
  }

  function Better(cur: FilePriority, prio: FilePriority): FilePriority {
    match (cur, prio)
    case (Skip, p) => p
    case (Low, Normal) => prio
    case (Low, High) => prio
    case (Normal, High) => prio
    case _ => cur
  }

  lemma ClaimNext(files: seq<FileInfo>, prios: seq<FilePriority>, pieceLength: nat, k: nat, n: nat, p: FilePriority)
    requires pieceLength > 0 && n < |files| && n < |prios| && IsBestClaim(files, prios, pieceLength, k, n, p)
    ensures IsBestClaim(files, prios, pieceLength, k, n + 1,
      if prios[n] != Skip && Touches(files[n], pieceLength, k) then Better(p, prios[n]) else p)
  {
    hide Touches;
  }

  // ----- selection

  datatype Candidate = Candidate(index: nat, avail: nat, prio: FilePriority)

  /** The comparison handed to the stable sort. */
  predicate Before(a: Candidate, b: Candidate, sequential: bool) {
    || PrioRank(a.prio) < PrioRank(b.prio)
    || (a.prio == b.prio && if sequential then a.index < b.index else a.avail < b.avail)
  }

  /** The order a stable sort of candidates in index order results in. */
  predicate Sooner(a: Candidate, b: Candidate, sequential: bool) {
    Before(a, b, sequential) || (!Before(b, a, sequential) && a.index < b.index)
  }

  ghost predicate Ordered(cs: seq<Candidate>, sequential: bool) {
    forall i, j :: 0 <= i < j < |cs| ==> Sooner(cs[i], cs[j], sequential)
  }

  ghost predicate ByIndex(cs: seq<Candidate>) {
    forall i, j :: 0 <= i < j < |cs| ==> cs[i].index < cs[j].index
  }

  function Comparison(sequential: bool): (Candidate, Candidate) -> bool {
    (a: Candidate, b: Candidate) => Before(a, b, sequential)
  }

  function SortedBy(cs: seq<Candidate>, sequential: bool): seq<Candidate> {
    StableSort(cs, Comparison(sequential))
  }

  lemma SortOrders(cs: seq<Candidate>, sequential: bool)
    requires ByIndex(cs)
    ensures Ordered(SortedBy(cs, sequential), sequential)
    ensures forall x :: x in SortedBy(cs, sequential) <==> x in cs
  {
    var sooner := (a: Candidate, b: Candidate) => Sooner(a, b, sequential);
    var position := (c: Candidate) => c.index as int;
    StableSortSorts(cs, Comparison(sequential), sooner, position);
  }

  predicate Eligible(have: seq<bool>, inProgress: set<nat>, priorities: seq<FilePriority>, bitfield: Bytes, i: nat)
    requires |priorities| == |have|
  {
    i < |have| && !have[i] && i !in inProgress && priorities[i] != Skip && HasPiece(bitfield, i)
  }

  /** Among the best-priority candidates: all of them in order, or those nearly as rare as
      the rarest. */
  predicate InBestClass(c: Candidate, best: Candidate, sequential: bool) {
    c.prio == best.prio && (sequential || c.avail <= best.avail + 2)
  }

  function BestClass(best: Candidate, sequential: bool): Candidate -> bool {
    (c: Candidate) => InBestClass(c, best, sequential)
  }

  function TakeBest(cs: seq<Candidate>, best: Candidate, sequential: bool): seq<Candidate> {
    TakeWhere(cs, BestClass(best, sequential), 10)
  }

  /** The ten first of the class, or all of it. */
  ghost predicate BestOf(r: seq<Candidate>, cs: seq<Candidate>, best: Candidate, sequential: bool) {
    && |r| <= 10 && Ordered(r, sequential)
    && (forall c :: c in r ==> c in cs && InBestClass(c, best, sequential))
    && (forall c :: c in cs && InBestClass(c, best, sequential) && c !in r ==>
          |r| == 10 && forall x :: x in r ==> Sooner(x, c, sequential))
  }

  lemma TakesBest(cs: seq<Candidate>, best: Candidate, sequential: bool)
    requires Ordered(cs, sequential)
    ensures BestOf(TakeBest(cs, best, sequential), cs, best, sequential)
  {
    var sooner := (a: Candidate, b: Candidate) => Sooner(a, b, sequential);
    TakesFirstKept(cs, BestClass(best, sequential), sooner, 10);
    var r := TakeBest(cs, best, sequential);
    forall c | c in cs && InBestClass(c, best, sequential) && c !in r
      ensures |r| == 10 && forall x :: x in r ==> Sooner(x, c, sequential)
    {
      assert BestClass(best, sequential)(c);
      assert forall x :: x in r ==> sooner(x, c);
    }
  }

  function Indices(cs: seq<Candidate>): (r: seq<nat>)
    ensures |r| == |cs| && forall k :: 0 <= k < |cs| ==> r[k] == cs[k].index
  {
    seq(|cs|, k requires 0 <= k < |cs| => cs[k].index)
  }

  class PieceManager {
    const numPieces: nat
    const pieceLength: nat
    const totalSize: nat
    var have: seq<bool>
    var inProgress: map<nat, Filling>
    var availability: seq<nat>
    var priorities: seq<FilePriority>

    ghost predicate Valid()
      reads this
    {
      |have| == |availability| == |priorities| == numPieces
    }

    /** A magnet link starts with no pieces and piece length zero. */
    constructor (numPieces: nat, pieceLength: nat, totalSize: nat)
      ensures Valid() && this.numPieces == numPieces && this.pieceLength == pieceLength && this.totalSize == totalSize
      ensures inProgress == map[]
      ensures forall i :: 0 <= i < numPieces ==> !have[i] && availability[i] == 0 && priorities[i] == Normal
    {
      this.numPieces, this.pieceLength, this.totalSize := numPieces, pieceLength, totalSize;
      have := seq(numPieces, _ => false);
      inProgress := map[];
      availability := seq(numPieces, _ => 0);
      priorities := seq(numPieces, _ => Normal);
    }

    /** Each piece gets the best priority of the wanted files that claim it, Skip if there
        is none; files beyond the end of the priority list count as unwanted here. Only a
        wanted file needs pieces to go to. */
    method ApplyFilePriorities(files: seq<FileInfo>, prios: seq<FilePriority>)
      requires Valid()
      requires (exists i :: 0 <= i < |files| && i < |prios| && prios[i] != Skip) ==> numPieces > 0 && pieceLength > 0
      modifies this`priorities
      ensures Valid()
      ensures forall k :: 0 <= k < numPieces ==>
        Assigned(files, prios, pieceLength, k, Min(|files|, |prios|), priorities[k])
    {
      hide Touches, IsBestClaim;
      priorities := seq(numPieces, _ => Skip);
      if pieceLength > 0 {
        forall k: nat ensures IsBestClaim(files, prios, pieceLength, k, 0, Skip) {
          NoClaim(files, prios, pieceLength, k);
        }
      }
      for i := 0 to Min(|files|, |prios|)
        invariant Valid()
        invariant forall k :: 0 <= k < numPieces ==> Assigned(files, prios, pieceLength, k, i, priorities[k])
      {
        ghost var before := priorities;
        if prios[i] != Skip {
          ApplyFile(files[i], prios[i]);
        }
        forall k | 0 <= k < numPieces ensures Assigned(files, prios, pieceLength, k, i + 1, priorities[k]) {
          if pieceLength > 0 {
            ClaimNext(files, prios, pieceLength, k, i, before[k]);
          }
        }
      }
    }

    /** The loop over the pieces of one wanted file. */
    method ApplyFile(file: FileInfo, prio: FilePriority)
      requires Valid() && numPieces > 0 && pieceLength > 0
      modifies this`priorities
      ensures Valid()
      ensures forall k :: 0 <= k < numPieces ==>
        priorities[k] == if Touches(file, pieceLength, k) then Better(old(priorities[k]), prio) else old(priorities[k])
    {
      hide Better, FirstPiece, LastPiece;
      var first, last := FirstPiece(file, pieceLength), LastPiece(file, pieceLength);
      var idx := first;
      while idx <= Min(last, numPieces - 1)
        invariant Valid() && first <= idx
        invariant forall k :: 0 <= k < numPieces ==>
          priorities[k]
          == if first <= k < idx && k <= last then Better(old(priorities[k]), prio) else old(priorities[k])
        decreases numPieces - idx
      {
        priorities := priorities[idx := Better(priorities[idx], prio)];
        idx := idx + 1;
      }
    }

    method MarkHavePiece(index: nat)
      requires Valid()
      modifies this`availability
      ensures Valid()
      ensures forall k :: 0 <= k < numPieces ==> availability[k] == old(availability[k]) + if k == index then 1 else 0
    {
      if index < |availability| {
        availability := availability[index := availability[index] + 1];
      }
    }

    /** The eligible pieces in index order. */
    method Candidates(bitfield: Bytes) returns (cs: seq<Candidate>)
      requires Valid()
      ensures ByIndex(cs)
      ensures forall c :: c in cs <==>
        Eligible(have, inProgress.Keys, priorities, bitfield, c.index)
        && c == CandidateAt(availability, priorities, c.index)
    {
      hide HasPiece;
      cs := [];
      for i := 0 to numPieces
        invariant ByIndex(cs)
        invariant forall c :: c in cs <==>
          c.index < i && Eligible(have, inProgress.Keys, priorities, bitfield, c.index)
          && c == CandidateAt(availability, priorities, c.index)
      {
        if have[i] || i in inProgress {
          continue;
        }
        if priorities[i] == Skip {
          continue;
        }
        if !HasPiece(bitfield, i) {
          continue;
        }
        assert forall k :: 0 <= k < |cs| ==> cs[k] in cs && cs[k].index < i;
        cs := cs + [Candidate(i, availability[i], priorities[i])];
      }
    }

    /** At most ten eligible pieces, none only if there is none: all of the best priority
        there is, and unless sequential within 2 of the rarest of that priority. They come
        in order (by index, or by rarity and then index), and an eligible piece of the
        class is passed over only for ten that come before it. */
    method SelectPiece(bitfield: Bytes, sequential: bool) returns (r: seq<nat>)
      requires Valid()
      ensures Selected(have, inProgress.Keys, availability, priorities, bitfield, sequential, r)
    {
      hide Eligible, Ordered, BestOf, TakeBest;
      var cs := Candidates(bitfield);
      if cs == [] {
        forall i | 0 <= i < numPieces ensures !Eligible(have, inProgress.Keys, priorities, bitfield, i) {
          assert CandidateAt(availability, priorities, i) !in cs;
        }
        return [];
      }
      ghost var byIndex := cs;
      cs := SortedBy(cs, sequential);
      SortOrders(byIndex, sequential);
      assert byIndex[0] in cs;
      var taken := TakeBest(cs, cs[0], sequential);
      TakesBest(cs, cs[0], sequential);
      TakesFirst(cs, sequential);
      TakenIsSelected(have, inProgress.Keys, availability, priorities, bitfield, sequential, cs, taken);
      r := Indices(taken);
    }

    /** The unfinished started piece of the peer's with the most blocks, whatever the order
        of the hash map. */
    method PickInProgressForPeer(bitfield: Bytes) returns (best: Option<nat>)
      requires Valid()
      ensures best.None? <==> forall i :: i in inProgress ==> !Helpful(inProgress[i], bitfield, i)
      ensures best.Some? ==> best.value in inProgress && Helpful(inProgress[best.value], bitfield, best.value)
      ensures best.Some? ==> forall i :: i in inProgress && Helpful(inProgress[i], bitfield, i) ==>
        inProgress[i].blocks <= inProgress[best.value].blocks
    {
      hide HasPiece;
      best := None;
      var rest := inProgress.Keys;
      while rest != {}
        invariant rest <= inProgress.Keys
        invariant best.None? ==> forall i :: i in inProgress.Keys - rest ==> !Helpful(inProgress[i], bitfield, i)
        invariant best.Some? ==> best.value in inProgress && Helpful(inProgress[best.value], bitfield, best.value)
        invariant best.Some? ==> forall i :: i in inProgress.Keys - rest && Helpful(inProgress[i], bitfield, i) ==>
          inProgress[i].blocks <= inProgress[best.value].blocks
        decreases rest
      {
        var idx :| idx in rest;
        rest := rest - {idx};
        if !HasPiece(bitfield, idx) {
          continue;
        }
        var filled := inProgress[idx].blocks;
        if filled >= inProgress[idx].numBlocks {
          continue;
        }
        if best.None? || filled > inProgress[best.value].blocks {
          best := Some(idx);
        }
      }
    }
  }


  /** Whether this peer can help to finish this started piece. */
  predicate Helpful(f: Filling, bitfield: Bytes, i: nat) {
    HasPiece(bitfield, i) && f.blocks < f.numBlocks
  }

  lemma NoClaim(files: seq<FileInfo>, prios: seq<FilePriority>, pieceLength: nat, k: nat)
    requires pieceLength > 0
    ensures IsBestClaim(files, prios, pieceLength, k, 0, Skip)
  {
  }

  /** The blocks an unfinished piece has and needs. */
  datatype Filling = Filling(blocks: nat, numBlocks: nat)

  function CandidateAt(availability: seq<nat>, priorities: seq<FilePriority>, i: nat): Candidate
    requires i < |availability| && i < |priorities|
  {
    Candidate(i, availability[i], priorities[i])
  }

  ghost predicate Selected(have: seq<bool>, inProgress: set<nat>, availability: seq<nat>, priorities: seq<FilePriority>,
                           bitfield: Bytes, sequential: bool, r: seq<nat>)
    requires |priorities| == |have| == |availability|
  {
    && |r| <= 10
    && (r == [] <==> forall i :: 0 <= i < |have| ==> !Eligible(have, inProgress, priorities, bitfield, i))
    && (forall k :: 0 <= k < |r| ==> Eligible(have, inProgress, priorities, bitfield, r[k]))
    && (forall j, k :: 0 <= j < k < |r| ==>
          Sooner(CandidateAt(availability, priorities, r[j]), CandidateAt(availability, priorities, r[k]), sequential))
    && forall i, k :: 0 <= i < |have| && Eligible(have, inProgress, priorities, bitfield, i) && 0 <= k < |r| ==>
         Favours(availability, priorities, sequential, r, i, k)
  }

  /** What choosing `r[k]` means against an eligible piece `i`. */
  ghost predicate Favours(availability: seq<nat>, priorities: seq<FilePriority>, sequential: bool, r: seq<nat>,
          i: nat, k: nat)
    requires k < |r| && r[k] < |availability| == |priorities| && i < |priorities| && r[0] < |priorities|
  {
    && PrioRank(priorities[r[k]]) <= PrioRank(priorities[i])
    && (!sequential && priorities[i] == priorities[r[k]] ==> availability[r[k]] <= availability[i] + 2)
    && (priorities[i] == priorities[r[k]] && (sequential || availability[i] <= availability[r[0]] + 2) && i !in r ==>
          && |r| == 10
          && Sooner(CandidateAt(availability, priorities, r[k]), CandidateAt(availability, priorities, i), sequential))
  }

  /** The first candidate in order is the best, and taking it and its class in order selects. */
  lemma TakenIsSelected(have: seq<bool>, inProgress: set<nat>, availability: seq<nat>, priorities: seq<FilePriority>,
                        bitfield: Bytes, sequential: bool, cs: seq<Candidate>, taken: seq<Candidate>)
    requires |priorities| == |have| == |availability| && cs != [] && Ordered(cs, sequential)
    requires forall c :: c in cs <==>
      Eligible(have, inProgress, priorities, bitfield, c.index) && c == CandidateAt(availability, priorities, c.index)
    requires BestOf(taken, cs, cs[0], sequential) && taken != [] && taken[0] == cs[0]
    ensures Selected(have, inProgress, availability, priorities, bitfield, sequential, Indices(taken))
  {
    hide HasPiece, Ordered, InBestClass, Sooner, PrioRank, Favours;
    var r := Indices(taken);
    assert cs[0] in cs;
    forall k | 0 <= k < |r|
      ensures taken[k] in cs && Eligible(have, inProgress, priorities, bitfield, r[k])
      ensures taken[k] == CandidateAt(availability, priorities, r[k])
    {
      assert taken[k] in taken;
    }
    forall i, k | 0 <= i < |have| && Eligible(have, inProgress, priorities, bitfield, i) && 0 <= k < |r|
      ensures Favours(availability, priorities, sequential, r, i, k)
    {
      var c := CandidateAt(availability, priorities, i);
      assert c in cs && taken[k] in taken;
      assert i !in r ==> c !in taken by {
        if c in taken {
          var m :| 0 <= m < |taken| && taken[m] == c;
          assert r[m] == i;
        }
      }
      TakenFavours(cs, taken, c, k, availability, priorities, sequential);
    }
    TakenInOrder(taken, sequential);
  }

  /** The choice in plain terms. Nothing of a lower priority is chosen while there is something
      of a higher one. In sequential order the lowest indices are chosen, ascending; otherwise
      the rarest pieces, and of equally rare ones the lowest indices, as long as no more than
      two further peers have them than have the rarest. */
  lemma SelectedMeans(have: seq<bool>, inProgress: set<nat>, availability: seq<nat>, priorities: seq<FilePriority>,
                      bitfield: Bytes, sequential: bool, r: seq<nat>, i: nat, k: nat)
    requires |priorities| == |have| == |availability|
    requires Selected(have, inProgress, availability, priorities, bitfield, sequential, r)
    requires k < |r| && i < |have| && !have[i] && i !in inProgress && priorities[i] != Skip && HasPiece(bitfield, i)
    ensures r[k] < |have| && !have[r[k]] && r[k] !in inProgress && HasPiece(bitfield, r[k])
    ensures priorities[r[k]] == Normal ==> priorities[i] != High
    ensures priorities[r[k]] == Low ==> priorities[i] == Low
    ensures priorities[r[k]] != Skip
    ensures sequential ==> forall j :: k < j < |r| ==> r[k] < r[j]
    ensures sequential && priorities[i] == priorities[r[k]] && i !in r ==> |r| == 10 && r[k] < i
    ensures !sequential ==>
      forall j :: k < j < |r| ==>
        availability[r[k]] < availability[r[j]] || (availability[r[k]] == availability[r[j]] && r[k] < r[j])
    ensures !sequential && priorities[i] == priorities[r[k]] ==> availability[r[k]] <= availability[i] + 2
    ensures !sequential && priorities[i] == priorities[r[k]] && i !in r && availability[i] <= availability[r[0]] + 2 ==>
      |r| == 10 && (availability[r[k]] < availability[i] || (availability[r[k]] == availability[i] && r[k] < i))
  {
    hide HasPiece;
    assert Eligible(have, inProgress, priorities, bitfield, i);
    assert Favours(availability, priorities, sequential, r, i, k);
    forall j | k < j < |r|
      ensures Sooner(CandidateAt(availability, priorities, r[k]), CandidateAt(availability, priorities, r[j]),
                     sequential)
      ensures priorities[r[j]] == priorities[r[k]]
    {
      assert Favours(availability, priorities, sequential, r, r[k], j);
      assert Favours(availability, priorities, sequential, r, r[j], k);
    }
  }

  /** The assigned priority in plain terms. */
  lemma AssignedMeans(files: seq<FileInfo>, prios: seq<FilePriority>, pieceLength: nat, k: nat, p: FilePriority)
    requires pieceLength > 0 && Assigned(files, prios, pieceLength, k, Min(|files|, |prios|), p)
    ensures p == High <==> ClaimedWith(files, prios, pieceLength, k, High)
    ensures p == Normal <==>
      ClaimedWith(files, prios, pieceLength, k, Normal) && !ClaimedWith(files, prios, pieceLength, k, High)
    ensures p == Skip <==>
      forall q :: q != Skip ==> !ClaimedWith(files, prios, pieceLength, k, q)
  {
    hide Touches;
    if p != Skip {
      assert ClaimedWith(files, prios, pieceLength, k, p);
    }
  }

  /** Some file of this priority claims the piece. */
  ghost predicate ClaimedWith(files: seq<FileInfo>, prios: seq<FilePriority>, pieceLength: nat, k: nat, q: FilePriority)
    requires pieceLength > 0
  {
    exists i :: 0 <= i < |files| && i < |prios| && prios[i] == q != Skip && Touches(files[i], pieceLength, k)
  }

  lemma TakenInOrder(taken: seq<Candidate>, sequential: bool)
    requires Ordered(taken, sequential)
    ensures forall j, k :: 0 <= j < k < |taken| ==> Sooner(taken[j], taken[k], sequential)
  {
  }

  lemma TakenFavours(cs: seq<Candidate>, taken: seq<Candidate>, c: Candidate, k: nat,
                     availability: seq<nat>, priorities: seq<FilePriority>, sequential: bool)
    requires cs != [] && Ordered(cs, sequential) && BestOf(taken, cs, cs[0], sequential)
    requires k < |taken| && taken[0] == cs[0] && c in cs && (c.index !in Indices(taken) ==> c !in taken)
    requires |availability| == |priorities|
    requires forall x :: x in cs ==> x.index < |priorities| && x == CandidateAt(availability, priorities, x.index)
    ensures cs[0].index < |priorities| && taken[k].index < |priorities| && c.index < |priorities|
    ensures Favours(availability, priorities, sequential, Indices(taken), c.index, k)
  {
    assert cs[0] in cs && taken[k] in taken && taken[k] in cs;
    FirstIsBest(cs, c, sequential);
  }

  lemma FirstIsBest(cs: seq<Candidate>, c: Candidate, sequential: bool)
    requires Ordered(cs, sequential) && c in cs
    ensures c == cs[0] || Sooner(cs[0], c, sequential)
  {
  }

  lemma {:induction false} TakesFirst(cs: seq<Candidate>, sequential: bool)
    requires cs != []
    ensures TakeBest(cs, cs[0], sequential) != [] && TakeBest(cs, cs[0], sequential)[0] == cs[0]
  {
  }
}
