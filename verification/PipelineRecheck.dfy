/** A recheck with nobody else at work (src/network.rs): afterwards exactly the pieces whose
    bytes on the disk have the right hash are present. */
module PipelineRecheck {
  import opened Bytes
  import opened Layouts
  import Storage
  import opened Pipeline

  /** The bytes on the disk where piece `i` belongs. */
  ghost function OnDisk(t: Torrent, disk: Bytes, i: nat): Bytes
    requires t.Ok()
  {
    Storage.Slice(disk, i * t.pieceLength, t.Size(i))
  }

  ghost predicate HashesRight(t: Torrent, disk: Bytes, i: nat)
    requires t.Ok() && i < t.NumPieces()
  {
    t.sha1(OnDisk(t, disk, i)) == t.hashes[i]
  }

  /** What is cached is what is on the disk. */
  ghost predicate CacheAgrees(t: Torrent, s: State)
    requires t.Ok()
  {
    forall i :: i in s.cache ==> s.cache[i] == OnDisk(t, s.disk, i)
  }

  /** A step of recheck, no read of which fails, or of the cache. */
  ghost predicate OfRecheck(step: Step, reader: nat) {
    match step
    case BeginRecheck(r) => r == reader
    case Look(r) => r == reader
    case FillSome(r, _) => r == reader
    case Publish(r) => r == reader
    case Judge(r) => r == reader
    case Conclude(r) => r == reader
    case CacheEvicts(_) => true
    case _ => false
  }

  ghost predicate OnlyRecheck(steps: seq<Step>, reader: nat) {
    forall k :: 0 <= k < |steps| ==> OfRecheck(steps[k], reader)
  }

  // ----- what holds while it is under way

  /** The first `n` pieces are present exactly if their hashes are right, and not in progress. */
  ghost predicate Judged(t: Torrent, have: seq<bool>, inProgress: map<nat, nat>, disk: Bytes, n: nat)
    requires t.Ok() && n <= |have| == t.NumPieces()
  {
    forall i :: 0 <= i < n ==> (have[i] <==> HashesRight(t, disk, i)) && i !in inProgress
  }

  ghost predicate AtPiece(t: Torrent, s: State, r: Reader)
    requires t.Ok()
  {
    && r.purpose.Recheck? && r.piece < t.NumPieces()
    && match r.phase
       case Looking => true
       case Filling =>
         && |r.buffer| <= t.Size(r.piece)
         && r.buffer == Storage.Slice(s.disk, r.piece * t.pieceLength, |r.buffer|)
       case Finished => r.buffer == OnDisk(t, s.disk, r.piece)
       case Failed => false
       case Confirming => HashesRight(t, s.disk, r.piece)
       case Raising => HashesRight(t, s.disk, r.piece) && r.piece !in s.inProgress
       case Clearing => !HashesRight(t, s.disk, r.piece)
       case Dropping => !HashesRight(t, s.disk, r.piece) && r.piece < |s.have| && !s.have[r.piece]
  }

  /** Nobody but the reader and the pieces is concerned. */
  ghost predicate Undisturbed(s0: State, s: State) {
    && |s.have| == |s0.have| && s.disk == s0.disk && s.cursors == s0.cursors
    && s.collectors == s0.collectors && s.peers == s0.peers && s.jobs == s0.jobs
  }

  ghost predicate Underway(t: Torrent, s0: State, s: State, reader: nat)
    requires t.Ok()
  {
    && Undisturbed(s0, s) && |s.have| == t.NumPieces() && CacheAgrees(t, s)
    && (reader in s.readers ==>
          && AtPiece(t, s, s.readers[reader])
          && Judged(t, s.have, s.inProgress, s.disk, s.readers[reader].piece))
    && (reader !in s.readers ==> Judged(t, s.have, s.inProgress, s.disk, t.NumPieces()))
  }

  lemma BeginsUnderway(t: Torrent, s: State, reader: nat)
    requires t.Ok() && |s.have| == t.NumPieces() && CacheAgrees(t, s) && reader !in s.readers
    ensures Underway(t, s, DoBeginRecheck(t, s, reader), reader)
  {
    hide HashesRight;
  }

  lemma LookKeeps(t: Torrent, s0: State, s: State, reader: nat)
    requires t.Ok() && Underway(t, s0, s, reader)
    ensures Underway(t, s0, DoLook(s, reader), reader)
  {
    hide HashesRight, Judged;
    if reader in s.readers && s.readers[reader].phase.Looking? {
      var s1 := DoLook(s, reader);
      assert AtPiece(t, s1, s1.readers[reader]);
    }
  }

  lemma FillKeeps(t: Torrent, s0: State, s: State, reader: nat, n: nat)
    requires t.Ok() && Underway(t, s0, s, reader)
    ensures Underway(t, s0, DoFillSome(t, s, reader, n), reader)
  {
    hide HashesRight, Judged;
    if reader in s.readers && s.readers[reader].phase.Filling? {
      var s1 := DoFillSome(t, s, reader, n);
      var r := s.readers[reader];
      SlicesJoin(s.disk, r.piece * t.pieceLength, |r.buffer|, n);
      assert AtPiece(t, s1, s1.readers[reader]);
    }
  }

  lemma SlicesJoin(disk: Bytes, off: nat, m: nat, n: nat)
    ensures Storage.Slice(disk, off, m) + Storage.Slice(disk, off + m, n) == Storage.Slice(disk, off, m + n)
  {
  }

  lemma PublishKeeps(t: Torrent, s0: State, s: State, reader: nat)
    requires t.Ok() && Underway(t, s0, s, reader)
    ensures Underway(t, s0, DoPublish(t, s, reader), reader)
  {
    hide HashesRight, Judged;
    if reader in s.readers && s.readers[reader].phase.Filling? {
      var s1 := DoPublish(t, s, reader);
      assert AtPiece(t, s1, s1.readers[reader]);
    }
  }

  lemma JudgeKeeps(t: Torrent, s0: State, s: State, reader: nat)
    requires t.Ok() && Underway(t, s0, s, reader)
    ensures Underway(t, s0, DoJudge(t, s, reader), reader)
  {
    hide Judged;
    if reader in s.readers && s.readers[reader].phase.Finished? {
      var s1 := DoJudge(t, s, reader);
      assert AtPiece(t, s1, s1.readers[reader]);
    }
  }

  lemma ConcludeKeeps(t: Torrent, s0: State, s: State, reader: nat)
    requires t.Ok() && Underway(t, s0, s, reader)
    ensures Underway(t, s0, DoConclude(t, s, reader), reader)
  {
    hide HashesRight, Judged;
    if reader in s.readers {
      match s.readers[reader].phase {
        case Confirming => UnlistsOne(t, s0, s, reader);
        case Raising => SettlesOne(t, s0, s, reader);
        case Clearing => ClearsOne(t, s0, s, reader);
        case Dropping => SettlesOne(t, s0, s, reader);
        case _ =>
      }
    }
  }

  lemma UnlistsOne(t: Torrent, s0: State, s: State, reader: nat)
    requires t.Ok() && Underway(t, s0, s, reader) && reader in s.readers && s.readers[reader].phase.Confirming?
    ensures Underway(t, s0, DoConclude(t, s, reader), reader)
  {
    hide HashesRight, Judged;
    var r, s1 := s.readers[reader], DoConclude(t, s, reader);
    StillJudged(t, s.have, s1.have, s.inProgress, s1.inProgress, s.disk, r.piece);
  }

  lemma ClearsOne(t: Torrent, s0: State, s: State, reader: nat)
    requires t.Ok() && Underway(t, s0, s, reader) && reader in s.readers && s.readers[reader].phase.Clearing?
    ensures Underway(t, s0, DoConclude(t, s, reader), reader)
  {
    hide HashesRight, Judged;
    var r, s1 := s.readers[reader], DoConclude(t, s, reader);
    StillJudged(t, s.have, s1.have, s.inProgress, s1.inProgress, s.disk, r.piece);
  }

  lemma SettlesOne(t: Torrent, s0: State, s: State, reader: nat)
    requires t.Ok() && Underway(t, s0, s, reader) && reader in s.readers
    requires s.readers[reader].phase.Raising? || s.readers[reader].phase.Dropping?
    ensures Underway(t, s0, DoConclude(t, s, reader), reader)
  {
    hide HashesRight, Judged;
    var r, s1 := s.readers[reader], DoConclude(t, s, reader);
    OneMoreJudged(t, s.have, s1.have, s.inProgress, s1.inProgress, s.disk, r.piece);
  }

  lemma StillJudged(t: Torrent, have: seq<bool>, have1: seq<bool>, inProgress: map<nat, nat>,
          inProgress1: map<nat, nat>, disk: Bytes, n: nat)
    requires t.Ok() && n <= |have| == |have1| == t.NumPieces() && Judged(t, have, inProgress, disk, n)
    requires forall i :: 0 <= i < n ==> have1[i] == have[i]
    requires forall i :: i in inProgress1 ==> i in inProgress
    ensures Judged(t, have1, inProgress1, disk, n)
  {
  }

  lemma OneMoreJudged(t: Torrent, have: seq<bool>, have1: seq<bool>, inProgress: map<nat, nat>,
          inProgress1: map<nat, nat>, disk: Bytes, n: nat)
    requires t.Ok() && n < |have| == |have1| == t.NumPieces() && Judged(t, have, inProgress, disk, n)
    requires forall i :: 0 <= i < n ==> have1[i] == have[i]
    requires forall i :: i in inProgress1 ==> i in inProgress
    requires (have1[n] <==> HashesRight(t, disk, n)) && n !in inProgress1
    ensures Judged(t, have1, inProgress1, disk, n + 1)
  {
  }

  lemma StepGoesOn(t: Torrent, s0: State, s: State, step: Step, reader: nat)
    requires t.Ok() && Underway(t, s0, s, reader) && OfRecheck(step, reader)
    ensures Underway(t, s0, Apply(t, s, step), reader)
  {
    hide Underway, DoLook, DoFillSome, DoPublish, DoJudge, DoConclude;
    match step
    case BeginRecheck(r) => AgainUnderway(t, s0, s, reader);
    case Look(r) => LookKeeps(t, s0, s, reader);
    case FillSome(r, n) => FillKeeps(t, s0, s, reader, n);
    case Publish(r) => PublishKeeps(t, s0, s, reader);
    case Judge(r) => JudgeKeeps(t, s0, s, reader);
    case Conclude(r) => ConcludeKeeps(t, s0, s, reader);
    case CacheEvicts(piece) => EvictionKeeps(t, s0, s, reader, piece);
  }

  lemma AgainUnderway(t: Torrent, s0: State, s: State, reader: nat)
    requires t.Ok() && Underway(t, s0, s, reader)
    ensures Underway(t, s0, DoBeginRecheck(t, s, reader), reader)
  {
    hide HashesRight;
  }

  lemma EvictionKeeps(t: Torrent, s0: State, s: State, reader: nat, piece: nat)
    requires t.Ok() && Underway(t, s0, s, reader)
    ensures Underway(t, s0, s.(cache := s.cache - {piece}), reader)
  {
    hide HashesRight;
    var s1 := s.(cache := s.cache - {piece});
    if reader in s.readers {
      assert AtPiece(t, s1, s1.readers[reader]);
    }
  }

  lemma {:induction false} RunGoesOn(t: Torrent, s0: State, s: State, steps: seq<Step>, reader: nat)
    requires t.Ok() && Underway(t, s0, s, reader) && OnlyRecheck(steps, reader)
    ensures Underway(t, s0, Run(t, s, steps), reader)
    decreases |steps|
  {
    hide Underway, Apply, OfRecheck;
    if steps != [] {
      StepGoesOn(t, s0, s, steps[0], reader);
      RunGoesOn(t, s0, Apply(t, s, steps[0]), steps[1..], reader);
    }
  }

  // ----- what it leaves

  /** A whole recheck: it has begun and is through. */
  ghost predicate WholeRecheck(t: Torrent, s: State, steps: seq<Step>, reader: nat)
    requires t.Ok()
  {
    && |steps| > 0 && steps[0] == BeginRecheck(reader) && OnlyRecheck(steps, reader)
    && reader !in s.readers && reader !in Run(t, s, steps).readers
  }

  /** Once recheck is through, a piece is present exactly if its bytes on the disk have the
      right hash, whatever was recorded before; none is in progress, and nothing else changed. */
  lemma RecheckFindsExactly(t: Torrent, s: State, steps: seq<Step>, reader: nat, i: nat)
    requires t.Ok() && |s.have| == |t.hashes| && WholeRecheck(t, s, steps, reader) && i < |t.hashes|
    requires forall k :: k in s.cache ==> s.cache[k] == Storage.Slice(s.disk, k * t.pieceLength, t.Size(k))
    ensures var s1 := Run(t, s, steps);
      && |s1.have| == |t.hashes|
      && (s1.have[i] <==> t.sha1(Storage.Slice(s.disk, i * t.pieceLength, t.Size(i))) == t.hashes[i])
      && i !in s1.inProgress
      && s1.disk == s.disk && s1.jobs == s.jobs && s1.peers == s.peers && s1.collectors == s.collectors
  {
    BeginsUnderway(t, s, reader);
    RunGoesOn(t, s, DoBeginRecheck(t, s, reader), steps[1..], reader);
    assert Run(t, s, steps) == Run(t, DoBeginRecheck(t, s, reader), steps[1..]);
    assert Underway(t, s, Run(t, s, steps), reader);
  }

  /** So it keeps every piece whose true bytes are there, and loses every other one. */
  lemma RecheckFindsContent(t: Torrent, content: Bytes, s: State, steps: seq<Step>, reader: nat, i: nat)
    requires t.Ok() && |s.have| == |t.hashes| && WholeRecheck(t, s, steps, reader) && i < |t.hashes|
    requires s.cache == map[]
    requires t.Identifies(content) && t.sha1(t.Piece(content, i)) == t.hashes[i]
    ensures var s1 := Run(t, s, steps);
      && |s1.have| == |t.hashes|
      && (s1.have[i] <==>
            Storage.Slice(s.disk, i * t.pieceLength, t.Size(i)) == Storage.Slice(content, i * t.pieceLength, t.Size(i)))
  {
    hide Run;
    RecheckFindsExactly(t, s, steps, reader, i);
  }

  // ----- it does get through

  /** The steps for one piece; if the piece is cached, the second and third do nothing. */
  ghost function Round(t: Torrent, reader: nat, i: nat): seq<Step>
    requires t.Ok()
  {
    [Look(reader), FillSome(reader, t.Size(i)), Publish(reader), Judge(reader), Conclude(reader), Conclude(reader)]
  }

  ghost function Rounds(t: Torrent, reader: nat, n: nat): seq<Step>
    requires t.Ok()
  {
    if n == 0 then [BeginRecheck(reader)] else Rounds(t, reader, n - 1) + Round(t, reader, n - 1)
  }

  /** The reader is about to look at piece `i`, or is through. */
  ghost predicate ComesTo(t: Torrent, s: State, reader: nat, i: nat)
    requires t.Ok()
  {
    && |s.have| == t.NumPieces() && i <= t.NumPieces()
    && if i < t.NumPieces() then reader in s.readers && s.readers[reader] == Reader(i, Recheck, Looking, [])
       else reader !in s.readers
  }

  lemma RunSix(t: Torrent, s: State, a: Step, b: Step, c: Step, d: Step, e: Step, f: Step)
    requires t.Ok()
    ensures Run(t, s, [a, b, c, d, e, f])
      == Apply(t, Apply(t, Apply(t, Apply(t, Apply(t, Apply(t, s, a), b), c), d), e), f)
  {
    hide Run, Apply;
    RunFour(t, s, a, b, c, d);
    RunLast(t, s, [a, b, c, d], e);
    RunLast(t, s, [a, b, c, d, e], f);
    assert [a, b, c, d] + [e] == [a, b, c, d, e];
    assert [a, b, c, d, e] + [f] == [a, b, c, d, e, f];
  }

  lemma RoundMovesOn(t: Torrent, s: State, reader: nat, i: nat)
    requires t.Ok() && ComesTo(t, s, reader, i) && i < t.NumPieces()
    ensures ComesTo(t, Run(t, s, Round(t, reader, i)), reader, i + 1)
  {
    hide Run, ComesTo, DoLook, DoFillSome, DoPublish, DoJudge, DoConclude;
    RunSix(t, s, Look(reader), FillSome(reader, t.Size(i)), Publish(reader), Judge(reader), Conclude(reader),
           Conclude(reader));
    PieceMovesOn(t, s, reader, i);
  }

  lemma PieceMovesOn(t: Torrent, s: State, reader: nat, i: nat)
    requires t.Ok() && ComesTo(t, s, reader, i) && i < t.NumPieces()
    ensures var s2 := DoFillSome(t, DoLook(s, reader), reader, t.Size(i));
      var s4 := DoJudge(t, DoPublish(t, s2, reader), reader);
      ComesTo(t, DoConclude(t, DoConclude(t, s4, reader), reader), reader, i + 1)
  {
    hide ComesTo, DoLook, DoFillSome, DoPublish, DoJudge, DoConclude;
    var s1 := DoLook(s, reader);
    var s2 := DoFillSome(t, s1, reader, t.Size(i));
    var s3 := DoPublish(t, s2, reader);
    var s4 := DoJudge(t, s3, reader);
    Looks(t, s, reader, i);
    Fills(t, s1, reader, i);
    Publishes(t, s2, reader, i);
    Judges(t, s3, reader, i);
    Concludes(t, s4, reader, i);
    ConcludesAgain(t, DoConclude(t, s4, reader), reader, i);
  }

  ghost predicate Rechecking(t: Torrent, s: State, reader: nat, i: nat) {
    && |s.have| == t.NumPieces() && i < t.NumPieces()
    && reader in s.readers && s.readers[reader].piece == i && s.readers[reader].purpose.Recheck?
  }

  lemma Looks(t: Torrent, s: State, reader: nat, i: nat)
    requires t.Ok() && ComesTo(t, s, reader, i) && i < t.NumPieces()
    ensures var s1 := DoLook(s, reader);
      && Rechecking(t, s1, reader, i)
      && (s1.readers[reader].phase.Finished? ||
          (s1.readers[reader].phase.Filling? && s1.readers[reader].buffer == []))
  {
  }

  lemma Fills(t: Torrent, s: State, reader: nat, i: nat)
    requires t.Ok() && Rechecking(t, s, reader, i)
    requires s.readers[reader].phase.Finished? || (s.readers[reader].phase.Filling? && s.readers[reader].buffer == [])
    ensures var s1 := DoFillSome(t, s, reader, t.Size(i));
      && Rechecking(t, s1, reader, i)
      && (s1.readers[reader].phase.Finished? ||
          (s1.readers[reader].phase.Filling? && |s1.readers[reader].buffer| == t.Size(i)))
  {
  }

  lemma Publishes(t: Torrent, s: State, reader: nat, i: nat)
    requires t.Ok() && Rechecking(t, s, reader, i)
    requires s.readers[reader].phase.Finished? ||
      (s.readers[reader].phase.Filling? && |s.readers[reader].buffer| == t.Size(i))
    ensures var s1 := DoPublish(t, s, reader); Rechecking(t, s1, reader, i) && s1.readers[reader].phase.Finished?
  {
  }

  lemma Judges(t: Torrent, s: State, reader: nat, i: nat)
    requires t.Ok() && Rechecking(t, s, reader, i) && s.readers[reader].phase.Finished?
    ensures var s1 := DoJudge(t, s, reader);
      Rechecking(t, s1, reader, i) && (s1.readers[reader].phase.Confirming? || s1.readers[reader].phase.Clearing?)
  {
  }

  lemma Concludes(t: Torrent, s: State, reader: nat, i: nat)
    requires t.Ok() && Rechecking(t, s, reader, i)
    requires s.readers[reader].phase.Confirming? || s.readers[reader].phase.Clearing?
    ensures var s1 := DoConclude(t, s, reader);
      Rechecking(t, s1, reader, i) && (s1.readers[reader].phase.Raising? || s1.readers[reader].phase.Dropping?)
  {
  }

  lemma ConcludesAgain(t: Torrent, s: State, reader: nat, i: nat)
    requires t.Ok() && Rechecking(t, s, reader, i)
    requires s.readers[reader].phase.Raising? || s.readers[reader].phase.Dropping?
    ensures ComesTo(t, DoConclude(t, s, reader), reader, i + 1)
  {
  }

  lemma RecheckStarts(t: Torrent, s: State, reader: nat)
    requires t.Ok() && |s.have| == t.NumPieces() && reader !in s.readers
    ensures ComesTo(t, Run(t, s, [BeginRecheck(reader)]), reader, 0)
  {
    RunOne(t, s, BeginRecheck(reader));
  }

  lemma {:induction false} RoundsComeTo(t: Torrent, s: State, reader: nat, n: nat)
    requires t.Ok() && |s.have| == t.NumPieces() && reader !in s.readers && n <= t.NumPieces()
    ensures OnlyRecheck(Rounds(t, reader, n), reader)
    ensures |Rounds(t, reader, n)| > 0 && Rounds(t, reader, n)[0] == BeginRecheck(reader)
    ensures ComesTo(t, Run(t, s, Rounds(t, reader, n)), reader, n)
  {
    hide Run, Apply;
    if n == 0 {
      RecheckStarts(t, s, reader);
    } else {
      RoundsComeTo(t, s, reader, n - 1);
      RunSplits(t, s, Rounds(t, reader, n - 1), Round(t, reader, n - 1));
      RoundMovesOn(t, Run(t, s, Rounds(t, reader, n - 1)), reader, n - 1);
    }
  }

  /** With nobody else at work, one round for every piece is a whole recheck. */
  lemma RecheckGetsThrough(t: Torrent, s: State, reader: nat)
    requires t.Ok() && |s.have| == t.NumPieces() && reader !in s.readers
    ensures WholeRecheck(t, s, Rounds(t, reader, t.NumPieces()), reader)
  {
    hide Run;
    RoundsComeTo(t, s, reader, t.NumPieces());
  }

  // ----- a read for a peer

  /** With nobody else at work a piece that is present is served from the disk, and is cached
      then; one that is not present is not served. */
  lemma ServedFromDisk(t: Torrent, s: State, reader: nat, i: nat)
    requires t.Ok() && reader !in s.readers && i < |s.have|
    requires forall k :: k in s.cache ==> s.cache[k] == OnDisk(t, s.disk, k)
    ensures var s1 := Run(t, s, [BeginServe(reader, i), Look(reader), FillSome(reader, t.Size(i)), Publish(reader)]);
      && s1.have == s.have && s1.disk == s.disk && s1.inProgress == s.inProgress
      && (s.have[i] ==>
            && reader in s1.readers && s1.readers[reader].phase.Finished? && i in s1.cache
            && s1.readers[reader].buffer == Storage.Slice(s.disk, i * t.pieceLength, t.Size(i)))
      && (!s.have[i] ==> s1 == s)
  {
    hide Run, Apply, DoBeginServe, DoLook, DoFillSome, DoPublish, CacheAgrees;
    RunServe(t, s, reader, i);
    ServeBegins(s, reader, i);
    if s.have[i] {
      ServedRead(t, DoBeginServe(s, reader, i), reader, i);
    } else {
      NothingServed(t, s, reader);
    }
  }

  lemma RunServe(t: Torrent, s: State, reader: nat, i: nat)
    requires t.Ok()
    ensures Run(t, s, [BeginServe(reader, i), Look(reader), FillSome(reader, t.Size(i)), Publish(reader)])
      == DoPublish(t, DoFillSome(t, DoLook(DoBeginServe(s, reader, i), reader), reader, t.Size(i)), reader)
  {
    hide Run, DoBeginServe, DoLook, DoFillSome, DoPublish;
    RunFour(t, s, BeginServe(reader, i), Look(reader), FillSome(reader, t.Size(i)), Publish(reader));
  }

  lemma RunFour(t: Torrent, s: State, a: Step, b: Step, c: Step, d: Step)
    requires t.Ok()
    ensures Run(t, s, [a, b, c, d]) == Apply(t, Apply(t, Apply(t, Apply(t, s, a), b), c), d)
  {
    hide Run, Apply;
    RunOne(t, s, a);
    RunLast(t, s, [a], b);
    RunLast(t, s, [a, b], c);
    RunLast(t, s, [a, b, c], d);
    assert [a] + [b] == [a, b] && [a, b] + [c] == [a, b, c] && [a, b, c] + [d] == [a, b, c, d];
  }

  lemma ServeBegins(s: State, reader: nat, i: nat)
    requires reader !in s.readers && i < |s.have|
    ensures DoBeginServe(s, reader, i)
      == if s.have[i] then s.(readers := s.readers[reader := Reader(i, Serve, Looking, [])]) else s
  {
  }

  lemma NothingServed(t: Torrent, s: State, reader: nat)
    requires t.Ok() && reader !in s.readers
    ensures forall n :: DoFillSome(t, s, reader, n) == s
    ensures DoLook(s, reader) == s && DoPublish(t, s, reader) == s
  {
  }

  lemma ServedRead(t: Torrent, s: State, reader: nat, i: nat)
    requires t.Ok() && reader in s.readers && s.readers[reader] == Reader(i, Serve, Looking, [])
    requires forall k :: k in s.cache ==> s.cache[k] == OnDisk(t, s.disk, k)
    ensures var s1 := DoPublish(t, DoFillSome(t, DoLook(s, reader), reader, t.Size(i)), reader);
      && s1.have == s.have && s1.disk == s.disk && s1.inProgress == s.inProgress
      && reader in s1.readers && s1.readers[reader].phase.Finished? && i in s1.cache
      && s1.readers[reader].buffer == OnDisk(t, s.disk, i)
  {
    hide Storage.Slice;
    if i in s.cache {
      var r := Reader(i, Serve, Finished, s.cache[i]);
      assert DoLook(s, reader) == s.(readers := s.readers[reader := r]);
    } else {
      var buffer := Storage.Slice(s.disk, i * t.pieceLength, t.Size(i));
      var s1 := DoLook(s, reader);
      assert s1.readers[reader] == Reader(i, Serve, Filling, []);
      var s2 := DoFillSome(t, s1, reader, t.Size(i));
      assert [] + buffer == buffer;
      assert s2.readers[reader] == Reader(i, Serve, Filling, buffer) && s2.cache == s.cache && s2.disk == s.disk;
    }
  }
}
