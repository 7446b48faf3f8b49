/** What the locks of the pipeline do not prevent: schedules that end badly, and exactly which
    steps are to blame. */
module PipelineRaces {
  import opened Bytes
  import opened Layouts
  import Storage
  import opened Pipeline
  import opened PipelineFrames
  import opened PipelineSafety
  import opened PipelineRuns

  // ----- present and in progress

  ghost predicate Disjoint(s: State) {
    forall i :: i in s.inProgress ==> !IsPresent(s, i)
  }

  /** A peer starts a piece that was absent when it was chosen and is present by now. */
  ghost predicate StartsPresent(t: Torrent, s: State, step: Step) {
    match step
    case StartPiece(peer, piece, cid) => StartsPiece(t, s, peer, piece, cid) && IsPresent(s, piece)
    case ForceStart(peer, piece, cid) =>
      StartsPiece(t, s, peer, piece, cid) && PeerOf(s, peer).endgame && IsPresent(s, piece)
    case _ => false
  }

  /** A verify task or recheck marks a piece that was listed again after it was unlisted. */
  ghost predicate MarksListed(s: State, step: Step) {
    match step
    case Flag(job) =>
      && job in s.jobs && s.jobs[job].phase.Flagging? && s.jobs[job].piece < |s.have|
      && s.jobs[job].piece in s.inProgress
    case Conclude(reader) =>
      && reader in s.readers && s.readers[reader].phase.Raising? && s.readers[reader].piece < |s.have|
      && s.readers[reader].piece in s.inProgress
    case _ => false
  }

  lemma StartOverlaps(t: Torrent, s: State, peer: nat, piece: nat, cid: nat)
    requires t.Ok() && Disjoint(s)
    ensures !Disjoint(DoStart(t, s, peer, piece, cid)) <==> StartsPiece(t, s, peer, piece, cid) && IsPresent(s, piece)
  {
    hide Torrent.Size;
    if StartsPiece(t, s, peer, piece, cid) {
      var s1 := DoStart(t, s, peer, piece, cid);
      assert piece in s1.inProgress && s1.have == s.have;
      assert forall i :: i in s1.inProgress ==> i == piece || i in s.inProgress;
    }
  }

  lemma FlagOverlaps(s: State, job: nat)
    requires Disjoint(s)
    ensures !Disjoint(DoFlag(s, job)) <==> MarksListed(s, Flag(job))
  {
    if job in s.jobs {
      if s.jobs[job].phase.Flagging? && s.jobs[job].piece < |s.have| {
        assert IsPresent(DoFlag(s, job), s.jobs[job].piece);
      }
    }
  }

  lemma ConcludeOverlaps(t: Torrent, s: State, reader: nat)
    requires Disjoint(s)
    ensures !Disjoint(DoConclude(t, s, reader)) <==> MarksListed(s, Conclude(reader))
  {
    if reader in s.readers {
      if s.readers[reader].piece < |s.have| {
        var s1 := DoConclude(t, s, reader);
        match s.readers[reader].phase
        case Confirming =>
        case Raising => assert IsPresent(s1, s.readers[reader].piece);
        case Clearing =>
        case Dropping =>
        case _ =>
      }
    }
  }

  /** A step makes present and in progress overlap exactly when a peer starts a piece that has
      become present since it was chosen, or when a piece is marked that has been listed again
      between the two locks of the marking. */
  lemma OverlapsExactly(t: Torrent, s: State, step: Step)
    requires t.Ok() && Disjoint(s)
    ensures !Disjoint(Apply(t, s, step)) <==> StartsPresent(t, s, step) || MarksListed(s, step)
  {
    hide Disjoint, StartsPiece, DoStart, DoFlag, DoConclude;
    match step
    case StartPiece(peer, piece, cid) => StartOverlaps(t, s, peer, piece, cid);
    case ForceStart(peer, piece, cid) => ForceOverlaps(t, s, peer, piece, cid);
    case Flag(job) => FlagOverlaps(s, job);
    case Conclude(reader) => ConcludeOverlaps(t, s, reader);
    case _ =>
      hide Apply;
      if IsPeerStep(step) {
        PeerStepFrame(t, s, step);
      } else if IsJobStep(step) {
        JobStepFrame(t, s, step);
      } else if IsReaderStep(step) {
        ReaderStepFrame(t, s, step);
      } else {
        CacheEvictsFrame(t, s, step);
      }
      NoNewsNoOverlap(s, Apply(t, s, step));
  }

  lemma NoNewsNoOverlap(s: State, s1: State)
    requires Disjoint(s) && NoNews(s, s1)
    ensures Disjoint(s1)
  {
  }

  lemma ForceOverlaps(t: Torrent, s: State, peer: nat, piece: nat, cid: nat)
    requires t.Ok() && Disjoint(s)
    ensures !Disjoint(DoForceStart(t, s, peer, piece, cid)) <==> StartsPresent(t, s, ForceStart(peer, piece, cid))
  {
    hide DoStart;
    StartOverlaps(t, s, peer, piece, cid);
  }

  // ----- running schedules by hand

  /** The steps lead through the states. */
  lemma {:induction false} Traced(t: Torrent, states: seq<State>, steps: seq<Step>)
    requires t.Ok() && |states| == |steps| + 1
    requires forall k :: 0 <= k < |steps| ==> Apply(t, states[k], steps[k]) == states[k + 1]
    ensures Run(t, states[0], steps) == states[|steps|]
    decreases |steps|
  {
    if steps != [] {
      hide Apply;
      assert Apply(t, states[0], steps[0]) == states[1];
      Traced(t, states[1..], steps[1..]);
    }
  }

  // ----- one file of one byte, whose only piece has the content 7

  function OneByte(): Torrent {
    Torrent([FileInfo(Ascii("f"), 1, 0)], [], 1, [[7]], b => b)
  }

  function Blank(): State {
    State([false], map[], map[], map[], map[], map[], [0], map[], map[])
  }

  lemma OneByteOk()
    ensures OneByte().Ok() && OneByte().Identifies([7]) && Opened(OneByte(), [7], Blank())
    ensures TotalSize(OneByte().files) == 1 && OneByte().Size(0) == 1 && !OneByte().Skipped(0)
  {
    assert OneByte().Piece([7], 0) == [7];
  }

  /** An undisturbed webseed fetch of the piece. */
  function FetchSteps(): seq<Step> {
    [WebFetched(0, 0, [7]), CheckHash(0), Seek(0, 0, 0), WriteSome(0, 1), Evict(0), Unlist(0), Flag(0)]
  }

  function OneJob(phase: JobPhase): map<nat, Job> {
    map[0 := Job(0, [7], [7], false, phase)]
  }

  /** Nothing is going on for the one piece. */
  predicate Quiet(s: State) {
    && s.have == [false] && s.jobs == map[] && s.disk == [0] && s.cursors == map[]
    && 0 !in s.cache && 0 !in s.inProgress
  }

  function Fetched(s: State): State {
    s.(have := [true], disk := [7], cursors := map[0 := Cursor(0, 1)])
  }

  function Fetching(s: State, k: nat): State {
    if k == 0 then s
    else if k == 1 then s.(jobs := OneJob(Hashing))
    else if k == 2 then s.(jobs := OneJob(Writing(0)))
    else if k == 3 then s.(jobs := OneJob(InFile(0, 0, 0)), cursors := map[0 := Cursor(0, 0)])
    else if k == 4 then s.(jobs := OneJob(Writing(1)), cursors := map[0 := Cursor(0, 1)], disk := [7])
    else if k == 5 then s.(jobs := OneJob(Unlisting), cursors := map[0 := Cursor(0, 1)], disk := [7])
    else if k == 6 then s.(jobs := OneJob(Flagging), cursors := map[0 := Cursor(0, 1)], disk := [7])
    else Fetched(s)
  }

  lemma FetchArrives(s: State)
    requires Quiet(s)
    ensures OneByte().Ok() && Apply(OneByte(), Fetching(s, 0), FetchSteps()[0]) == Fetching(s, 1)
  {
    OneByteOk();
  }

  lemma FetchVerifies(s: State)
    requires Quiet(s)
    ensures OneByte().Ok() && Apply(OneByte(), Fetching(s, 1), FetchSteps()[1]) == Fetching(s, 2)
  {
    OneByteOk();
  }

  lemma FetchSeeks(s: State)
    requires Quiet(s)
    ensures OneByte().Ok() && Apply(OneByte(), Fetching(s, 2), FetchSteps()[2]) == Fetching(s, 3)
  {
    OneByteOk();
  }

  lemma FetchWrites(s: State)
    requires Quiet(s)
    ensures OneByte().Ok() && Apply(OneByte(), Fetching(s, 3), FetchSteps()[3]) == Fetching(s, 4)
  {
    OneByteOk();
    assert Landed(OneByte(), [0], 0, 0, [7], 0, 1) == [7];
  }

  lemma FetchEvicts(s: State)
    requires Quiet(s)
    ensures OneByte().Ok() && Apply(OneByte(), Fetching(s, 4), FetchSteps()[4]) == Fetching(s, 5)
  {
    OneByteOk();
    assert s.cache - {0} == s.cache;
  }

  lemma FetchUnlists(s: State)
    requires Quiet(s)
    ensures OneByte().Ok() && Apply(OneByte(), Fetching(s, 5), FetchSteps()[5]) == Fetching(s, 6)
  {
    OneByteOk();
    assert s.inProgress - {0} == s.inProgress;
  }

  lemma FetchFlags(s: State)
    requires Quiet(s)
    ensures OneByte().Ok() && Apply(OneByte(), Fetching(s, 6), FetchSteps()[6]) == Fetching(s, 7)
  {
    OneByteOk();
  }

  lemma FetchSucceeds(s: State)
    requires Quiet(s)
    ensures OneByte().Ok() && Run(OneByte(), s, FetchSteps()) == Fetched(s)
  {
    hide Run, Fetching, Quiet;
    OneByteOk();
    var states := seq(8, k requires 0 <= k < 8 => Fetching(s, k));
    forall k | 0 <= k < 7 ensures Apply(OneByte(), states[k], FetchSteps()[k]) == states[k + 1] {
      if k == 0 {
        FetchArrives(s);
      } else if k == 1 {
        FetchVerifies(s);
      } else if k == 2 {
        FetchSeeks(s);
      } else if k == 3 {
        FetchWrites(s);
      } else if k == 4 {
        FetchEvicts(s);
      } else if k == 5 {
        FetchUnlists(s);
      } else {
        FetchFlags(s);
      }
    }
    Traced(OneByte(), states, FetchSteps());
    FetchingEnds(s);
  }

  lemma FetchingEnds(s: State)
    ensures Fetching(s, 0) == s && Fetching(s, 7) == Fetched(s)
  {
  }

  // ----- a cache entry from before a write

  function EarlySteps(): seq<Step> {
    [BeginRecheck(0), Look(0), FillSome(0, 1)]
  }

  function Early(k: nat): State {
    if k == 0 then Blank()
    else if k == 1 then Blank().(readers := map[0 := Reader(0, Recheck, Looking, [])])
    else if k == 2 then Blank().(readers := map[0 := Reader(0, Recheck, Filling, [])])
    else Blank().(readers := map[0 := Reader(0, Recheck, Filling, [0])])
  }

  /** Recheck misses the cache and reads the byte before anything is written. */
  lemma RecheckReadsEarly()
    ensures OneByte().Ok() && Run(OneByte(), Blank(), EarlySteps()) == Early(3)
  {
    hide Run;
    OneByteOk();
    assert [] + Storage.Slice([0], 0, 1) == [0];
    var states := [Early(0), Early(1), Early(2), Early(3)];
    assert Apply(OneByte(), Early(0), EarlySteps()[0]) == Early(1);
    assert Apply(OneByte(), Early(1), EarlySteps()[1]) == Early(2);
    assert Apply(OneByte(), Early(2), EarlySteps()[2]) == Early(3);
    Traced(OneByte(), states, EarlySteps());
  }

  lemma LatePut(s: State)
    requires s == Fetched(Early(3))
    ensures OneByte().Ok() && Apply(OneByte(), s, Publish(0)).cache == map[0 := [0]]
    ensures Apply(OneByte(), s, Publish(0)).have == [true] && Apply(OneByte(), s, Publish(0)).disk == [7]
  {
    OneByteOk();
  }

  /** The gap between a cache miss and the put: a schedule after which the piece is present and
      on the disk, yet the cache holds the bytes from before the write. */
  lemma CacheMayBeStale() returns (steps: seq<Step>)
    ensures OneByte().Ok() && Opened(OneByte(), [7], Blank())
    ensures var s := Run(OneByte(), Blank(), steps);
      s.have == [true] && s.disk == [7] && s.cache == map[0 := [0]]
  {
    hide Run, Apply;
    OneByteOk();
    RecheckReadsEarly();
    FetchSucceeds(Early(3));
    RunSplits(OneByte(), Blank(), EarlySteps(), FetchSteps());
    RunSplits(OneByte(), Blank(), EarlySteps() + FetchSteps(), [Publish(0)]);
    RunOne(OneByte(), Fetched(Early(3)), Publish(0));
    LatePut(Fetched(Early(3)));
    steps := EarlySteps() + FetchSteps() + [Publish(0)];
  }

  // ----- present and in progress

  /** A peer chooses the piece while it is absent, a webseed fetch completes it, and then the
      peer starts it. */
  lemma PresentAndInProgress() returns (steps: seq<Step>)
    ensures OneByte().Ok() && Opened(OneByte(), [7], Blank()) && Disjoint(Blank())
    ensures var s := Run(OneByte(), Blank(), steps); s.have == [true] && 0 in s.inProgress
  {
    hide Run;
    OneByteOk();
    var t, chosen := OneByte(), Blank().(peers := map[0 := Choosing({0}, false)]);
    assert Apply(t, Blank(), Choose(0, {0}, false)) == chosen;
    RunOne(t, Blank(), Choose(0, {0}, false));
    FetchSucceeds(chosen);
    RunSplits(t, Blank(), [Choose(0, {0}, false)], FetchSteps());
    RunSplits(t, Blank(), [Choose(0, {0}, false)] + FetchSteps(), [StartPiece(0, 0, 0)]);
    RunOne(t, Fetched(chosen), StartPiece(0, 0, 0));
    StartsLate(Fetched(chosen));
    steps := [Choose(0, {0}, false)] + FetchSteps() + [StartPiece(0, 0, 0)];
  }

  lemma StartsLate(s: State)
    requires s.have == [true] && s.peers == map[0 := Choosing({0}, false)] && s.inProgress == map[]
      && s.collectors == map[]
    ensures OneByte().Ok()
    ensures var s1 := Apply(OneByte(), s, StartPiece(0, 0, 0)); s1.have == [true] && 0 in s1.inProgress
  {
    OneByteOk();
  }

  // ----- two writers of one file

  /** One file of two pieces of one byte each. */
  function TwoBytes(): Torrent {
    Torrent([FileInfo(Ascii("f"), 2, 0)], [], 1, [[7], [8]], b => b)
  }

  function Fresh(): State {
    State([false, false], map[], map[], map[], map[], map[], [0, 0], map[], map[])
  }

  lemma TwoBytesOk()
    ensures TwoBytes().Ok() && TwoBytes().Identifies([7, 8]) && Opened(TwoBytes(), [7, 8], Fresh())
    ensures TotalSize(TwoBytes().files) == 2 && TwoBytes().Size(0) == 1 && TwoBytes().Size(1) == 1
    ensures !TwoBytes().Skipped(0) && !TwoBytes().Skipped(1)
  {
    assert TwoBytes().Piece([7, 8], 0) == [7];
    assert TwoBytes().Piece([7, 8], 1) == [8];
  }

  function RaceSteps(): seq<Step> {
    [WebFetched(0, 0, [7]), WebFetched(1, 1, [8]), CheckHash(0), CheckHash(1),
     Seek(0, 0, 0), Seek(1, 0, 0), WriteSome(0, 1), WriteSome(1, 1),
     Evict(0), Evict(1), Unlist(0), Unlist(1), Flag(0), Flag(1)]
  }

  function BothJobs(a: JobPhase, b: JobPhase): map<nat, Job> {
    map[0 := Job(0, [7], [7], false, a), 1 := Job(1, [8], [8], false, b)]
  }

  function Racing(a: JobPhase, b: JobPhase, disk: Bytes, pos: nat): State {
    Fresh().(jobs := BothJobs(a, b), disk := disk, cursors := map[0 := Cursor(0, pos)])
  }

  function Race(k: nat): State {
    if k == 0 then Fresh()
    else if k == 1 then Fresh().(jobs := map[0 := Job(0, [7], [7], false, Hashing)])
    else if k == 2 then Fresh().(jobs := BothJobs(Hashing, Hashing))
    else if k == 3 then Fresh().(jobs := BothJobs(Writing(0), Hashing))
    else if k == 4 then Fresh().(jobs := BothJobs(Writing(0), Writing(0)))
    else if k == 5 then Racing(InFile(0, 0, 0), Writing(0), [0, 0], 0)
    else if k == 6 then Racing(InFile(0, 0, 0), InFile(0, 0, 0), [0, 0], 1)
    else if k == 7 then Racing(Writing(1), InFile(0, 0, 0), [0, 7], 2)
    else if k == 8 then Racing(Writing(1), Writing(1), [0, 7], 3)
    else if k == 9 then Racing(Unlisting, Writing(1), [0, 7], 3)
    else if k == 10 then Racing(Unlisting, Unlisting, [0, 7], 3)
    else if k == 11 then Racing(Flagging, Unlisting, [0, 7], 3)
    else if k == 12 then Racing(Flagging, Flagging, [0, 7], 3)
    else if k == 13 then
      Racing(Flagging, Flagging, [0, 7], 3).(have := [true, false], jobs := map[1 := Job(1, [8], [8], false, Flagging)])
    else Racing(Flagging, Flagging, [0, 7], 3).(have := [true, true], jobs := map[])
  }

  lemma RaceVerifies(k: nat)
    requires k < 4
    ensures TwoBytes().Ok() && Apply(TwoBytes(), Race(k), RaceSteps()[k]) == Race(k + 1)
  {
    TwoBytesOk();
    if k == 0 {
    } else if k == 1 {
    } else if k == 2 {
    } else {
    }
  }

  lemma RaceSeeks(k: nat)
    requires 4 <= k < 6
    ensures TwoBytes().Ok() && Apply(TwoBytes(), Race(k), RaceSteps()[k]) == Race(k + 1)
  {
    TwoBytesOk();
    if k == 4 {
    } else {
    }
  }

  lemma RaceWrites(k: nat)
    requires 6 <= k < 8
    ensures TwoBytes().Ok() && Apply(TwoBytes(), Race(k), RaceSteps()[k]) == Race(k + 1)
  {
    TwoBytesOk();
    assert Landed(TwoBytes(), [0, 0], 0, 1, [7], 0, 1) == [0, 7];
    assert Landed(TwoBytes(), [0, 7], 0, 2, [8], 0, 1) == [0, 7];
    if k == 6 {
    } else {
    }
  }

  lemma RaceEvicts(k: nat)
    requires 8 <= k < 10
    ensures TwoBytes().Ok() && Apply(TwoBytes(), Race(k), RaceSteps()[k]) == Race(k + 1)
  {
    TwoBytesOk();
    if k == 8 {
    } else {
    }
  }

  lemma RaceUnlists(k: nat)
    requires 10 <= k < 12
    ensures TwoBytes().Ok() && Apply(TwoBytes(), Race(k), RaceSteps()[k]) == Race(k + 1)
  {
    TwoBytesOk();
    if k == 10 {
    } else {
    }
  }

  lemma RaceFlags(k: nat)
    requires 12 <= k < 14
    ensures TwoBytes().Ok() && Apply(TwoBytes(), Race(k), RaceSteps()[k]) == Race(k + 1)
  {
    TwoBytesOk();
    if k == 12 {
    } else {
    }
  }

  /** Two fetches seek in the file before either writes, so both write behind the second seek:
      both pieces end up marked as present, and neither is on the disk. */
  lemma SharedPositionRace() returns (steps: seq<Step>)
    ensures TwoBytes().Ok() && TwoBytes().Identifies([7, 8]) && Opened(TwoBytes(), [7, 8], Fresh())
    ensures !AllOnTarget(TwoBytes(), Fresh(), steps)
    ensures var s := Run(TwoBytes(), Fresh(), steps); s.have == [true, true] && s.disk == [0, 7]
  {
    hide Run, Race;
    TwoBytesOk();
    var states := seq(15, k requires 0 <= k < 15 => Race(k));
    forall k | 0 <= k < 14 ensures Apply(TwoBytes(), states[k], RaceSteps()[k]) == states[k + 1] {
      if k < 4 {
        RaceVerifies(k);
      } else if k < 6 {
        RaceSeeks(k);
      } else if k < 8 {
        RaceWrites(k);
      } else if k < 10 {
        RaceEvicts(k);
      } else if k < 12 {
        RaceUnlists(k);
      } else {
        RaceFlags(k);
      }
    }
    Traced(TwoBytes(), states, RaceSteps());
    RaceEnds();
    steps := RaceSteps();
    if AllOnTarget(TwoBytes(), Fresh(), steps) {
      HaveIsTrue(TwoBytes(), [7, 8], Fresh(), steps, 0, 0);
    }
  }

  lemma RaceEnds()
    ensures Race(0) == Fresh() && Race(14).have == [true, true] && Race(14).disk == [0, 7]
  {
  }
}
