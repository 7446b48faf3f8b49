/** The read cache under interleaving: when a published entry is what is on the disk, and which
    schedules keep the whole cache so. */
module PipelineCache {
  import opened Bytes
  import opened Layouts
  import Storage
  import opened Pipeline
  import opened PipelineFrames
  import opened PipelineSafety
  import opened PipelineRuns

  // ----- what a read has copied so far

  /** The copied bytes are what is on the disk now. */
  ghost predicate Fresh(t: Torrent, disk: Bytes, r: Reader) {
    r.buffer == Storage.Slice(disk, r.piece * t.pieceLength, |r.buffer|)
  }

  ghost predicate IsFilling(s: State, reader: nat) {
    reader in s.readers && s.readers[reader].phase.Filling?
  }

  /** The step changes a byte that the read has copied already. */
  ghost predicate ChangesCopied(t: Torrent, s: State, step: Step, reader: nat)
    requires t.Ok()
  {
    && IsFilling(s, reader)
    && var r := s.readers[reader];
       Storage.Slice(Apply(t, s, step).disk, r.piece * t.pieceLength, |r.buffer|)
       != Storage.Slice(s.disk, r.piece * t.pieceLength, |r.buffer|)
  }

  /** Where the copy differs from the disk, the disk has the right byte by now. */
  ghost predicate Lags(t: Torrent, content: Bytes, disk: Bytes, r: Reader) {
    forall k :: 0 <= k < |r.buffer| && r.buffer[k] != Storage.Slice(disk, r.piece * t.pieceLength, |r.buffer|)[k] ==>
      RightAt(content, disk, r.piece * t.pieceLength + k)
  }

  ghost predicate RightAt(content: Bytes, disk: Bytes, p: nat) {
    p < |disk| && p < |content| && disk[p] == content[p]
  }

  /** Bytes change to the right ones only. */
  ghost predicate ChangesToRight(content: Bytes, disk0: Bytes, disk1: Bytes) {
    |disk0| == |disk1| && forall p :: 0 <= p < |disk0| && disk0[p] != disk1[p] ==> RightAt(content, disk1, p)
  }

  lemma WritesRight(t: Torrent, content: Bytes, s: State, job: nat, n: nat)
    requires t.Ok() && Inv(t, content, s) && OnTarget(t, s, WriteSome(job, n))
    ensures ChangesToRight(content, s.disk, DoWriteSome(t, s, job, n).disk)
    ensures Writes(t, s, job, n) ==> OnlyPieceChanges(t, s.disk, DoWriteSome(t, s, job, n).disk, s.jobs[job].piece)
  {
    if job in s.jobs {
      var j := s.jobs[job];
      assert JobOk(t, content, s.disk, j);
      hide Inv, Landed, PieceGood;
      if Writes(t, s, job, n) {
        if n == 0 {
          EmptyWrite(t, s, job);
        } else {
          LandedIsPatched(t, s.disk, j, n);
        }
      }
    }
  }

  /** Nothing changes outside the piece. */
  ghost predicate OnlyPieceChanges(t: Torrent, disk0: Bytes, disk1: Bytes, i: nat) {
    && |disk0| == |disk1|
    && forall p :: 0 <= p < |disk0| && disk0[p] != disk1[p] ==>
      i * t.pieceLength <= p < i * t.pieceLength + t.pieceLength
  }

  lemma DiskOnlyByWrites(t: Torrent, s: State, step: Step)
    requires t.Ok() && !step.WriteSome?
    ensures Apply(t, s, step).disk == s.disk
  {
    hide Apply;
    if IsPeerStep(step) {
      PeerStepFrame(t, s, step);
    } else if IsJobStep(step) {
      JobStepFrame(t, s, step);
    } else if IsReaderStep(step) {
      ReaderStepFrame(t, s, step);
    } else {
      CacheEvictsFrame(t, s, step);
    }
  }

  /** A read in progress goes on as it was, or with more bytes copied from the disk. */
  ghost predicate GoesOn(t: Torrent, disk: Bytes, r0: Reader, r1: Reader) {
    && r1.piece == r0.piece && r0.buffer <= r1.buffer
    && r1.buffer[|r0.buffer|..]
       == Storage.Slice(disk, r0.piece * t.pieceLength + |r0.buffer|, |r1.buffer| - |r0.buffer|)
  }

  lemma FillGoesOn(t: Torrent, s: State, filler: nat, n: nat, reader: nat)
    requires t.Ok() && IsFilling(s, reader)
    ensures reader in DoFillSome(t, s, filler, n).readers
    ensures GoesOn(t, s.disk, s.readers[reader], DoFillSome(t, s, filler, n).readers[reader])
  {
    var r0, r1 := s.readers[reader], DoFillSome(t, s, filler, n).readers[reader];
    FilledReader(t, s, filler, n, reader);
    hide DoFillSome, GoesOn;
    if r1 == r0 {
      NothingCopied(t, s.disk, r0);
    } else {
      SomeCopied(t, s.disk, r0, n);
    }
  }

  /** What is copied goes behind what was copied before. */
  ghost function MoreCopied(t: Torrent, disk: Bytes, r: Reader, n: nat): Reader {
    r.(buffer := r.buffer + Storage.Slice(disk, r.piece * t.pieceLength + |r.buffer|, n))
  }

  lemma FilledReader(t: Torrent, s: State, filler: nat, n: nat, reader: nat)
    requires t.Ok() && IsFilling(s, reader)
    ensures reader in DoFillSome(t, s, filler, n).readers
    ensures var r0, r1 := s.readers[reader], DoFillSome(t, s, filler, n).readers[reader];
      r1 == r0 || r1 == MoreCopied(t, s.disk, r0, n)
  {
    hide Torrent.Size, Storage.Slice;
  }

  lemma NothingCopied(t: Torrent, disk: Bytes, r: Reader)
    ensures GoesOn(t, disk, r, r)
  {
  }

  lemma SomeCopied(t: Torrent, disk: Bytes, r: Reader, n: nat)
    ensures GoesOn(t, disk, r, MoreCopied(t, disk, r, n))
  {
    var more := Storage.Slice(disk, r.piece * t.pieceLength + |r.buffer|, n);
    assert (r.buffer + more)[|r.buffer|..] == more;
  }

  lemma OtherReadsGoOn(t: Torrent, s: State, step: Step, reader: nat)
    requires t.Ok() && IsReaderStep(step) && !step.FillSome? && step.reader == reader
    requires IsFilling(s, reader) && IsFilling(Apply(t, s, step), reader)
    ensures Apply(t, s, step).readers[reader] == s.readers[reader]
  {
    hide Torrent.Size;
    match step
    case BeginServe(_, _) =>
    case BeginRecheck(_) =>
    case Look(_) =>
    case Publish(_) =>
    case ReadFails(_) =>
    case Judge(_) =>
    case Conclude(_) =>
  }

  lemma FillingGoesOn(t: Torrent, s: State, step: Step, reader: nat)
    requires t.Ok() && IsFilling(s, reader) && IsFilling(Apply(t, s, step), reader)
    ensures GoesOn(t, s.disk, s.readers[reader], Apply(t, s, step).readers[reader])
  {
    if step.FillSome? {
      hide DoFillSome;
      FillGoesOn(t, s, step.reader, step.n, reader);
    } else {
      hide Apply;
      if IsPeerStep(step) {
        PeerStepFrame(t, s, step);
      } else if IsJobStep(step) {
        JobStepFrame(t, s, step);
      } else if !IsReaderStep(step) {
        CacheEvictsFrame(t, s, step);
      } else if step.reader == reader {
        OtherReadsGoOn(t, s, step, reader);
      } else {
        ReaderStepFrame(t, s, step);
      }
    }
  }

  lemma DiskChangesToRight(t: Torrent, content: Bytes, s: State, step: Step)
    requires t.Ok() && Inv(t, content, s) && OnTarget(t, s, step)
    ensures ChangesToRight(content, s.disk, Apply(t, s, step).disk)
  {
    hide Inv, OnTarget;
    if step.WriteSome? {
      hide DoWriteSome;
      WritesRight(t, content, s, step.job, step.n);
    } else {
      hide Apply;
      DiskOnlyByWrites(t, s, step);
    }
  }

  /** One step in the life of a read, in terms of the disk and the copy alone: it stays fresh
      exactly when no copied byte changes, and once stale it stays stale. */
  lemma CopyStep(t: Torrent, content: Bytes, disk0: Bytes, disk1: Bytes, r0: Reader, r1: Reader)
    requires ChangesToRight(content, disk0, disk1) && GoesOn(t, disk0, r0, r1) && Lags(t, content, disk0, r0)
    requires disk0 == disk1 || r0 == r1
    ensures Lags(t, content, disk1, r1)
    ensures Fresh(t, disk1, r1) <==>
      Fresh(t, disk0, r0)
      && Storage.Slice(disk1, r0.piece * t.pieceLength, |r0.buffer|)
         == Storage.Slice(disk0, r0.piece * t.pieceLength, |r0.buffer|)
  {
    var off, n := r0.piece * t.pieceLength, |r0.buffer|;
    if disk0 == disk1 {
      assert r1.buffer == r0.buffer + r1.buffer[n..];
      assert Storage.Slice(disk0, off, |r1.buffer|)
        == Storage.Slice(disk0, off, n) + Storage.Slice(disk0, off + n, |r1.buffer| - n);
    } else {
      var now, before := Storage.Slice(disk1, off, n), Storage.Slice(disk0, off, n);
      forall k | 0 <= k < n && r0.buffer[k] != before[k] ensures now[k] == before[k] {
        assert RightAt(content, disk0, off + k);
      }
      assert r0.buffer == before || exists k :: 0 <= k < n && r0.buffer[k] != before[k];
    }
  }

  lemma FreshStep(t: Torrent, content: Bytes, s: State, step: Step, reader: nat)
    requires t.Ok() && Inv(t, content, s) && OnTarget(t, s, step)
    requires IsFilling(s, reader) && IsFilling(Apply(t, s, step), reader)
    requires Lags(t, content, s.disk, s.readers[reader])
    ensures var s1 := Apply(t, s, step);
      && Lags(t, content, s1.disk, s1.readers[reader])
      && (Fresh(t, s1.disk, s1.readers[reader]) <==>
           Fresh(t, s.disk, s.readers[reader]) && !ChangesCopied(t, s, step, reader))
  {
    hide Apply, Inv, OnTarget, Fresh, Lags, GoesOn;
    FillingGoesOn(t, s, step, reader);
    DiskChangesToRight(t, content, s, step);
    if step.WriteSome? {
      JobStepFrame(t, s, step);
    } else {
      DiskOnlyByWrites(t, s, step);
    }
    var s1 := Apply(t, s, step);
    CopyStep(t, content, s.disk, s1.disk, s.readers[reader], s1.readers[reader]);
    SliceChanges(t, s, step, reader);
  }

  lemma SliceChanges(t: Torrent, s: State, step: Step, reader: nat)
    requires t.Ok() && IsFilling(s, reader)
    ensures ChangesCopied(t, s, step, reader) <==>
      var r := s.readers[reader];
      Storage.Slice(Apply(t, s, step).disk, r.piece * t.pieceLength, |r.buffer|)
      != Storage.Slice(s.disk, r.piece * t.pieceLength, |r.buffer|)
  {
    hide Apply;
  }

  // ----- a whole read

  ghost predicate FillingThroughout(t: Torrent, s: State, steps: seq<Step>, reader: nat)
    requires t.Ok()
    decreases |steps|
  {
    IsFilling(s, reader) && (steps != [] ==> FillingThroughout(t, Apply(t, s, steps[0]), steps[1..], reader))
  }

  /** Some write call of the schedule changes a byte the read has copied by then. */
  ghost predicate ChangedUnderneath(t: Torrent, s: State, steps: seq<Step>, reader: nat)
    requires t.Ok()
    decreases |steps|
  {
    && steps != []
    && (ChangesCopied(t, s, steps[0], reader) || ChangedUnderneath(t, Apply(t, s, steps[0]), steps[1..], reader))
  }

  lemma {:induction false} FreshExactly(t: Torrent, content: Bytes, s: State, steps: seq<Step>, reader: nat)
    requires t.Ok() && t.Identifies(content) && Inv(t, content, s) && AllOnTarget(t, s, steps)
    requires FillingThroughout(t, s, steps, reader) && Lags(t, content, s.disk, s.readers[reader])
    ensures IsFilling(Run(t, s, steps), reader)
    ensures var s1 := Run(t, s, steps);
      Fresh(t, s1.disk, s1.readers[reader]) <==>
      Fresh(t, s.disk, s.readers[reader]) && !ChangedUnderneath(t, s, steps, reader)
    decreases |steps|
  {
    hide Apply, Inv, OnTarget, Fresh, Lags, ChangesCopied;
    if steps != [] {
      StepKeeps(t, content, s, steps[0]);
      assert IsFilling(Apply(t, s, steps[0]), reader);
      FreshStep(t, content, s, steps[0], reader);
      FreshExactly(t, content, Apply(t, s, steps[0]), steps[1..], reader);
    }
  }

  ghost predicate FullyRead(t: Torrent, s: State, reader: nat)
    requires t.Ok()
  {
    IsFilling(s, reader) && |s.readers[reader].buffer| == t.Size(s.readers[reader].piece)
  }

  /** The put leaves an entry, and it is what is on the disk. */
  ghost predicate PutsDisk(t: Torrent, s: State, reader: nat)
    requires t.Ok() && reader in s.readers
  {
    var i, s1 := s.readers[reader].piece, DoPublish(t, s, reader);
    i in s1.cache && s1.cache[i] == Storage.Slice(s1.disk, i * t.pieceLength, t.Size(i))
  }

  lemma PutIsFresh(t: Torrent, s: State, reader: nat)
    requires t.Ok() && FullyRead(t, s, reader)
    ensures PutsDisk(t, s, reader) <==> Fresh(t, s.disk, s.readers[reader])
  {
    hide Torrent.Size;
  }

  /** A read that missed, has copied its piece and puts it into the cache: the entry is what is
      on the disk exactly when no write call changed a byte it had copied already. */
  lemma PublishedExactly(t: Torrent, content: Bytes, s: State, steps: seq<Step>, reader: nat)
    requires t.Ok() && t.Identifies(content) && Inv(t, content, s) && AllOnTarget(t, s, steps)
    requires FillingThroughout(t, s, steps, reader) && s.readers[reader].buffer == []
    requires FullyRead(t, Run(t, s, steps), reader)
    ensures PutsDisk(t, Run(t, s, steps), reader) <==> !ChangedUnderneath(t, s, steps, reader)
  {
    hide Run, Inv, AllOnTarget, FillingThroughout, ChangedUnderneath, PutsDisk;
    FillingNow(t, s, steps, reader);
    FreshExactly(t, content, s, steps, reader);
    PutIsFresh(t, Run(t, s, steps), reader);
  }

  lemma FillingNow(t: Torrent, s: State, steps: seq<Step>, reader: nat)
    requires t.Ok() && FillingThroughout(t, s, steps, reader)
    ensures IsFilling(s, reader)
  {
  }

  /** Only write calls for the same piece can change a copied byte. */
  lemma ChangersWriteThePiece(t: Torrent, content: Bytes, s: State, step: Step, reader: nat)
    requires t.Ok() && Inv(t, content, s) && OnTarget(t, s, step) && ChangesCopied(t, s, step, reader)
    ensures step.WriteSome? && step.job in s.jobs && s.jobs[step.job].piece == s.readers[reader].piece
  {
    var r := s.readers[reader];
    assert ReaderOk(t, content, s.disk, r);
    hide Inv, OnTarget, DoWriteSome;
    if !step.WriteSome? {
      hide Apply;
      DiskOnlyByWrites(t, s, step);
    } else {
      WritesRight(t, content, s, step.job, step.n);
      NoWriteNoChange(t, s, step.job, step.n);
      if Writes(t, s, step.job, step.n) {
        OtherPieceKeeps(t, s.disk, Apply(t, s, step).disk, s.jobs[step.job].piece, r.piece, |r.buffer|);
      }
    }
  }

  lemma NoWriteNoChange(t: Torrent, s: State, job: nat, n: nat)
    ensures !Writes(t, s, job, n) ==> DoWriteSome(t, s, job, n) == s
  {
  }

  lemma OtherPieceKeeps(t: Torrent, disk0: Bytes, disk1: Bytes, i: nat, j: nat, n: nat)
    requires OnlyPieceChanges(t, disk0, disk1, i) && n <= t.pieceLength
    ensures i != j ==>
      Storage.Slice(disk1, j * t.pieceLength, n) == Storage.Slice(disk0, j * t.pieceLength, n)
  {
    if i != j {
      Storage.PiecesDisjoint(i, j, t.pieceLength);
    }
  }

  // ----- the whole cache

  /** The job is in `write_piece` and may have written already. */
  predicate Begun(j: Job) {
    j.InWritePiece() && j.phase.done > 0
  }

  ghost predicate Underway(jobs: map<nat, Job>, i: nat) {
    exists id :: id in jobs && jobs[id].piece == i && Begun(jobs[id])
  }

  /** Every cached piece is what an uncached read would return now, unless a write of that
      very piece is under way. */
  ghost predicate CacheAgrees(t: Torrent, s: State)
    requires t.Ok()
  {
    forall i :: i in s.cache ==> EntryAgrees(t, s.disk, i, s.cache[i]) || Underway(s.jobs, i)
  }

  ghost predicate EntryAgrees(t: Torrent, disk: Bytes, i: nat, entry: Bytes)
    requires t.Ok()
  {
    entry == Storage.Slice(disk, i * t.pieceLength, t.Size(i))
  }

  ghost predicate ReadsFresh(t: Torrent, s: State) {
    forall id :: IsFilling(s, id) ==> Fresh(t, s.disk, s.readers[id])
  }

  /** No write call for a piece between a miss on it and the put, and no write that has begun
      is left without its eviction. */
  ghost predicate Calm(t: Torrent, s: State, step: Step) {
    match step
    case WriteSome(job, n) =>
      Writes(t, s, job, n) ==> forall id :: IsFilling(s, id) ==> s.readers[id].piece != s.jobs[job].piece
    case WriteFails(job) => job in s.jobs ==> !Begun(s.jobs[job])
    case _ => true
  }

  ghost predicate AllCalm(t: Torrent, s: State, steps: seq<Step>)
    requires t.Ok()
    decreases |steps|
  {
    steps != [] ==> Calm(t, s, steps[0]) && AllCalm(t, Apply(t, s, steps[0]), steps[1..])
  }

  /** Writes under way stay under way. */
  ghost predicate BegunStay(jobs0: map<nat, Job>, jobs1: map<nat, Job>) {
    forall id :: id in jobs0 && Begun(jobs0[id]) ==>
      id in jobs1 && Begun(jobs1[id]) && jobs1[id].piece == jobs0[id].piece
  }

  lemma UnderwayStays(jobs0: map<nat, Job>, jobs1: map<nat, Job>, i: nat)
    requires BegunStay(jobs0, jobs1) && Underway(jobs0, i)
    ensures Underway(jobs1, i)
  {
    var id :| id in jobs0 && jobs0[id].piece == i && Begun(jobs0[id]);
    assert Begun(jobs1[id]);
  }

  lemma PeersKeepBegun(s: State, s1: State)
    requires PeerFrame(s, s1)
    ensures BegunStay(s.jobs, s1.jobs)
  {
  }

  /** Only writing, failing and evicting touch a job in `write_piece`. */
  lemma WritersLeftAlone(t: Torrent, s: State, step: Step)
    requires t.Ok() && IsJobStep(step) && !step.Seek? && !step.WriteSome? && !step.WriteFails? && !step.Evict?
    requires step.job in s.jobs && s.jobs[step.job].InWritePiece()
    ensures Apply(t, s, step) == s
  {
    match step
    case WebFetched(_, _, _) =>
    case CheckHash(_) =>
    case LookAtHave(_) =>
    case Abort(_) =>
    case Unlist(_) =>
    case Flag(_) =>
  }

  lemma SeekKeepsBegun(t: Torrent, content: Bytes, s: State, job: nat, file: nat, handle: nat)
    requires t.Ok() && Inv(t, content, s)
    ensures DoSeek(t, s, job, file, handle).cache == s.cache
    ensures BegunStay(s.jobs, DoSeek(t, s, job, file, handle).jobs)
  {
    hide Inv;
    if job in s.jobs {
      if Seeks(t, s, job, file, handle) {
        if Storage.IsSkipped(t.priorities, file) {
        }
      }
    }
  }

  /** The steps of a job before and after its writing. */
  lemma OtherJobsKeepBegun(t: Torrent, s: State, step: Step)
    requires t.Ok() && IsJobStep(step) && !step.Seek? && !step.WriteSome? && !step.Evict? && Calm(t, s, step)
    ensures BegunStay(s.jobs, Apply(t, s, step).jobs)
  {
    hide Apply;
    OutsideStepFrame(t, s, step);
    if !step.WriteFails? && step.job in s.jobs && s.jobs[step.job].InWritePiece() {
      WritersLeftAlone(t, s, step);
    }
  }

  /** Nothing the cache is about has changed, and writes under way still are. */
  lemma UntouchedAgrees(t: Torrent, s: State, s1: State)
    requires t.Ok() && CacheAgrees(t, s) && ReadsFresh(t, s)
    requires s1.disk == s.disk && s1.cache == s.cache && s1.readers == s.readers && BegunStay(s.jobs, s1.jobs)
    ensures CacheAgrees(t, s1) && ReadsFresh(t, s1)
  {
    hide EntryAgrees, Underway, Fresh, BegunStay;
    forall i | i in s1.cache ensures EntryAgrees(t, s1.disk, i, s1.cache[i]) || Underway(s1.jobs, i) {
      if Underway(s.jobs, i) {
        UnderwayStays(s.jobs, s1.jobs, i);
      }
    }
    assert forall id :: IsFilling(s1, id) ==> IsFilling(s, id);
  }

  lemma EvictAgrees(t: Torrent, s: State, job: nat)
    requires t.Ok() && CacheAgrees(t, s) && ReadsFresh(t, s)
    ensures CacheAgrees(t, DoEvict(t, s, job)) && ReadsFresh(t, DoEvict(t, s, job))
  {
    hide EntryAgrees, Fresh, Pipeline.Written;
    var s1 := DoEvict(t, s, job);
    if job in s.jobs && Pipeline.Written(t, s.jobs[job]) {
      forall i | i in s1.cache ensures EntryAgrees(t, s1.disk, i, s1.cache[i]) || Underway(s1.jobs, i) {
        if Underway(s.jobs, i) {
          var id :| id in s.jobs && s.jobs[id].piece == i && Begun(s.jobs[id]);
          assert id != job && s1.jobs[id] == s.jobs[id];
        }
      }
      assert forall id :: IsFilling(s1, id) ==> IsFilling(s, id);
    }
  }

  /** After a write call the job has begun, or nothing has been written yet. */
  lemma WriteBegins(t: Torrent, s: State, job: nat, n: nat)
    requires Writes(t, s, job, n)
    ensures var s1 := DoWriteSome(t, s, job, n);
      && s1.cache == s.cache && s1.readers == s.readers && BegunStay(s.jobs, s1.jobs)
      && (n > 0 ==> Underway(s1.jobs, s.jobs[job].piece))
      && (n == 0 ==> s1.disk == s.disk)
  {
    var s1 := DoWriteSome(t, s, job, n);
    if n > 0 {
      assert job in s1.jobs && s1.jobs[job].piece == s.jobs[job].piece && Begun(s1.jobs[job]);
    }
  }

  /** The entries of other pieces are as before; the written piece is under way. */
  lemma EntryAfterWrite(t: Torrent, s: State, s1: State, i: nat, k: nat)
    requires t.Ok() && CacheAgrees(t, s) && k in s.cache && s1.cache == s.cache
    requires OnlyPieceChanges(t, s.disk, s1.disk, i) && BegunStay(s.jobs, s1.jobs)
    requires s1.disk == s.disk || Underway(s1.jobs, i)
    ensures EntryAgrees(t, s1.disk, k, s1.cache[k]) || Underway(s1.jobs, k)
  {
    hide BegunStay, Underway, OnlyPieceChanges;
    if Underway(s.jobs, k) {
      UnderwayStays(s.jobs, s1.jobs, k);
    } else if k != i {
      OtherPieceKeeps(t, s.disk, s1.disk, i, k, t.Size(k));
    }
  }

  lemma WriteAgrees(t: Torrent, content: Bytes, s: State, job: nat, n: nat)
    requires t.Ok() && Inv(t, content, s) && OnTarget(t, s, WriteSome(job, n))
    requires CacheAgrees(t, s) && ReadsFresh(t, s) && Calm(t, s, WriteSome(job, n))
    ensures CacheAgrees(t, DoWriteSome(t, s, job, n)) && ReadsFresh(t, DoWriteSome(t, s, job, n))
  {
    var s1 := DoWriteSome(t, s, job, n);
    WritesRight(t, content, s, job, n);
    NoWriteNoChange(t, s, job, n);
    if Writes(t, s, job, n) {
      hide DoWriteSome, Writes, BegunStay, Underway, EntryAgrees, OnlyPieceChanges;
      var i := s.jobs[job].piece;
      WriteBegins(t, s, job, n);
      forall k | k in s1.cache ensures EntryAgrees(t, s1.disk, k, s1.cache[k]) || Underway(s1.jobs, k) {
        EntryAfterWrite(t, s, s1, i, k);
      }
      forall id | IsFilling(s1, id) ensures Fresh(t, s1.disk, s1.readers[id]) {
        assert IsFilling(s, id) && Fresh(t, s.disk, s.readers[id]) && ReaderOk(t, content, s.disk, s.readers[id]);
        OtherPieceKeeps(t, s.disk, s1.disk, i, s.readers[id].piece, |s.readers[id].buffer|);
      }
    }
  }

  lemma PublishAgrees(t: Torrent, s: State, reader: nat)
    requires t.Ok() && CacheAgrees(t, s) && ReadsFresh(t, s)
    ensures CacheAgrees(t, DoPublish(t, s, reader))
  {
    hide Torrent.Size, Underway;
    if reader in s.readers && s.readers[reader].phase.Filling? {
      assert IsFilling(s, reader);
    }
  }

  /** No reader step but the put touches the cache. */
  lemma ReadersCache(t: Torrent, s: State, step: Step)
    requires t.Ok() && IsReaderStep(step) && !step.Publish?
    ensures Apply(t, s, step).cache == s.cache
  {
    hide Torrent.Size, DoChoose, DoStart, DoJoin, DoForceStart, DoClaim, DoDeliver, DoAssemble, DoLeave;
    hide DoWebFetched, DoCheckHash, DoLookAtHave, DoAbort, DoSeek, DoWriteSome, DoWriteFails, DoEvict, DoUnlist, DoFlag;
    match step
    case BeginServe(_, _) =>
    case BeginRecheck(_) =>
    case Look(_) =>
    case FillSome(_, _) =>
    case ReadFails(_) =>
    case Judge(_) =>
    case Conclude(_) =>
  }

  /** A read that was not filling and now is has copied nothing. */
  lemma NewFillsEmpty(t: Torrent, s: State, step: Step, reader: nat)
    requires t.Ok() && IsReaderStep(step) && !IsFilling(s, reader) && IsFilling(Apply(t, s, step), reader)
    ensures Apply(t, s, step).readers[reader].buffer == []
  {
    hide Torrent.Size, DoChoose, DoStart, DoJoin, DoForceStart, DoClaim, DoDeliver, DoAssemble, DoLeave;
    hide DoWebFetched, DoCheckHash, DoLookAtHave, DoAbort, DoSeek, DoWriteSome, DoWriteFails, DoEvict, DoUnlist, DoFlag;
    if step.reader != reader {
      hide Apply;
      ReaderStepFrame(t, s, step);
    } else if reader in s.readers {
      match s.readers[reader].phase
      case Looking =>
      case Finished =>
      case Failed =>
      case Confirming =>
      case Raising =>
      case Clearing =>
      case Dropping =>
    } else {
    }
  }

  lemma ReadersStayFresh(t: Torrent, s: State, step: Step)
    requires t.Ok() && ReadsFresh(t, s) && IsReaderStep(step)
    ensures ReadsFresh(t, Apply(t, s, step))
  {
    hide Apply, GoesOn;
    var s1 := Apply(t, s, step);
    ReaderStepFrame(t, s, step);
    forall id | IsFilling(s1, id) ensures Fresh(t, s1.disk, s1.readers[id]) {
      if IsFilling(s, id) {
        FillingGoesOn(t, s, step, id);
        GoesOnFresh(t, s.disk, s.readers[id], s1.readers[id]);
      } else {
        NewFillsEmpty(t, s, step, id);
      }
    }
  }

  lemma ReadersAgree(t: Torrent, s: State, step: Step)
    requires t.Ok() && CacheAgrees(t, s) && ReadsFresh(t, s) && IsReaderStep(step)
    ensures CacheAgrees(t, Apply(t, s, step)) && ReadsFresh(t, Apply(t, s, step))
  {
    hide Apply, EntryAgrees, Underway, ReadsFresh;
    ReadersStayFresh(t, s, step);
    ReaderStepFrame(t, s, step);
    if step.Publish? {
      PublishApplied(t, s, step.reader);
      PublishAgrees(t, s, step.reader);
    } else {
      ReadersCache(t, s, step);
    }
  }

  lemma PublishApplied(t: Torrent, s: State, reader: nat)
    requires t.Ok()
    ensures Apply(t, s, Publish(reader)) == DoPublish(t, s, reader)
  {
  }

  lemma GoesOnFresh(t: Torrent, disk: Bytes, r0: Reader, r1: Reader)
    requires GoesOn(t, disk, r0, r1) && Fresh(t, disk, r0)
    ensures Fresh(t, disk, r1)
  {
    var off, n := r0.piece * t.pieceLength, |r0.buffer|;
    assert r1.buffer == r0.buffer + r1.buffer[n..];
    assert Storage.Slice(disk, off, |r1.buffer|)
      == Storage.Slice(disk, off, n) + Storage.Slice(disk, off + n, |r1.buffer| - n);
  }

  lemma CalmStepAgrees(t: Torrent, content: Bytes, s: State, step: Step)
    requires t.Ok() && Inv(t, content, s) && OnTarget(t, s, step)
    requires CacheAgrees(t, s) && ReadsFresh(t, s) && Calm(t, s, step)
    ensures CacheAgrees(t, Apply(t, s, step)) && ReadsFresh(t, Apply(t, s, step))
  {
    hide CacheAgrees, ReadsFresh, BegunStay, Inv, OnTarget, Calm, DoSeek, DoWriteSome, DoEvict;
    if step.WriteSome? {
      WriteAgrees(t, content, s, step.job, step.n);
    } else if step.Evict? {
      EvictAgrees(t, s, step.job);
    } else if step.Seek? {
      SeekFrame(t, s, step.job, step.file, step.handle);
      SeekKeepsBegun(t, content, s, step.job, step.file, step.handle);
      UntouchedAgrees(t, s, Apply(t, s, step));
    } else {
      hide Apply;
      var s1 := Apply(t, s, step);
      if IsPeerStep(step) {
        PeerStepFrame(t, s, step);
        PeersKeepBegun(s, s1);
        UntouchedAgrees(t, s, s1);
      } else if IsJobStep(step) {
        OutsideStepFrame(t, s, step);
        OtherJobsKeepBegun(t, s, step);
        UntouchedAgrees(t, s, s1);
      } else if IsReaderStep(step) {
        ReadersAgree(t, s, step);
      } else {
        CacheEvictsFrame(t, s, step);
        LessCached(t, s, step.piece);
      }
    }
  }

  lemma LessCached(t: Torrent, s: State, piece: nat)
    requires t.Ok() && CacheAgrees(t, s) && ReadsFresh(t, s)
    ensures CacheAgrees(t, s.(cache := s.cache - {piece})) && ReadsFresh(t, s.(cache := s.cache - {piece}))
  {
    hide EntryAgrees, Underway, Fresh;
    assert forall id :: IsFilling(s.(cache := s.cache - {piece}), id) ==> IsFilling(s, id);
  }

  lemma {:induction false} CalmRunAgrees(t: Torrent, content: Bytes, s: State, steps: seq<Step>)
    requires t.Ok() && t.Identifies(content) && Inv(t, content, s) && AllOnTarget(t, s, steps)
    requires CacheAgrees(t, s) && ReadsFresh(t, s) && AllCalm(t, s, steps)
    ensures CacheAgrees(t, Run(t, s, steps))
    decreases |steps|
  {
    if steps != [] {
      hide Inv, OnTarget, CacheAgrees, ReadsFresh, Apply, Calm;
      CalmStepAgrees(t, content, s, steps[0]);
      StepKeeps(t, content, s, steps[0]);
      CalmRunAgrees(t, content, Apply(t, s, steps[0]), steps[1..]);
    }
  }

  /** After every schedule on target with no write call for a piece between a miss on it and
      the put, and no write left without its eviction, every cached piece is what is on the
      disk, unless a write of that piece is under way. */
  lemma CacheCoherent(t: Torrent, content: Bytes, s: State, steps: seq<Step>, i: nat)
    requires t.Ok() && t.Identifies(content) && Opened(t, content, s)
    requires AllOnTarget(t, s, steps) && AllCalm(t, s, steps)
    ensures var s1 := Run(t, s, steps);
      i in s1.cache && !Underway(s1.jobs, i) ==> s1.cache[i] == Storage.Slice(s1.disk, i * t.pieceLength, t.Size(i))
  {
    assert Inv(t, content, s) && CacheAgrees(t, s) && ReadsFresh(t, s);
    CalmRunAgrees(t, content, s, steps);
  }
}
