/** Whole schedules of the pipeline: pieces marked as present are on the disk as long as every
    write call finds its file's position where its job left it. */
module PipelineRuns {
  import opened Bytes
  import opened Layouts
  import Storage
  import opened Pipeline
  import opened PipelineFrames
  import opened PipelineSafety

  // ----- schedules on target

  /** Every write call of the schedule finds the position where its job left it. */
  ghost predicate AllOnTarget(t: Torrent, s: State, steps: seq<Step>)
    requires t.Ok()
    decreases |steps|
  {
    steps != [] ==> OnTarget(t, s, steps[0]) && AllOnTarget(t, Apply(t, s, steps[0]), steps[1..])
  }

  /** The invariant holds before, between and after the steps. */
  ghost predicate InvThroughout(t: Torrent, content: Bytes, s: State, steps: seq<Step>)
    requires t.Ok()
    decreases |steps|
  {
    Inv(t, content, s) && (steps != [] ==> InvThroughout(t, content, Apply(t, s, steps[0]), steps[1..]))
  }

  lemma {:induction false} OnTargetKeeps(t: Torrent, content: Bytes, s: State, steps: seq<Step>)
    requires t.Ok() && t.Identifies(content) && Inv(t, content, s) && AllOnTarget(t, s, steps)
    ensures InvThroughout(t, content, s, steps) && Inv(t, content, Run(t, s, steps))
    decreases |steps|
  {
    hide Inv, OnTarget, Apply;
    if steps != [] {
      StepKeeps(t, content, s, steps[0]);
      OnTargetKeeps(t, content, Apply(t, s, steps[0]), steps[1..]);
    }
  }

  /** A session that has just been opened: nobody is connected, no file is open, the cache is
      empty, and the pieces recorded as present are on the disk. */
  ghost predicate Opened(t: Torrent, content: Bytes, s: State)
    requires t.Ok()
  {
    && s.inProgress == map[] && s.collectors == map[] && s.peers == map[]
    && s.jobs == map[] && s.readers == map[] && s.cursors == map[] && s.cache == map[]
    && |s.disk| == |content| == TotalSize(t.files)
    && HaveOk(t, content, s.disk, s.have)
  }

  lemma OpenedRun(t: Torrent, content: Bytes, s: State, steps: seq<Step>)
    requires t.Ok() && t.Identifies(content) && Opened(t, content, s) && AllOnTarget(t, s, steps)
    ensures Inv(t, content, Run(t, s, steps))
  {
    assert Inv(t, content, s);
    OnTargetKeeps(t, content, s, steps);
  }

  /** After every schedule on target, a piece marked as present is on the disk. */
  lemma HaveIsTrue(t: Torrent, content: Bytes, s: State, steps: seq<Step>, i: nat, p: nat)
    requires t.Ok() && t.Identifies(content) && Opened(t, content, s) && AllOnTarget(t, s, steps)
    ensures var s1 := Run(t, s, steps);
      |s1.disk| == |content|
      && (i < |s1.have| && s1.have[i] && InPiece(t, i, p) && p < |content| && !t.Skipped(p) ==>
        s1.disk[p] == content[p])
  {
    OpenedRun(t, content, s, steps);
    var s1 := Run(t, s, steps);
    if i < |s1.have| && s1.have[i] && InPiece(t, i, p) {
      assert PieceGood(t, content, s1.disk, i, t.Size(i));
      assert ByteGood(t, content, s1.disk, p);
    }
  }

  ghost predicate InPiece(t: Torrent, i: nat, p: nat)
    requires t.Ok()
  {
    i * t.pieceLength <= p < i * t.pieceLength + t.Size(i)
  }

  ghost predicate AllPresent(s: State) {
    forall i :: 0 <= i < |s.have| ==> s.have[i]
  }

  lemma ByteOfCompleteDownload(t: Torrent, content: Bytes, s: State, steps: seq<Step>, p: nat)
    requires t.Ok() && t.Identifies(content) && Opened(t, content, s) && AllOnTarget(t, s, steps)
    requires SumOfSizes(t.NumPieces(), t.pieceLength, |content|, t.NumPieces()) == |content|
    requires forall i :: 0 <= i < |t.files| ==> !Storage.IsSkipped(t.priorities, i)
    ensures |Run(t, s, steps).disk| == |content|
    ensures AllPresent(Run(t, s, steps)) && p < |content| ==> Run(t, s, steps).disk[p] == content[p]
  {
    OpenedRun(t, content, s, steps);
    if AllPresent(Run(t, s, steps)) && p < |content| {
      var i := PieceOfPosition(t.NumPieces(), t.pieceLength, |content|, t.NumPieces(), p);
      HaveIsTrue(t, content, s, steps, i, p);
    }
  }

  /** After every schedule on target that leaves every piece present, with no file skipped,
      the files are the content. */
  lemma CompleteDownloadIsContent(t: Torrent, content: Bytes, s: State, steps: seq<Step>)
    requires t.Ok() && t.Identifies(content) && Opened(t, content, s) && AllOnTarget(t, s, steps)
    requires SumOfSizes(t.NumPieces(), t.pieceLength, |content|, t.NumPieces()) == |content|
    requires forall i :: 0 <= i < |t.files| ==> !Storage.IsSkipped(t.priorities, i)
    ensures AllPresent(Run(t, s, steps)) ==> Run(t, s, steps).disk == content
  {
    ByteOfCompleteDownload(t, content, s, steps, |content|);
    if AllPresent(Run(t, s, steps)) {
      forall p | 0 <= p < |content| ensures Run(t, s, steps).disk[p] == content[p] {
        ByteOfCompleteDownload(t, content, s, steps, p);
      }
    }
  }

  lemma {:induction false} PieceOfPosition(numPieces: nat, pieceLength: nat, totalSize: nat, n: nat, p: nat)
    returns (i: nat)
    requires pieceLength > 0 && n <= numPieces && p < SumOfSizes(numPieces, pieceLength, totalSize, n)
    ensures i < n && i * pieceLength <= p < i * pieceLength + PieceSize(numPieces, pieceLength, totalSize, i)
  {
    SizesOfFullPieces(numPieces, pieceLength, totalSize, n - 1);
    if p < SumOfSizes(numPieces, pieceLength, totalSize, n - 1) {
      i := PieceOfPosition(numPieces, pieceLength, totalSize, n - 1, p);
    } else {
      i := n - 1;
    }
  }

  // ----- exactly the schedules on target

  /** None of the bytes that the step is to write is on the disk yet. */
  ghost predicate WritesNew(t: Torrent, content: Bytes, s: State, step: Step) {
    step.WriteSome? && Writes(t, s, step.job, step.n) ==>
      var start := Position(t, s.jobs[step.job], s.jobs[step.job].phase.done);
      forall p :: start <= p < start + step.n ==> !ByteGood(t, content, s.disk, p)
  }

  ghost predicate AllWritesNew(t: Torrent, content: Bytes, s: State, steps: seq<Step>)
    requires t.Ok()
    decreases |steps|
  {
    steps != [] ==> WritesNew(t, content, s, steps[0]) && AllWritesNew(t, content, Apply(t, s, steps[0]), steps[1..])
  }

  /** Every job in a file is there through an open file for it. */
  ghost predicate HandlesOk(s: State) {
    forall id :: id in s.jobs && s.jobs[id].phase.InFile? ==>
      s.jobs[id].phase.handle in s.cursors && s.cursors[s.jobs[id].phase.handle].file == s.jobs[id].phase.file
  }

  /** A write call of bytes that are not on the disk yet keeps the invariant exactly when it
      finds the position where its job left it. */
  lemma WriteKeepsExactly(t: Torrent, content: Bytes, s: State, job: nat, n: nat)
    requires t.Ok() && Inv(t, content, s) && HandlesOk(s) && n > 0
    requires Writes(t, s, job, n) && WritesNew(t, content, s, WriteSome(job, n))
    ensures Inv(t, content, DoWriteSome(t, s, job, n)) <==> JobAimed(t, s.cursors, s.jobs[job])
  {
    var j := s.jobs[job];
    if JobAimed(t, s.cursors, j) {
      WriteKeeps(t, content, s, job, n);
    } else {
      MissLeavesByte(t, content, s, job, n);
    }
  }

  /** A write call that finds the position elsewhere leaves some byte of its own as it was. */
  lemma MissedByte(t: Torrent, disk: Bytes, j: Job, n: nat, pos: nat) returns (p: nat)
    requires t.Ok() && j.phase.InFile? && InFileOk(t, j) && |disk| == TotalSize(t.files)
    requires 0 < n && j.phase.done + n <= PartEnd(t, j, j.phase.file) && pos != SeekTarget(t, j, j.phase.file).pos
    ensures Position(t, j, j.phase.done) <= p < Position(t, j, j.phase.done) + n && p < |disk|
    ensures Landed(t, disk, j.phase.file, pos, j.data, j.phase.done, n)[p] == disk[p]
  {
    WholeFileInside(t, j.phase.file);
    var start := Position(t, j, j.phase.done);
    p := if pos > SeekTarget(t, j, j.phase.file).pos then start else start + n - 1;
  }

  lemma MissLeavesByte(t: Torrent, content: Bytes, s: State, job: nat, n: nat)
    requires t.Ok() && Inv(t, content, s) && HandlesOk(s) && n > 0
    requires Writes(t, s, job, n) && WritesNew(t, content, s, WriteSome(job, n))
    requires !JobAimed(t, s.cursors, s.jobs[job])
    ensures !Inv(t, content, DoWriteSome(t, s, job, n))
  {
    var j, s1 := s.jobs[job], DoWriteSome(t, s, job, n);
    assert JobOk(t, content, s.disk, j);
    hide Inv, JobOk, Landed, InFileOk, Holds;
    var p := MissedByte(t, s.disk, j, n, s.cursors[j.phase.handle].pos);
    assert !ByteGood(t, content, s.disk, p) && s1.disk[p] == s.disk[p];
    NotGoodEnough(t, content, s1.disk, s1.jobs[job], p);
    NotOk(t, content, s1, job);
  }

  lemma NotGoodEnough(t: Torrent, content: Bytes, disk: Bytes, j: Job, p: nat)
    requires t.Ok() && j.InWritePiece() && !ByteGood(t, content, disk, p)
    requires j.piece * t.pieceLength <= p < j.piece * t.pieceLength + j.phase.done
    ensures !JobOk(t, content, disk, j)
  {
    hide ByteGood;
  }

  lemma NotOk(t: Torrent, content: Bytes, s: State, job: nat)
    requires t.Ok() && job in s.jobs && !JobOk(t, content, s.disk, s.jobs[job])
    ensures !Inv(t, content, s)
  {
    hide JobOk;
  }

  /** Jobs in a file are jobs that were there already, unchanged. */
  ghost predicate NobodyEnters(jobs0: map<nat, Job>, jobs1: map<nat, Job>) {
    forall id :: id in jobs1 && jobs1[id].phase.InFile? ==> id in jobs0 && jobs0[id] == jobs1[id]
  }

  lemma OthersEnterNowhere(t: Torrent, s: State, step: Step)
    requires t.Ok() && !step.Seek? && !step.WriteSome?
    ensures Apply(t, s, step).cursors == s.cursors && NobodyEnters(s.jobs, Apply(t, s, step).jobs)
  {
    if IsPeerStep(step) {
      hide Apply;
      PeerStepFrame(t, s, step);
    } else if IsJobStep(step) {
      hide Apply;
      OutsideStepFrame(t, s, step);
    } else if IsReaderStep(step) {
      hide Apply;
      ReaderStepFrame(t, s, step);
    } else {
      CacheEvictsFrame(t, s, step);
    }
  }

  lemma CacheEvictsFrame(t: Torrent, s: State, step: Step)
    requires t.Ok() && step.CacheEvicts?
    ensures Apply(t, s, step) == s.(cache := s.cache - {step.piece})
  {
  }

  lemma SeekHandles(t: Torrent, s: State, job: nat, file: nat, handle: nat)
    requires HandlesOk(s)
    ensures HandlesOk(DoSeek(t, s, job, file, handle))
  {
  }

  lemma WriteHandles(t: Torrent, s: State, job: nat, n: nat)
    requires HandlesOk(s)
    ensures HandlesOk(DoWriteSome(t, s, job, n))
  {
    hide Landed;
  }

  lemma HandlesStay(t: Torrent, s: State, step: Step)
    requires t.Ok() && HandlesOk(s)
    ensures HandlesOk(Apply(t, s, step))
  {
    if step.Seek? {
      hide DoSeek, HandlesOk;
      SeekHandles(t, s, step.job, step.file, step.handle);
    } else if step.WriteSome? {
      hide DoWriteSome, HandlesOk;
      WriteHandles(t, s, step.job, step.n);
    } else {
      hide Apply;
      OthersEnterNowhere(t, s, step);
    }
  }

  /** A schedule that writes only bytes that are not on the disk yet keeps the invariant exactly
      when every write call finds the position where its job left it. */
  lemma {:induction false} RunKeepsExactly(t: Torrent, content: Bytes, s: State, steps: seq<Step>)
    requires t.Ok() && t.Identifies(content) && Inv(t, content, s) && HandlesOk(s)
    requires AllWritesNew(t, content, s, steps)
    ensures InvThroughout(t, content, s, steps) <==> AllOnTarget(t, s, steps)
    decreases |steps|
  {
    hide Inv, HandlesOk, Writes, JobAimed, WritesNew, DoWriteSome;
    if steps != [] {
      var step := steps[0];
      if OnTarget(t, s, step) {
        StepKeeps(t, content, s, step);
        HandlesStay(t, s, step);
        RunKeepsExactly(t, content, Apply(t, s, step), steps[1..]);
      } else {
        WriteKeepsExactly(t, content, s, step.job, step.n);
      }
    }
  }

  // ----- where a write call lands

  /** A write call puts the bytes where they belong, whatever they are and whatever was there,
      exactly when the position is where the job left it. */
  lemma LandsIffAimed(t: Torrent, j: Job, n: nat, pos: nat)
    requires t.Ok() && j.phase.InFile? && InFileOk(t, j) && 0 < n && j.phase.done + n <= PartEnd(t, j, j.phase.file)
    ensures (forall disk, data :: |disk| == TotalSize(t.files) && |data| == |j.data| ==>
      InPlace(t, j, n, pos, disk, data))
      <==> pos == SeekTarget(t, j, j.phase.file).pos
  {
    var aim := SeekTarget(t, j, j.phase.file).pos;
    var size := TotalSize(t.files);
    if pos == aim {
      forall disk, data | |disk| == size && |data| == |j.data| ensures InPlace(t, j, n, pos, disk, data) {
        LandedIsPatched(t, disk, j.(data := data), n);
      }
    } else {
      WholeFileInside(t, j.phase.file);
      var start := Position(t, j, j.phase.done);
      var p := if pos > aim then start else start + n - 1;
      Storage.SkippedAtOwner(t.files, t.priorities, p, j.phase.file);
      var disk, data: Bytes := seq(size, _ => 0), seq(|j.data|, _ => 1);
      assert Landed(t, disk, j.phase.file, pos, data, j.phase.done, n)[p] == 0;
      assert Patched(t, disk, j.piece * t.pieceLength, data, j.phase.done, n)[p] == 1;
      assert !InPlace(t, j, n, pos, disk, data);
    }
  }

  lemma WholeFileInside(t: Torrent, file: nat)
    requires t.Ok() && file < |t.files|
    ensures t.files[file].offset + t.files[file].length <= TotalSize(t.files)
  {
    BoundariesGrow(t.files, file, |t.files|);
  }

  ghost predicate InPlace(t: Torrent, j: Job, n: nat, pos: nat, disk: Bytes, data: Bytes)
    requires j.phase.InFile? && j.phase.file < |t.files| && j.phase.done + n <= |data|
  {
    Landed(t, disk, j.phase.file, pos, data, j.phase.done, n)
    == Patched(t, disk, j.piece * t.pieceLength, data, j.phase.done, n)
  }
}
