/** The write steps of the pipeline against `write_piece` as one call on the files. */
module PipelineStorage {
  import opened Bytes
  import opened Layouts
  import Storage
  import opened Pipeline
  import opened PipelineSafety
  import opened PipelineRuns

  /** Putting a whole piece in place is what `DiskStorage.WritePiece` does to the files. */
  lemma StorageWriteIsPatch(t: Torrent, disk: seq<Bytes>, i: nat, data: Bytes)
    requires t.Ok() && DiskOk(t.files, disk)
    ensures Flat(Storage.Written(t.files, t.priorities, disk, i * t.pieceLength, data))
      == Patched(t, Flat(disk), i * t.pieceLength, data, 0, |data|)
  {
    hide Flat, Storage.SkippedAt;
    var off := i * t.pieceLength;
    var written := Flat(Storage.Written(t.files, t.priorities, disk, off, data));
    FlatSize(t.files, disk);
    FlatSize(t.files, Storage.Written(t.files, t.priorities, disk, off, data));
    forall p | 0 <= p < TotalSize(t.files)
      ensures written[p] == Patched(t, Flat(disk), off, data, 0, |data|)[p]
    {
      Storage.WriteIsMaskedSplice(t.files, t.priorities, disk, off, data, p);
    }
  }

  /** Two parts in a row are one part. */
  lemma PatchesJoin(t: Torrent, disk: Bytes, off: nat, data: Bytes, n: nat, m: nat)
    requires n + m <= |data|
    ensures Patched(t, Patched(t, disk, off, data, 0, n), off, data, n, m) == Patched(t, disk, off, data, 0, n + m)
  {
  }

  /** `disk` is `disk0` with the job's piece in place as far as the job has come. */
  ghost predicate FarAlong(t: Torrent, disk0: Bytes, disk: Bytes, j: Job) {
    && j.InWritePiece() && j.phase.done <= |j.data|
    && disk == Patched(t, disk0, j.piece * t.pieceLength, j.data, 0, j.phase.done)
  }

  lemma SeekFarAlong(t: Torrent, content: Bytes, s: State, job: nat, file: nat, handle: nat, disk0: Bytes)
    requires t.Ok() && Inv(t, content, s) && job in s.jobs && FarAlong(t, disk0, s.disk, s.jobs[job])
    ensures var s1 := DoSeek(t, s, job, file, handle);
      job in s1.jobs && SameWork(s.jobs[job], s1.jobs[job]) && FarAlong(t, disk0, s1.disk, s1.jobs[job])
  {
    assert JobOk(t, content, s.disk, s.jobs[job]);
    hide Inv, PieceGood;
    if Seeks(t, s, job, file, handle) {
      var j := s.jobs[job];
      if Storage.IsSkipped(t.priorities, file) {
        SkipPatch(t, disk0, j, file);
      }
    }
  }

  ghost predicate SameWork(j0: Job, j1: Job) {
    j1.piece == j0.piece && j1.data == j0.data
  }

  /** Passing over a Skip file puts nothing in place. */
  lemma SkipPatch(t: Torrent, disk0: Bytes, j: Job, file: nat)
    requires t.Ok() && j.phase.Writing? && j.phase.done < |j.data|
    requires Holds(t, file, Position(t, j, j.phase.done)) && Storage.IsSkipped(t.priorities, file)
    ensures j.phase.done <= PartEnd(t, j, file) <= |j.data|
    ensures Patched(t, disk0, j.piece * t.pieceLength, j.data, 0, PartEnd(t, j, file))
      == Patched(t, disk0, j.piece * t.pieceLength, j.data, 0, j.phase.done)
  {
    var off := j.piece * t.pieceLength;
    forall p | off + j.phase.done <= p < off + PartEnd(t, j, file) ensures t.Skipped(p) {
      Storage.SkippedAtOwner(t.files, t.priorities, p, file);
    }
  }

  lemma WriteFarAlong(t: Torrent, content: Bytes, s: State, job: nat, n: nat, disk0: Bytes)
    requires t.Ok() && Inv(t, content, s) && job in s.jobs && FarAlong(t, disk0, s.disk, s.jobs[job])
    requires JobAimed(t, s.cursors, s.jobs[job])
    ensures var s1 := DoWriteSome(t, s, job, n);
      job in s1.jobs && SameWork(s.jobs[job], s1.jobs[job]) && FarAlong(t, disk0, s1.disk, s1.jobs[job])
  {
    var j := s.jobs[job];
    assert JobOk(t, content, s.disk, j);
    hide Inv, PieceGood, Landed, Patched;
    if Writes(t, s, job, n) {
      LandedIsPatched(t, s.disk, j, n);
      PatchesJoin(t, disk0, j.piece * t.pieceLength, j.data, j.phase.done, n);
    }
  }

  ghost predicate OnlyWriter(steps: seq<Step>, job: nat) {
    forall k :: 0 <= k < |steps| ==> (steps[k].Seek? || steps[k].WriteSome?) && steps[k].job == job
  }

  /** How a job's piece stands while it alone seeks and writes. */
  ghost predicate GetsThere(t: Torrent, disk0: Bytes, j0: Job, s: State, job: nat) {
    && job in s.jobs && SameWork(j0, s.jobs[job])
    && FarAlong(t, disk0, s.disk, s.jobs[job]) && JobAimed(t, s.cursors, s.jobs[job])
  }

  lemma {:induction false} LoneWriter(t: Torrent, content: Bytes, s: State, steps: seq<Step>, job: nat, disk0: Bytes,
          j0: Job)
    requires t.Ok() && t.Identifies(content) && Inv(t, content, s)
    requires GetsThere(t, disk0, j0, s, job) && OnlyWriter(steps, job)
    ensures GetsThere(t, disk0, j0, Run(t, s, steps), job)
    decreases |steps|
  {
    hide Inv, GetsThere, OnTarget, Apply;
    if steps != [] {
      OneMoreStep(t, content, s, steps[0], job, disk0, j0);
      StepKeeps(t, content, s, steps[0]);
      LoneWriter(t, content, Apply(t, s, steps[0]), steps[1..], job, disk0, j0);
    }
  }

  lemma OneMoreStep(t: Torrent, content: Bytes, s: State, step: Step, job: nat, disk0: Bytes, j0: Job)
    requires t.Ok() && Inv(t, content, s) && (step.Seek? || step.WriteSome?) && step.job == job
    requires GetsThere(t, disk0, j0, s, job)
    ensures OnTarget(t, s, step) && GetsThere(t, disk0, j0, Apply(t, s, step), job)
  {
    hide FarAlong, DoSeek, DoWriteSome, Inv;
    if step.Seek? {
      SeekFarAlong(t, content, s, job, step.file, step.handle, disk0);
      SeekAimsItself(t, s, job, step.file, step.handle);
    } else {
      WriteFarAlong(t, content, s, job, step.n, disk0);
      WriteAimsItself(t, content, s, job, step.n);
    }
  }

  lemma SeekAimsItself(t: Torrent, s: State, job: nat, file: nat, handle: nat)
    requires job in s.jobs && JobAimed(t, s.cursors, s.jobs[job])
    ensures var s1 := DoSeek(t, s, job, file, handle); job in s1.jobs && JobAimed(t, s1.cursors, s1.jobs[job])
  {
    if Seeks(t, s, job, file, handle) {
      var j := s.jobs[job];
      hide Seeks, Holds;
      if !Storage.IsSkipped(t.priorities, file) {
        assert SeekTarget(t, j.(phase := InFile(j.phase.done, file, handle)), file) == SeekTarget(t, j, file);
      }
    }
  }

  lemma WriteAimsItself(t: Torrent, content: Bytes, s: State, job: nat, n: nat)
    requires t.Ok() && Inv(t, content, s) && job in s.jobs && JobAimed(t, s.cursors, s.jobs[job])
    ensures var s1 := DoWriteSome(t, s, job, n); job in s1.jobs && JobAimed(t, s1.cursors, s1.jobs[job])
  {
    assert JobOk(t, content, s.disk, s.jobs[job]);
    hide Inv, Landed, PieceGood;
  }

  lemma NothingPatched(t: Torrent, disk: Bytes, off: nat, data: Bytes)
    ensures Patched(t, disk, off, data, 0, 0) == disk
  {
  }

  lemma BehindTheEnd(t: Torrent, disk: Bytes, j: Job)
    requires Written(t, j) && j.phase.done <= |j.data| && |disk| == TotalSize(t.files)
    ensures Patched(t, disk, j.piece * t.pieceLength, j.data, 0, j.phase.done)
      == Patched(t, disk, j.piece * t.pieceLength, j.data, 0, |j.data|)
  {
  }

  /** If the job is through, the files are as `write_piece` is specified to leave them. */
  ghost predicate Completed(t: Torrent, s: State, job: nat, j: Job, files: seq<Bytes>)
    requires t.Ok() && DiskOk(t.files, files)
  {
    && job in s.jobs
    && (Pipeline.Written(t, s.jobs[job]) ==>
          s.disk == Flat(Storage.Written(t.files, t.priorities, files, j.piece * t.pieceLength, j.data)))
  }

  /** The seeks and write calls of one job, however the bytes are cut up, do to the files what
      `write_piece` is specified to do. */
  lemma WholePieceWritten(t: Torrent, content: Bytes, s: State, steps: seq<Step>, job: nat, files: seq<Bytes>)
    requires t.Ok() && t.Identifies(content) && Inv(t, content, s)
    requires DiskOk(t.files, files) && s.disk == Flat(files)
    requires job in s.jobs && s.jobs[job].phase == Writing(0) && OnlyWriter(steps, job)
    ensures Completed(t, Run(t, s, steps), job, s.jobs[job], files)
  {
    hide Run, Inv, OnlyWriter, GetsThere, Completed;
    GetsStarted(t, s, job);
    LoneWriter(t, content, s, steps, job, s.disk, s.jobs[job]);
    GotThere(t, s.disk, s.jobs[job], Run(t, s, steps), job, files);
  }

  lemma GetsStarted(t: Torrent, s: State, job: nat)
    requires job in s.jobs && s.jobs[job].phase == Writing(0)
    ensures GetsThere(t, s.disk, s.jobs[job], s, job)
  {
    hide Patched;
    NothingPatched(t, s.disk, s.jobs[job].piece * t.pieceLength, s.jobs[job].data);
  }

  lemma GotThere(t: Torrent, disk0: Bytes, j: Job, s1: State, job: nat, files: seq<Bytes>)
    requires t.Ok() && DiskOk(t.files, files) && disk0 == Flat(files) && GetsThere(t, disk0, j, s1, job)
    ensures Completed(t, s1, job, j, files)
  {
    hide Patched, Flat, Storage.Written, Pipeline.Written, JobAimed;
    FlatSize(t.files, files);
    if Pipeline.Written(t, s1.jobs[job]) {
      BehindTheEnd(t, disk0, s1.jobs[job]);
      StorageWriteIsPatch(t, files, j.piece, j.data);
    }
  }
}
