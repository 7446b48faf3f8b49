/** A discipline under which every write call is on target: nobody moves an open file's position
    from under a writer, for example because each file has one writer at a time. */
module PipelineDiscipline {
  import opened Bytes
  import opened Layouts
  import Storage
  import opened Pipeline
  import opened PipelineFrames
  import opened PipelineSafety
  import opened PipelineRuns

  // ----- positions moved from under a writer

  /** Every job that has sought in a file finds the file's position where it left it. */
  ghost predicate Aimed(t: Torrent, cursors: map<nat, Cursor>, jobs: map<nat, Job>) {
    forall id :: id in jobs ==> JobAimed(t, cursors, jobs[id])
  }

  ghost predicate Sound(t: Torrent, content: Bytes, s: State)
    requires t.Ok()
  {
    Inv(t, content, s) && Aimed(t, s.cursors, s.jobs)
  }

  /** Another job is between its seek in a file and the end of its write there, through the
      same open file, and needs the position elsewhere than at `c`. */
  ghost predicate OtherWriter(t: Torrent, jobs: map<nat, Job>, job: nat, handle: nat, c: Cursor, id: nat) {
    && id in jobs && id != job && jobs[id].phase.InFile? && jobs[id].phase.handle == handle
    && InFileOk(t, jobs[id]) && SeekTarget(t, jobs[id], jobs[id].phase.file) != c
  }

  ghost predicate MovesFromUnder(t: Torrent, jobs: map<nat, Job>, job: nat, handle: nat, c: Cursor) {
    exists id :: OtherWriter(t, jobs, job, handle, c, id)
  }

  /** The step is a seek or a write call that moves the position from under another writer
      of the same open file. */
  ghost predicate Disturbs(t: Torrent, s: State, step: Step) {
    match step
    case Seek(job, file, handle) =>
      && Seeks(t, s, job, file, handle) && !Storage.IsSkipped(t.priorities, file)
      && MovesFromUnder(t, s.jobs, job, handle, SeekTarget(t, s.jobs[job], file))
    case WriteSome(job, n) =>
      && Writes(t, s, job, n)
      && var handle := s.jobs[job].phase.handle;
         MovesFromUnder(t, s.jobs, job, handle, s.cursors[handle].(pos := s.cursors[handle].pos + n))
    case _ => false
  }

  lemma OthersKeepAim(t: Torrent, s: State, step: Step)
    requires t.Ok() && !step.Seek? && !step.WriteSome? && Aimed(t, s.cursors, s.jobs)
    ensures Aimed(t, Apply(t, s, step).cursors, Apply(t, s, step).jobs)
  {
    hide Apply, JobAimed;
    OthersEnterNowhere(t, s, step);
    var s1 := Apply(t, s, step);
    forall id | id in s1.jobs ensures JobAimed(t, s1.cursors, s1.jobs[id]) {
      if !s1.jobs[id].phase.InFile? {
        NotInFileAimed(t, s1.cursors, s1.jobs[id]);
      }
    }
  }

  lemma NotInFileAimed(t: Torrent, cursors: map<nat, Cursor>, j: Job)
    requires !j.phase.InFile?
    ensures JobAimed(t, cursors, j)
  {
  }

  /** Moving one position, for a job that then stands right, spoils exactly the aim of the
      other writers that need it elsewhere. */
  lemma AimAfterMove(t: Torrent, cursors: map<nat, Cursor>, jobs: map<nat, Job>, job: nat, j: Job, handle: nat,
          c: Cursor)
    requires Aimed(t, cursors, jobs) && JobAimed(t, cursors[handle := c], j)
    ensures Aimed(t, cursors[handle := c], jobs[job := j]) <==> !MovesFromUnder(t, jobs, job, handle, c)
  {
    var cs, js := cursors[handle := c], jobs[job := j];
    if MovesFromUnder(t, jobs, job, handle, c) {
      var id :| OtherWriter(t, jobs, job, handle, c, id);
      assert id in js && js[id] == jobs[id];
      assert !JobAimed(t, cs, js[id]);
    } else {
      forall id | id in js ensures JobAimed(t, cs, js[id]) {
        assert !OtherWriter(t, jobs, job, handle, c, id);
      }
    }
  }

  lemma SeekAims(t: Torrent, content: Bytes, s: State, job: nat, file: nat, handle: nat)
    requires t.Ok() && Sound(t, content, s)
    ensures var s1 := DoSeek(t, s, job, file, handle);
      Aimed(t, s1.cursors, s1.jobs) <==> !Disturbs(t, s, Seek(job, file, handle))
  {
    hide Inv, MovesFromUnder;
    if Seeks(t, s, job, file, handle) {
      var j := s.jobs[job];
      if !Storage.IsSkipped(t.priorities, file) {
        var j1 := j.(phase := InFile(j.phase.done, file, handle));
        AimAfterMove(t, s.cursors, s.jobs, job, j1, handle, SeekTarget(t, j, file));
      }
    }
  }

  lemma SoundJob(t: Torrent, content: Bytes, s: State, job: nat)
    requires t.Ok() && Sound(t, content, s) && job in s.jobs
    ensures JobOk(t, content, s.disk, s.jobs[job]) && JobAimed(t, s.cursors, s.jobs[job])
  {
    hide JobOk, JobAimed;
  }

  lemma WriteAims(t: Torrent, content: Bytes, s: State, job: nat, n: nat)
    requires t.Ok() && Sound(t, content, s)
    ensures var s1 := DoWriteSome(t, s, job, n);
      Aimed(t, s1.cursors, s1.jobs) <==> !Disturbs(t, s, WriteSome(job, n))
  {
    hide MovesFromUnder, Landed, Inv, Aimed;
    if Writes(t, s, job, n) {
      var j := s.jobs[job];
      var s1 := DoWriteSome(t, s, job, n);
      SoundJob(t, content, s, job);
      var c := s.cursors[j.phase.handle];
      AimAfterMove(t, s.cursors, s.jobs, job, s1.jobs[job], j.phase.handle, c.(pos := c.pos + n));
    }
  }

  /** A step keeps pieces, writers and readers in order exactly when it does not move an open
      file's position from under another writer. */
  lemma StepKeepsSound(t: Torrent, content: Bytes, s: State, step: Step)
    requires t.Ok() && t.Identifies(content) && Sound(t, content, s)
    ensures Sound(t, content, Apply(t, s, step)) <==> !Disturbs(t, s, step)
  {
    StepKeeps(t, content, s, step);
    hide Inv, DoSeek, DoWriteSome, MovesFromUnder;
    if step.Seek? {
      SeekAims(t, content, s, step.job, step.file, step.handle);
    } else if step.WriteSome? {
      WriteAims(t, content, s, step.job, step.n);
    } else {
      OthersKeepAim(t, s, step);
    }
  }

  // ----- schedules

  /** No step of the schedule moves a position from under a writer. */
  ghost predicate Undisturbed(t: Torrent, s: State, steps: seq<Step>)
    requires t.Ok()
    decreases |steps|
  {
    steps != [] ==> !Disturbs(t, s, steps[0]) && Undisturbed(t, Apply(t, s, steps[0]), steps[1..])
  }

  /** Everything is in order before, between and after the steps. */
  ghost predicate SoundThroughout(t: Torrent, content: Bytes, s: State, steps: seq<Step>)
    requires t.Ok()
    decreases |steps|
  {
    Sound(t, content, s) && (steps != [] ==> SoundThroughout(t, content, Apply(t, s, steps[0]), steps[1..]))
  }

  /** A whole schedule keeps everything in order exactly when no seek or write call in it moves
      an open file's position between another job's seek and the end of its write there. */
  lemma {:induction false} RunKeeps(t: Torrent, content: Bytes, s: State, steps: seq<Step>)
    requires t.Ok() && t.Identifies(content) && Sound(t, content, s)
    ensures SoundThroughout(t, content, s, steps) <==> Undisturbed(t, s, steps)
    decreases |steps|
  {
    if steps != [] {
      StepKeepsSound(t, content, s, steps[0]);
      if Sound(t, content, Apply(t, s, steps[0])) {
        RunKeeps(t, content, Apply(t, s, steps[0]), steps[1..]);
      }
    }
  }

  /** An undisturbed schedule is on target. */
  lemma {:induction false} UndisturbedIsOnTarget(t: Torrent, content: Bytes, s: State, steps: seq<Step>)
    requires t.Ok() && t.Identifies(content) && Sound(t, content, s) && Undisturbed(t, s, steps)
    ensures AllOnTarget(t, s, steps)
    decreases |steps|
  {
    if steps != [] {
      StepKeepsSound(t, content, s, steps[0]);
      AimedIsOnTarget(t, s, steps[0]);
      hide Sound, OnTarget, Disturbs, Apply;
      UndisturbedIsOnTarget(t, content, Apply(t, s, steps[0]), steps[1..]);
    }
  }

  lemma AimedIsOnTarget(t: Torrent, s: State, step: Step)
    requires Aimed(t, s.cursors, s.jobs)
    ensures OnTarget(t, s, step)
  {
    hide JobAimed;
  }

  // ----- one writer per file at a time is enough

  /** The step enters a file only when no other job is in it, as a lock per file would have it. */
  ghost predicate EntersAlone(t: Torrent, s: State, step: Step) {
    step.Seek? && Seeks(t, s, step.job, step.file, step.handle) ==>
      forall id :: id in s.jobs && id != step.job && s.jobs[id].phase.InFile? ==> s.jobs[id].phase.file != step.file
  }

  ghost predicate AllEnterAlone(t: Torrent, s: State, steps: seq<Step>)
    requires t.Ok()
    decreases |steps|
  {
    steps != [] ==> EntersAlone(t, s, steps[0]) && AllEnterAlone(t, Apply(t, s, steps[0]), steps[1..])
  }

  ghost predicate OnePerFile(jobs: map<nat, Job>) {
    forall a, b :: a in jobs && b in jobs && a != b && jobs[a].phase.InFile? && jobs[b].phase.InFile? ==>
      jobs[a].phase.file != jobs[b].phase.file
  }

  /** Two jobs in a file through one handle are in the same file. */
  lemma HandleHasOneFile(t: Torrent, content: Bytes, s: State, id: nat)
    requires t.Ok() && Sound(t, content, s) && id in s.jobs && s.jobs[id].phase.InFile?
    ensures s.jobs[id].phase.handle in s.cursors
    ensures s.cursors[s.jobs[id].phase.handle].file == s.jobs[id].phase.file
  {
    assert JobOk(t, content, s.disk, s.jobs[id]) && JobAimed(t, s.cursors, s.jobs[id]);
  }

  lemma AloneDisturbsNobody(t: Torrent, content: Bytes, s: State, step: Step)
    requires t.Ok() && Sound(t, content, s) && OnePerFile(s.jobs) && EntersAlone(t, s, step)
    ensures !Disturbs(t, s, step)
  {
    forall id | id in s.jobs && s.jobs[id].phase.InFile?
      ensures s.jobs[id].phase.handle in s.cursors
      ensures s.cursors[s.jobs[id].phase.handle].file == s.jobs[id].phase.file
    {
      HandleHasOneFile(t, content, s, id);
    }
    hide Sound, InFileOk;
  }

  lemma OneMoreInFile(jobs: map<nat, Job>, job: nat, j: Job)
    requires OnePerFile(jobs)
    requires j.phase.InFile? ==>
      forall id :: id in jobs && id != job && jobs[id].phase.InFile? ==> jobs[id].phase.file != j.phase.file
    ensures OnePerFile(jobs[job := j])
  {
  }

  lemma SeekStays(t: Torrent, s: State, job: nat, file: nat, handle: nat)
    requires OnePerFile(s.jobs) && EntersAlone(t, s, Seek(job, file, handle))
    ensures OnePerFile(DoSeek(t, s, job, file, handle).jobs)
  {
    hide OnePerFile, Holds;
    if job in s.jobs {
      if Seeks(t, s, job, file, handle) {
        OneMoreInFile(s.jobs, job, DoSeek(t, s, job, file, handle).jobs[job]);
      }
    }
  }

  lemma WriteStays(t: Torrent, s: State, job: nat, n: nat)
    requires OnePerFile(s.jobs)
    ensures OnePerFile(DoWriteSome(t, s, job, n).jobs)
  {
    hide Landed;
  }

  lemma AloneStays(t: Torrent, s: State, step: Step)
    requires t.Ok() && OnePerFile(s.jobs) && EntersAlone(t, s, step)
    ensures OnePerFile(Apply(t, s, step).jobs)
  {
    if step.Seek? {
      hide DoSeek, OnePerFile;
      SeekStays(t, s, step.job, step.file, step.handle);
    } else if step.WriteSome? {
      hide DoWriteSome, OnePerFile;
      WriteStays(t, s, step.job, step.n);
    } else {
      hide Apply;
      OthersEnterNowhere(t, s, step);
    }
  }

  /** A schedule in which a job enters a file only while nobody else writes there is
      undisturbed, and so on target. */
  lemma {:induction false} SerialWritesAreSafe(t: Torrent, content: Bytes, s: State, steps: seq<Step>)
    requires t.Ok() && t.Identifies(content) && Sound(t, content, s) && OnePerFile(s.jobs) && AllEnterAlone(t, s, steps)
    ensures Undisturbed(t, s, steps) && AllOnTarget(t, s, steps)
    decreases |steps|
  {
    if steps != [] {
      AloneDisturbsNobody(t, content, s, steps[0]);
      AloneStays(t, s, steps[0]);
      StepKeepsSound(t, content, s, steps[0]);
      SerialWritesAreSafe(t, content, Apply(t, s, steps[0]), steps[1..]);
    }
    UndisturbedIsOnTarget(t, content, s, steps);
  }
}
