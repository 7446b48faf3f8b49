/** What each step of the pipeline leaves alone. */
module PipelineFrames {
  import opened Bytes
  import opened Pipeline

  predicate IsPeerStep(step: Step) {
    || step.Choose? || step.StartPiece? || step.ForceStart? || step.JoinPiece?
    || step.ClaimBlocks? || step.Deliver? || step.Assemble? || step.Leave?
  }

  predicate IsJobStep(step: Step) {
    || step.WebFetched? || step.CheckHash? || step.LookAtHave? || step.Abort? || step.Seek?
    || step.WriteSome? || step.WriteFails? || step.Evict? || step.Unlist? || step.Flag?
  }

  ghost predicate SameElsewhere<T>(m0: map<nat, T>, m1: map<nat, T>, id: nat) {
    forall k :: k != id ==> (k in m1 <==> k in m0) && (k in m0 && k in m1 ==> m1[k] == m0[k])
  }

  /** Peers start verify tasks and change nothing else of what is modelled beyond them. */
  ghost predicate PeerFrame(s: State, s1: State) {
    && s1.have == s.have && s1.disk == s.disk && s1.cursors == s.cursors && s1.cache == s.cache
      && s1.readers == s.readers
    && (forall id :: id in s.jobs ==> id in s1.jobs && s1.jobs[id] == s.jobs[id])
    && (forall id :: id in s1.jobs && id !in s.jobs ==> s1.jobs[id].phase.Hashing?)
  }

  ghost predicate JobFrame(s: State, s1: State, job: nat) {
    && s1.collectors == s.collectors && s1.peers == s.peers && s1.readers == s.readers
    && SameElsewhere(s.jobs, s1.jobs, job)
  }

  /** A step of a job outside the loop of `write_piece`: it enters no file. */
  ghost predicate OutsideFrame(s: State, s1: State, job: nat) {
    && JobFrame(s, s1, job) && s1.disk == s.disk && s1.cursors == s.cursors
    && (job in s1.jobs && s1.jobs[job].phase.InFile? ==> job in s.jobs && s1.jobs[job] == s.jobs[job])
  }

  ghost predicate ReaderFrame(s: State, s1: State, reader: nat) {
    && s1.collectors == s.collectors && s1.peers == s.peers && s1.jobs == s.jobs
    && s1.disk == s.disk && s1.cursors == s.cursors
    && SameElsewhere(s.readers, s1.readers, reader)
  }

  predicate IsPresent(s: State, i: nat) {
    i < |s.have| && s.have[i]
  }

  /** The list of started pieces does not grow and nothing becomes present. */
  ghost predicate NoNews(s: State, s1: State) {
    && (forall i :: i in s1.inProgress ==> i in s.inProgress)
    && (forall i :: IsPresent(s1, i) ==> IsPresent(s, i))
  }

  // ----- peers

  lemma ChooseFrame(s: State, peer: nat, candidates: set<nat>, endgame: bool)
    ensures PeerFrame(s, DoChoose(s, peer, candidates, endgame))
    ensures NoNews(s, DoChoose(s, peer, candidates, endgame))
  {
  }

  lemma StartFrame(t: Torrent, s: State, peer: nat, piece: nat, cid: nat)
    requires t.Ok()
    ensures PeerFrame(s, DoStart(t, s, peer, piece, cid))
  {
    if StartsPiece(t, s, peer, piece, cid) {
    }
  }

  lemma JoinFrame(s: State, peer: nat, piece: nat)
    ensures PeerFrame(s, DoJoin(s, peer, piece))
    ensures NoNews(s, DoJoin(s, peer, piece))
  {
  }

  lemma ForceFrame(t: Torrent, s: State, peer: nat, piece: nat, cid: nat)
    requires t.Ok()
    ensures PeerFrame(s, DoForceStart(t, s, peer, piece, cid))
  {
    hide DoStart, DoJoin;
    StartFrame(t, s, peer, piece, cid);
    JoinFrame(s, peer, piece);
  }

  lemma ClaimFrame(s: State, peer: nat, offsets: set<nat>, now: nat)
    ensures PeerFrame(s, DoClaim(s, peer, offsets, now))
    ensures NoNews(s, DoClaim(s, peer, offsets, now))
  {
    match PeerOf(s, peer)
    case Holding(_, _) =>
    case _ =>
  }

  lemma DeliverFrame(s: State, peer: nat, piece: nat, begin: nat, data: Bytes)
    ensures PeerFrame(s, DoDeliver(s, peer, piece, begin, data))
    ensures NoNews(s, DoDeliver(s, peer, piece, begin, data))
  {
    match PeerOf(s, peer)
    case Holding(_, _) =>
    case _ =>
  }

  lemma AssembleFrame(s: State, peer: nat, job: nat)
    ensures PeerFrame(s, DoAssemble(s, peer, job))
    ensures NoNews(s, DoAssemble(s, peer, job))
  {
    match PeerOf(s, peer)
    case Assembling(_, _) =>
    case _ =>
  }

  lemma LeaveFrame(s: State, peer: nat, released: set<nat>)
    ensures PeerFrame(s, DoLeave(s, peer, released))
    ensures NoNews(s, DoLeave(s, peer, released))
  {
    match PeerOf(s, peer)
    case Holding(_, _) =>
    case _ =>
  }

  lemma PeerStepFrame(t: Torrent, s: State, step: Step)
    requires t.Ok() && IsPeerStep(step)
    ensures PeerFrame(s, Apply(t, s, step))
    ensures !step.StartPiece? && !step.ForceStart? ==> NoNews(s, Apply(t, s, step))
  {
    hide PeerFrame, NoNews, DoChoose, DoStart, DoForceStart, DoJoin, DoClaim, DoDeliver, DoAssemble, DoLeave;
    match step
    case Choose(peer, candidates, endgame) => ChooseFrame(s, peer, candidates, endgame);
    case StartPiece(peer, piece, cid) => StartFrame(t, s, peer, piece, cid);
    case ForceStart(peer, piece, cid) => ForceFrame(t, s, peer, piece, cid);
    case JoinPiece(peer, piece) => JoinFrame(s, peer, piece);
    case ClaimBlocks(peer, offsets, now) => ClaimFrame(s, peer, offsets, now);
    case Deliver(peer, piece, begin, data) => DeliverFrame(s, peer, piece, begin, data);
    case Assemble(peer, job) => AssembleFrame(s, peer, job);
    case Leave(peer, released) => LeaveFrame(s, peer, released);
  }

  // ----- jobs

  lemma FetchFrame(t: Torrent, s: State, job: nat, piece: nat, data: Bytes)
    requires t.Ok()
    ensures OutsideFrame(s, DoWebFetched(t, s, job, piece, data), job)
      && DoWebFetched(t, s, job, piece, data).cache == s.cache
    ensures NoNews(s, DoWebFetched(t, s, job, piece, data))
  {
    hide Torrent.Size;
    if job in s.jobs {
    } else if piece < t.NumPieces() {
    }
  }

  lemma CheckFrame(t: Torrent, s: State, job: nat)
    ensures OutsideFrame(s, DoCheckHash(t, s, job), job) && DoCheckHash(t, s, job).cache == s.cache
    ensures NoNews(s, DoCheckHash(t, s, job))
  {
    CheckNoNews(t, s, job);
    hide NoNews;
    if job in s.jobs {
      var j := s.jobs[job];
      if j.phase.Hashing? {
        if t.sha1(j.data) == j.expected {
        } else if j.fromPeer {
        } else {
        }
      }
    }
  }

  lemma CheckNoNews(t: Torrent, s: State, job: nat)
    ensures NoNews(s, DoCheckHash(t, s, job))
  {
  }

  lemma LookAtHaveFrame(s: State, job: nat)
    ensures OutsideFrame(s, DoLookAtHave(s, job), job) && DoLookAtHave(s, job).cache == s.cache
    ensures NoNews(s, DoLookAtHave(s, job))
  {
    if job in s.jobs {
      var j := s.jobs[job];
      if j.phase.Rejected? {
        if j.piece < |s.have| && s.have[j.piece] {
        } else {
        }
      }
    }
  }

  lemma AbortFrame(s: State, job: nat)
    ensures OutsideFrame(s, DoAbort(s, job), job) && DoAbort(s, job).cache == s.cache
    ensures NoNews(s, DoAbort(s, job))
  {
    if job in s.jobs {
      if s.jobs[job].phase.Aborting? {
      }
    }
  }

  lemma FailureFrame(s: State, job: nat)
    ensures OutsideFrame(s, DoWriteFails(s, job), job) && DoWriteFails(s, job).cache == s.cache
    ensures NoNews(s, DoWriteFails(s, job))
  {
    if job in s.jobs {
      if s.jobs[job].InWritePiece() {
        if s.jobs[job].fromPeer {
        } else {
        }
      }
    }
  }

  lemma EvictFrame(t: Torrent, s: State, job: nat)
    ensures OutsideFrame(s, DoEvict(t, s, job), job)
    ensures NoNews(s, DoEvict(t, s, job))
  {
    if job in s.jobs {
      if Written(t, s.jobs[job]) {
      }
    }
  }

  lemma UnlistFrame(s: State, job: nat)
    ensures OutsideFrame(s, DoUnlist(s, job), job) && DoUnlist(s, job).cache == s.cache
    ensures NoNews(s, DoUnlist(s, job))
  {
    if job in s.jobs {
      if s.jobs[job].phase.Unlisting? {
      }
    }
  }

  lemma FlagFrame(s: State, job: nat)
    ensures OutsideFrame(s, DoFlag(s, job), job) && DoFlag(s, job).cache == s.cache
  {
    if job in s.jobs {
      if s.jobs[job].phase.Flagging? {
        if s.jobs[job].piece < |s.have| {
        }
      }
    }
  }

  lemma OutsideStepFrame(t: Torrent, s: State, step: Step)
    requires t.Ok() && IsJobStep(step) && !step.Seek? && !step.WriteSome?
    ensures OutsideFrame(s, Apply(t, s, step), step.job)
    ensures !step.Evict? ==> Apply(t, s, step).cache == s.cache
    ensures !step.Flag? ==> NoNews(s, Apply(t, s, step))
  {
    hide OutsideFrame, NoNews, DoWebFetched, DoCheckHash, DoLookAtHave, DoAbort, DoWriteFails, DoEvict;
    hide DoUnlist, DoFlag;
    match step
    case WebFetched(job, piece, data) => FetchFrame(t, s, job, piece, data);
    case CheckHash(job) => CheckFrame(t, s, job);
    case LookAtHave(job) => LookAtHaveFrame(s, job);
    case Abort(job) => AbortFrame(s, job);
    case WriteFails(job) => FailureFrame(s, job);
    case Evict(job) => EvictFrame(t, s, job);
    case Unlist(job) => UnlistFrame(s, job);
    case Flag(job) => FlagFrame(s, job);
  }

  lemma SeekFrame(t: Torrent, s: State, job: nat, file: nat, handle: nat)
    ensures var s1 := DoSeek(t, s, job, file, handle);
      JobFrame(s, s1, job) && s1.disk == s.disk && s1.cache == s.cache
    ensures NoNews(s, DoSeek(t, s, job, file, handle))
  {
    SeekNoNews(t, s, job, file, handle);
    hide NoNews;
    if job in s.jobs {
      if Seeks(t, s, job, file, handle) {
      }
    }
  }

  lemma SeekNoNews(t: Torrent, s: State, job: nat, file: nat, handle: nat)
    ensures NoNews(s, DoSeek(t, s, job, file, handle))
  {
  }

  lemma WriteFrame(t: Torrent, s: State, job: nat, n: nat)
    ensures var s1 := DoWriteSome(t, s, job, n); JobFrame(s, s1, job) && s1.cache == s.cache
    ensures NoNews(s, DoWriteSome(t, s, job, n))
  {
    hide Landed;
    if job in s.jobs {
      if Writes(t, s, job, n) {
      }
    }
  }

  lemma JobStepFrame(t: Torrent, s: State, step: Step)
    requires t.Ok() && IsJobStep(step)
    ensures JobFrame(s, Apply(t, s, step), step.job)
    ensures !step.WriteSome? ==> Apply(t, s, step).disk == s.disk
    ensures !step.Flag? ==> NoNews(s, Apply(t, s, step))
  {
    hide JobFrame, NoNews, DoSeek, DoWriteSome;
    if step.Seek? {
      SeekFrame(t, s, step.job, step.file, step.handle);
    } else if step.WriteSome? {
      WriteFrame(t, s, step.job, step.n);
    } else {
      hide Apply;
      OutsideStepFrame(t, s, step);
    }
  }

  // ----- readers

  lemma BeginServeFrame(s: State, reader: nat, piece: nat)
    ensures ReaderFrame(s, DoBeginServe(s, reader, piece), reader)
    ensures NoNews(s, DoBeginServe(s, reader, piece))
  {
    if reader in s.readers {
    } else if piece < |s.have| {
    }
  }

  lemma BeginRecheckFrame(t: Torrent, s: State, reader: nat)
    ensures ReaderFrame(s, DoBeginRecheck(t, s, reader), reader)
    ensures NoNews(s, DoBeginRecheck(t, s, reader))
  {
    if reader in s.readers {
    } else {
    }
  }

  lemma LookFrame(s: State, reader: nat)
    ensures ReaderFrame(s, DoLook(s, reader), reader)
    ensures NoNews(s, DoLook(s, reader))
  {
    if reader in s.readers {
      if s.readers[reader].phase.Looking? {
      }
    }
  }

  lemma FillFrame(t: Torrent, s: State, reader: nat, n: nat)
    requires t.Ok()
    ensures ReaderFrame(s, DoFillSome(t, s, reader, n), reader)
    ensures NoNews(s, DoFillSome(t, s, reader, n))
  {
    if reader in s.readers {
      if s.readers[reader].phase.Filling? {
      }
    }
  }

  lemma PublishFrame(t: Torrent, s: State, reader: nat)
    requires t.Ok()
    ensures ReaderFrame(s, DoPublish(t, s, reader), reader)
    ensures NoNews(s, DoPublish(t, s, reader))
  {
    if reader in s.readers {
      if s.readers[reader].phase.Filling? {
      }
    }
  }

  lemma ReadFailsFrame(s: State, reader: nat)
    ensures ReaderFrame(s, DoReadFails(s, reader), reader)
    ensures NoNews(s, DoReadFails(s, reader))
  {
    if reader in s.readers {
      if s.readers[reader].phase.Filling? {
      }
    }
  }

  lemma JudgeFrame(t: Torrent, s: State, reader: nat)
    ensures ReaderFrame(s, DoJudge(t, s, reader), reader)
    ensures NoNews(s, DoJudge(t, s, reader))
  {
    if reader in s.readers {
      if s.readers[reader].phase.Finished? || s.readers[reader].phase.Failed? {
        if s.readers[reader].purpose.Serve? {
        } else {
        }
      }
    }
  }

  lemma ConcludeFrame(t: Torrent, s: State, reader: nat)
    ensures ReaderFrame(s, DoConclude(t, s, reader), reader)
  {
    if reader in s.readers {
      if s.readers[reader].piece < |s.have| {
        match s.readers[reader].phase
        case Confirming =>
        case Raising =>
        case Clearing =>
        case Dropping =>
        case _ =>
      }
    }
  }

  predicate IsReaderStep(step: Step) {
    !IsPeerStep(step) && !IsJobStep(step) && !step.CacheEvicts?
  }

  lemma ReaderStepFrame(t: Torrent, s: State, step: Step)
    requires t.Ok() && IsReaderStep(step)
    ensures ReaderFrame(s, Apply(t, s, step), step.reader)
    ensures !step.Conclude? ==> NoNews(s, Apply(t, s, step))
  {
    hide ReaderFrame, NoNews, DoBeginServe, DoBeginRecheck, DoLook, DoFillSome, DoPublish, DoReadFails;
    hide DoJudge, DoConclude;
    match step
    case BeginServe(reader, piece) => BeginServeFrame(s, reader, piece);
    case BeginRecheck(reader) => BeginRecheckFrame(t, s, reader);
    case Look(reader) => LookFrame(s, reader);
    case FillSome(reader, n) => FillFrame(t, s, reader, n);
    case Publish(reader) => PublishFrame(t, s, reader);
    case ReadFails(reader) => ReadFailsFrame(s, reader);
    case Judge(reader) => JudgeFrame(t, s, reader);
    case Conclude(reader) => ConcludeFrame(t, s, reader);
  }
}
