/** What every schedule of the pipeline keeps, and on what condition: pieces marked as present
    are on the disk as long as no writer moves an open file's position from under another. */
module PipelineSafety {
  import opened Bytes
  import opened Layouts
  import Storage
  import opened Collectors
  import opened Pipeline
  import opened PipelineFrames

  // ----- the invariant

  /** A wanted byte is on the disk as in the content. */
  ghost predicate ByteGood(t: Torrent, content: Bytes, disk: Bytes, p: nat) {
    p < |content| && p < |disk| && !t.Skipped(p) ==> disk[p] == content[p]
  }

  /** The first `n` bytes of piece `i` are good. */
  ghost predicate PieceGood(t: Torrent, content: Bytes, disk: Bytes, i: nat, n: nat) {
    forall p :: i * t.pieceLength <= p < i * t.pieceLength + n ==> ByteGood(t, content, disk, p)
  }

  /** Nothing good gets lost between the two disks. */
  ghost predicate Grows(t: Torrent, content: Bytes, disk0: Bytes, disk1: Bytes) {
    |disk0| == |disk1| && forall p :: ByteGood(t, content, disk0, p) ==> ByteGood(t, content, disk1, p)
  }

  /** Where the copy shows the right byte, the disk has it too. This is all that can be
      said of a cache entry: it may be older than the disk, but only for the worse. */
  ghost predicate Reflects(t: Torrent, content: Bytes, disk: Bytes, i: nat, copy: Bytes)
    requires t.Ok()
  {
    && |copy| <= t.Size(i)
    && forall k :: 0 <= k < |copy| && copy[k] == t.Piece(content, i)[k] ==>
      ByteGood(t, content, disk, i * t.pieceLength + k)
  }

  ghost predicate JobOk(t: Torrent, content: Bytes, disk: Bytes, j: Job)
    requires t.Ok()
  {
    && j.piece < t.NumPieces() && j.expected == t.hashes[j.piece] && |j.data| <= t.Size(j.piece)
    && (j.InWritePiece() || j.phase.Unlisting? || j.phase.Flagging? ==> j.data == t.Piece(content, j.piece))
    && (j.InWritePiece() ==> j.phase.done <= |j.data| && PieceGood(t, content, disk, j.piece, j.phase.done))
    && (j.phase.InFile? ==> InFileOk(t, j))
    && (j.phase.Unlisting? || j.phase.Flagging? ==> PieceGood(t, content, disk, j.piece, |j.data|))
  }

  /** The next byte belongs to the file, which is a wanted one. */
  ghost predicate InFileOk(t: Torrent, j: Job)
    requires j.phase.InFile?
  {
    && j.phase.done < |j.data| && Holds(t, j.phase.file, Position(t, j, j.phase.done))
    && !Storage.IsSkipped(t.priorities, j.phase.file)
  }

  ghost predicate ReaderOk(t: Torrent, content: Bytes, disk: Bytes, r: Reader)
    requires t.Ok()
  {
    && r.piece < t.NumPieces()
    && Reflects(t, content, disk, r.piece, r.buffer)
    && (r.phase.Confirming? || r.phase.Raising? ==> PieceGood(t, content, disk, r.piece, t.Size(r.piece)))
  }

  ghost predicate JobsOk(t: Torrent, content: Bytes, disk: Bytes, jobs: map<nat, Job>)
    requires t.Ok()
  {
    forall id :: id in jobs ==> JobOk(t, content, disk, jobs[id])
  }

  ghost predicate ReadersOk(t: Torrent, content: Bytes, disk: Bytes, readers: map<nat, Reader>)
    requires t.Ok()
  {
    forall id :: id in readers ==> ReaderOk(t, content, disk, readers[id])
  }

  ghost predicate CacheOk(t: Torrent, content: Bytes, disk: Bytes, cache: map<nat, Bytes>)
    requires t.Ok()
  {
    forall i :: i in cache ==> Reflects(t, content, disk, i, cache[i])
  }

  ghost predicate HaveOk(t: Torrent, content: Bytes, disk: Bytes, have: seq<bool>)
    requires t.Ok()
  {
    |have| == t.NumPieces() && forall i :: 0 <= i < |have| && have[i] ==> PieceGood(t, content, disk, i, t.Size(i))
  }

  ghost predicate CollectorOk(t: Torrent, c: Collector)
    requires t.Ok()
  {
    c.index < t.NumPieces() && c.pieceSize == t.Size(c.index) && c.expected == t.hashes[c.index]
  }

  ghost predicate Refers(collectors: map<nat, Collector>, cid: nat, piece: nat) {
    cid in collectors && collectors[cid].index == piece
  }

  ghost predicate PeerRefers(collectors: map<nat, Collector>, p: Peer) {
    p.HasCollector() ==> Refers(collectors, p.cid, p.piece)
  }

  /** Collectors carry the size and hash of their piece, and everybody points at the right
      one, also after an abort has taken it off the list. */
  ghost predicate RefsOk(t: Torrent, collectors: map<nat, Collector>, inProgress: map<nat, nat>, peers: map<nat, Peer>)
    requires t.Ok()
  {
    && (forall cid :: cid in collectors ==> CollectorOk(t, collectors[cid]))
    && (forall i :: i in inProgress ==> Refers(collectors, inProgress[i], i))
    && (forall p :: p in peers ==> PeerRefers(collectors, peers[p]))
  }

  ghost predicate Inv(t: Torrent, content: Bytes, s: State)
    requires t.Ok()
  {
    && |s.disk| == |content| == TotalSize(t.files)
    && JobsOk(t, content, s.disk, s.jobs)
    && ReadersOk(t, content, s.disk, s.readers)
    && CacheOk(t, content, s.disk, s.cache)
    && HaveOk(t, content, s.disk, s.have)
    && RefsOk(t, s.collectors, s.inProgress, s.peers)
  }

  lemma GrowthKeeps(t: Torrent, content: Bytes, s: State, disk1: Bytes)
    requires t.Ok() && Inv(t, content, s) && Grows(t, content, s.disk, disk1)
    ensures JobsOk(t, content, disk1, s.jobs) && ReadersOk(t, content, disk1, s.readers)
    ensures CacheOk(t, content, disk1, s.cache) && HaveOk(t, content, disk1, s.have)
  {
    hide ByteGood;
    forall id | id in s.jobs ensures JobOk(t, content, disk1, s.jobs[id]) {
      JobGrows(t, content, s.disk, disk1, s.jobs[id]);
    }
    forall id | id in s.readers ensures ReaderOk(t, content, disk1, s.readers[id]) {
      ReaderGrows(t, content, s.disk, disk1, s.readers[id]);
    }
    forall i | i in s.cache ensures Reflects(t, content, disk1, i, s.cache[i]) {
      CopyGrows(t, content, s.disk, disk1, i, s.cache[i]);
    }
  }

  lemma JobGrows(t: Torrent, content: Bytes, disk0: Bytes, disk1: Bytes, j: Job)
    requires t.Ok() && JobOk(t, content, disk0, j) && Grows(t, content, disk0, disk1)
    ensures JobOk(t, content, disk1, j)
  {
    hide ByteGood;
  }

  lemma CopyGrows(t: Torrent, content: Bytes, disk0: Bytes, disk1: Bytes, i: nat, copy: Bytes)
    requires t.Ok() && Reflects(t, content, disk0, i, copy) && Grows(t, content, disk0, disk1)
    ensures Reflects(t, content, disk1, i, copy)
  {
    hide ByteGood;
  }

  lemma ReaderGrows(t: Torrent, content: Bytes, disk0: Bytes, disk1: Bytes, r: Reader)
    requires t.Ok() && ReaderOk(t, content, disk0, r) && Grows(t, content, disk0, disk1)
    ensures ReaderOk(t, content, disk1, r)
  {
    hide ByteGood, Reflects;
    CopyGrows(t, content, disk0, disk1, r.piece, r.buffer);
  }

  /** Landing at the job's own position is writing the bytes where they belong. */
  lemma LandedIsPatched(t: Torrent, disk: Bytes, j: Job, n: nat)
    requires t.Ok() && j.phase.InFile? && InFileOk(t, j) && j.phase.done + n <= PartEnd(t, j, j.phase.file)
    requires |disk| == TotalSize(t.files)
    ensures Landed(t, disk, j.phase.file, SeekTarget(t, j, j.phase.file).pos, j.data, j.phase.done, n)
      == Patched(t, disk, j.piece * t.pieceLength, j.data, j.phase.done, n)
  {
    hide Contiguous;
    var off := j.piece * t.pieceLength;
    forall p | off + j.phase.done <= p < off + j.phase.done + n ensures !t.Skipped(p) {
      Storage.SkippedAtOwner(t.files, t.priorities, p, j.phase.file);
    }
  }

  lemma PatchGrows(t: Torrent, content: Bytes, disk: Bytes, j: Job, n: nat)
    requires t.Ok() && |disk| == |content| && j.data == t.Piece(content, j.piece)
    requires j.InWritePiece() && j.phase.done + n <= |j.data| && PieceGood(t, content, disk, j.piece, j.phase.done)
    ensures var disk1 := Patched(t, disk, j.piece * t.pieceLength, j.data, j.phase.done, n);
      && Grows(t, content, disk, disk1)
      && PieceGood(t, content, disk1, j.piece, j.phase.done + n)
  {
    var off := j.piece * t.pieceLength;
    var disk1 := Patched(t, disk, off, j.data, j.phase.done, n);
    forall p: nat | off + j.phase.done <= p < off + j.phase.done + n ensures ByteGood(t, content, disk1, p) {
      if p < |content| {
        assert j.data[p - off] == content[p];
      }
    }
    forall p | off <= p < off + j.phase.done + n ensures ByteGood(t, content, disk1, p) {
      if p < off + j.phase.done {
        assert ByteGood(t, content, disk, p);
      }
    }
  }

  lemma FullMatchIsGood(t: Torrent, content: Bytes, disk: Bytes, i: nat, copy: Bytes)
    requires t.Ok() && Reflects(t, content, disk, i, copy) && copy == t.Piece(content, i)
    ensures PieceGood(t, content, disk, i, t.Size(i))
  {
    var off := i * t.pieceLength;
    forall p | off <= p < off + t.Size(i) ensures ByteGood(t, content, disk, p) {
      assert copy[p - off] == t.Piece(content, i)[p - off];
      assert off + (p - off) == p;
    }
  }

  lemma FillReflects(t: Torrent, content: Bytes, disk: Bytes, r: Reader, n: nat)
    requires t.Ok() && |disk| == |content| && ReaderOk(t, content, disk, r)
    requires |r.buffer| + n <= t.Size(r.piece)
    ensures Reflects(t, content, disk, r.piece,
      r.buffer + Storage.Slice(disk, r.piece * t.pieceLength + |r.buffer|, n))
  {
    var off := r.piece * t.pieceLength;
    var copy := r.buffer + Storage.Slice(disk, off + |r.buffer|, n);
    forall k | 0 <= k < |copy| && copy[k] == t.Piece(content, r.piece)[k] ensures ByteGood(t, content, disk, off + k) {
      if k < |r.buffer| {
        assert r.buffer[k] == t.Piece(content, r.piece)[k];
      } else if off + k < |disk| {
        assert copy[k] == disk[off + k];
      }
    }
  }

  // ----- steps that write nothing keep the invariant

  lemma PeerMoves(t: Torrent, cs: map<nat, Collector>, ip: map<nat, nat>, ps: map<nat, Peer>, peer: nat, p: Peer)
    requires t.Ok() && RefsOk(t, cs, ip, ps) && PeerRefers(cs, p)
    ensures RefsOk(t, cs, ip, ps[peer := p]) && RefsOk(t, cs, ip, ps - {peer})
  {
  }

  lemma PieceUnlisted(t: Torrent, cs: map<nat, Collector>, ip: map<nat, nat>, ps: map<nat, Peer>, piece: nat)
    requires t.Ok() && RefsOk(t, cs, ip, ps)
    ensures RefsOk(t, cs, ip - {piece}, ps)
  {
  }

  /** Creating a collector, or changing its blocks and stamps only. */
  lemma CollectorChanges(t: Torrent, cs: map<nat, Collector>, ip: map<nat, nat>, ps: map<nat, Peer>, cid: nat,
          c: Collector)
    requires t.Ok() && RefsOk(t, cs, ip, ps) && CollectorOk(t, c)
    requires cid in cs ==> c.index == cs[cid].index
    ensures RefsOk(t, cs[cid := c], ip, ps)
  {
    var cs1 := cs[cid := c];
    forall i | i in ip ensures Refers(cs1, ip[i], i) {
      assert Refers(cs, ip[i], i);
    }
    forall p | p in ps ensures PeerRefers(cs1, ps[p]) {
      assert PeerRefers(cs, ps[p]);
    }
  }

  lemma PieceListed(t: Torrent, cs: map<nat, Collector>, ip: map<nat, nat>, ps: map<nat, Peer>, piece: nat, cid: nat)
    requires t.Ok() && RefsOk(t, cs, ip, ps) && Refers(cs, cid, piece)
    ensures RefsOk(t, cs, ip[piece := cid], ps)
  {
  }

  lemma ChooseKeeps(t: Torrent, content: Bytes, s: State, peer: nat, candidates: set<nat>, endgame: bool)
    requires t.Ok() && Inv(t, content, s)
    ensures Inv(t, content, DoChoose(s, peer, candidates, endgame))
  {
    PeerMoves(t, s.collectors, s.inProgress, s.peers, peer, Choosing(candidates, endgame));
  }

  lemma StartKeeps(t: Torrent, content: Bytes, s: State, peer: nat, piece: nat, cid: nat)
    requires t.Ok() && Inv(t, content, s)
    ensures Inv(t, content, DoStart(t, s, peer, piece, cid))
  {
    if StartsPiece(t, s, peer, piece, cid) {
      var cs := s.collectors[cid := NewCollector(piece, t.Size(piece), t.hashes[piece])];
      CollectorChanges(t, s.collectors, s.inProgress, s.peers, cid, cs[cid]);
      PieceListed(t, cs, s.inProgress, s.peers, piece, cid);
      PeerMoves(t, cs, s.inProgress[piece := cid], s.peers, peer, Holding(piece, cid));
    }
  }

  lemma JoinKeeps(t: Torrent, content: Bytes, s: State, peer: nat, piece: nat)
    requires t.Ok() && Inv(t, content, s)
    ensures Inv(t, content, DoJoin(s, peer, piece))
  {
    if PeerOf(s, peer).Choosing? && piece in s.inProgress {
      PeerMoves(t, s.collectors, s.inProgress, s.peers, peer, Holding(piece, s.inProgress[piece]));
    }
  }

  lemma ClaimKeeps(t: Torrent, content: Bytes, s: State, peer: nat, offsets: set<nat>, now: Instant)
    requires t.Ok() && Inv(t, content, s)
    ensures Inv(t, content, DoClaim(s, peer, offsets, now))
  {
    if PeerOf(s, peer).Holding? && PeerOf(s, peer).cid in s.collectors {
      var cid := PeerOf(s, peer).cid;
      CollectorChanges(t, s.collectors, s.inProgress, s.peers, cid, WithIssued(s.collectors[cid], offsets, now));
    }
  }

  lemma DeliverKeeps(t: Torrent, content: Bytes, s: State, peer: nat, piece: nat, begin: nat, data: Bytes)
    requires t.Ok() && Inv(t, content, s)
    ensures Inv(t, content, DoDeliver(s, peer, piece, begin, data))
  {
    hide JobsOk, ReadersOk, CacheOk, HaveOk;
    var p := PeerOf(s, peer);
    if p.Holding? && p.piece == piece && p.cid in s.collectors {
      assert PeerRefers(s.collectors, s.peers[peer]);
      var c := s.collectors[p.cid].AddBlock(begin, data);
      CollectorChanges(t, s.collectors, s.inProgress, s.peers, p.cid, c);
      PeerMoves(t, s.collectors[p.cid := c], s.inProgress, s.peers, peer, Assembling(piece, p.cid));
    }
  }

  lemma AssembleKeeps(t: Torrent, content: Bytes, s: State, peer: nat, job: nat)
    requires t.Ok() && Inv(t, content, s)
    ensures Inv(t, content, DoAssemble(s, peer, job))
  {
    var p := PeerOf(s, peer);
    if p.Assembling? && p.cid in s.collectors && job !in s.jobs {
      assert PeerRefers(s.collectors, s.peers[peer]);
      assert CollectorOk(t, s.collectors[p.cid]);
      PeerMoves(t, s.collectors, s.inProgress, s.peers, peer, Idle);
    }
  }

  lemma LeaveKeeps(t: Torrent, content: Bytes, s: State, peer: nat, released: set<nat>)
    requires t.Ok() && Inv(t, content, s)
    ensures Inv(t, content, DoLeave(s, peer, released))
  {
    hide JobsOk, ReadersOk, CacheOk, HaveOk;
    var p := PeerOf(s, peer);
    PeerMoves(t, s.collectors, s.inProgress, s.peers, peer, Idle);
    if p.Holding? && p.cid in s.collectors {
      var c := s.collectors[p.cid].(issued := s.collectors[p.cid].issued - released);
      CollectorChanges(t, s.collectors, s.inProgress, s.peers - {peer}, p.cid, c);
    }
  }

  lemma JobsKeep(t: Torrent, content: Bytes, disk: Bytes, jobs: map<nat, Job>, id: nat, j: Job)
    requires t.Ok() && JobsOk(t, content, disk, jobs) && JobOk(t, content, disk, j)
    ensures JobsOk(t, content, disk, jobs[id := j]) && JobsOk(t, content, disk, jobs - {id})
  {
  }

  lemma JobRemoved(t: Torrent, content: Bytes, disk: Bytes, jobs: map<nat, Job>, id: nat)
    requires t.Ok() && JobsOk(t, content, disk, jobs)
    ensures JobsOk(t, content, disk, jobs - {id})
    ensures id in jobs ==> JobOk(t, content, disk, jobs[id])
  {
  }

  lemma CheckHashKeeps(t: Torrent, content: Bytes, s: State, job: nat)
    requires t.Ok() && t.Identifies(content) && Inv(t, content, s)
    ensures Inv(t, content, DoCheckHash(t, s, job))
  {
    hide JobsOk, ReadersOk, CacheOk, HaveOk, RefsOk;
    JobRemoved(t, content, s.disk, s.jobs, job);
    if job in s.jobs && s.jobs[job].phase.Hashing? {
      var j := s.jobs[job];
      if t.sha1(j.data) == j.expected {
        JobsKeep(t, content, s.disk, s.jobs, job, j.(phase := Writing(0)));
      } else {
        JobsKeep(t, content, s.disk, s.jobs, job, j.(phase := Rejected));
      }
    }
  }

  lemma LookAtHaveKeeps(t: Torrent, content: Bytes, s: State, job: nat)
    requires t.Ok() && Inv(t, content, s)
    ensures Inv(t, content, DoLookAtHave(s, job))
  {
    hide JobsOk, ReadersOk, CacheOk, HaveOk, RefsOk;
    JobRemoved(t, content, s.disk, s.jobs, job);
    if job in s.jobs && s.jobs[job].phase.Rejected? {
      JobsKeep(t, content, s.disk, s.jobs, job, s.jobs[job].(phase := Aborting));
    }
  }

  lemma AbortKeeps(t: Torrent, content: Bytes, s: State, job: nat)
    requires t.Ok() && Inv(t, content, s)
    ensures Inv(t, content, DoAbort(s, job))
  {
    hide JobsOk, ReadersOk, CacheOk, HaveOk, RefsOk;
    JobRemoved(t, content, s.disk, s.jobs, job);
    if job in s.jobs {
      PieceUnlisted(t, s.collectors, s.inProgress, s.peers, s.jobs[job].piece);
    }
  }

  lemma WriteFailsKeeps(t: Torrent, content: Bytes, s: State, job: nat)
    requires t.Ok() && Inv(t, content, s)
    ensures Inv(t, content, DoWriteFails(s, job))
  {
    hide JobsOk, ReadersOk, CacheOk, HaveOk, RefsOk;
    JobRemoved(t, content, s.disk, s.jobs, job);
    if job in s.jobs {
      JobsKeep(t, content, s.disk, s.jobs, job, s.jobs[job].(phase := Aborting));
    }
  }

  /** Passing over a Skip file loses nothing that is wanted. */
  lemma SkippedPartGood(t: Torrent, content: Bytes, disk: Bytes, j: Job, file: nat)
    requires t.Ok() && JobOk(t, content, disk, j) && j.phase.Writing? && j.phase.done < |j.data|
    requires Holds(t, file, Position(t, j, j.phase.done)) && Storage.IsSkipped(t.priorities, file)
    ensures 0 <= PartEnd(t, j, file) <= |j.data| && PieceGood(t, content, disk, j.piece, PartEnd(t, j, file))
  {
    var off := j.piece * t.pieceLength;
    forall p | off <= p < off + PartEnd(t, j, file) ensures ByteGood(t, content, disk, p) {
      if p >= off + j.phase.done {
        assert t.Skipped(p);
      }
    }
  }

  lemma SeekKeeps(t: Torrent, content: Bytes, s: State, job: nat, file: nat, handle: nat)
    requires t.Ok() && Inv(t, content, s)
    ensures Inv(t, content, DoSeek(t, s, job, file, handle))
  {
    hide JobsOk, ReadersOk, CacheOk, HaveOk, RefsOk, PieceGood;
    JobRemoved(t, content, s.disk, s.jobs, job);
    if Seeks(t, s, job, file, handle) {
      var j := s.jobs[job];
      if Storage.IsSkipped(t.priorities, file) {
        SkippedPartGood(t, content, s.disk, j, file);
        JobsKeep(t, content, s.disk, s.jobs, job, j.(phase := Writing(PartEnd(t, j, file))));
      } else {
        JobsKeep(t, content, s.disk, s.jobs, job, j.(phase := InFile(j.phase.done, file, handle)));
      }
    }
  }

  /** The shared position of the file is where the job left it. */
  ghost predicate JobAimed(t: Torrent, cursors: map<nat, Cursor>, j: Job) {
    j.phase.InFile? && InFileOk(t, j) ==>
      j.phase.handle in cursors && cursors[j.phase.handle] == SeekTarget(t, j, j.phase.file)
  }

  /** A write call of at least one byte finds the position where its job left it. */
  ghost predicate OnTarget(t: Torrent, s: State, step: Step) {
    step.WriteSome? && Writes(t, s, step.job, step.n) && step.n > 0 ==> JobAimed(t, s.cursors, s.jobs[step.job])
  }

  lemma EmptyWrite(t: Torrent, s: State, job: nat)
    requires Writes(t, s, job, 0) && InFileOk(t, s.jobs[job])
    ensures DoWriteSome(t, s, job, 0) == s
  {
    var j := s.jobs[job];
    var c := s.cursors[j.phase.handle];
    assert Landed(t, s.disk, j.phase.file, c.pos, j.data, j.phase.done, 0) == s.disk;
    assert s.jobs[job := j] == s.jobs;
  }

  /** A write call that finds the position where the job left it puts the bytes in place. */
  lemma WriteKeeps(t: Torrent, content: Bytes, s: State, job: nat, n: nat)
    requires t.Ok() && Inv(t, content, s) && OnTarget(t, s, WriteSome(job, n))
    ensures Inv(t, content, DoWriteSome(t, s, job, n))
  {
    hide JobsOk, ReadersOk, CacheOk, HaveOk, RefsOk, PieceGood, Grows, Patched, Landed;
    JobRemoved(t, content, s.disk, s.jobs, job);
    if Writes(t, s, job, n) {
      var j := s.jobs[job];
      if n == 0 {
        EmptyWrite(t, s, job);
        return;
      }
      var disk1 := Patched(t, s.disk, j.piece * t.pieceLength, j.data, j.phase.done, n);
      LandedIsPatched(t, s.disk, j, n);
      PatchGrows(t, content, s.disk, j, n);
      PatchSize(t, s.disk, j.piece * t.pieceLength, j.data, j.phase.done, n);
      GrowthKeeps(t, content, s, disk1);
      var s1 := DoWriteSome(t, s, job, n);
      JobsKeep(t, content, disk1, s.jobs, job, s1.jobs[job]);
    }
  }

  lemma PatchSize(t: Torrent, disk: Bytes, off: nat, data: Bytes, from: nat, n: nat)
    requires from + n <= |data|
    ensures |Patched(t, disk, off, data, from, n)| == |disk|
  {
  }

  /** What is left of the piece behind the last file is nowhere. */
  lemma WrittenIsGood(t: Torrent, content: Bytes, disk: Bytes, j: Job)
    requires t.Ok() && JobOk(t, content, disk, j) && Written(t, j) && |content| == TotalSize(t.files)
    ensures PieceGood(t, content, disk, j.piece, |j.data|)
  {
    var off := j.piece * t.pieceLength;
    forall p | off <= p < off + |j.data| ensures ByteGood(t, content, disk, p) {
    }
  }

  lemma EvictKeeps(t: Torrent, content: Bytes, s: State, job: nat)
    requires t.Ok() && Inv(t, content, s)
    ensures Inv(t, content, DoEvict(t, s, job))
  {
    hide JobsOk, ReadersOk, HaveOk, RefsOk, PieceGood, Reflects;
    JobRemoved(t, content, s.disk, s.jobs, job);
    if job in s.jobs && Written(t, s.jobs[job]) {
      WrittenIsGood(t, content, s.disk, s.jobs[job]);
      JobsKeep(t, content, s.disk, s.jobs, job, s.jobs[job].(phase := Unlisting));
    }
  }

  lemma UnlistKeeps(t: Torrent, content: Bytes, s: State, job: nat)
    requires t.Ok() && Inv(t, content, s)
    ensures Inv(t, content, DoUnlist(s, job))
  {
    hide JobsOk, ReadersOk, CacheOk, HaveOk, RefsOk, PieceGood;
    JobRemoved(t, content, s.disk, s.jobs, job);
    if job in s.jobs && s.jobs[job].phase.Unlisting? {
      PieceUnlisted(t, s.collectors, s.inProgress, s.peers, s.jobs[job].piece);
      JobsKeep(t, content, s.disk, s.jobs, job, s.jobs[job].(phase := Flagging));
    }
  }

  lemma FlagKeeps(t: Torrent, content: Bytes, s: State, job: nat)
    requires t.Ok() && Inv(t, content, s)
    ensures Inv(t, content, DoFlag(s, job))
  {
    hide JobsOk, ReadersOk, CacheOk, RefsOk, PieceGood;
    JobRemoved(t, content, s.disk, s.jobs, job);
  }

  lemma ReadersKeep(t: Torrent, content: Bytes, disk: Bytes, readers: map<nat, Reader>, id: nat, r: Reader)
    requires t.Ok() && ReadersOk(t, content, disk, readers) && ReaderOk(t, content, disk, r)
    ensures ReadersOk(t, content, disk, readers[id := r]) && ReadersOk(t, content, disk, readers - {id})
  {
  }

  lemma LookKeeps(t: Torrent, content: Bytes, s: State, reader: nat)
    requires t.Ok() && Inv(t, content, s)
    ensures Inv(t, content, DoLook(s, reader))
  {
    if reader in s.readers && s.readers[reader].phase.Looking? {
      assert ReaderOk(t, content, s.disk, s.readers[reader]);
      ReadersKeep(t, content, s.disk, s.readers, reader, DoLook(s, reader).readers[reader]);
    }
  }

  lemma FillKeeps(t: Torrent, content: Bytes, s: State, reader: nat, n: nat)
    requires t.Ok() && Inv(t, content, s)
    ensures Inv(t, content, DoFillSome(t, s, reader, n))
  {
    if reader in s.readers && s.readers[reader].phase.Filling?
      && |s.readers[reader].buffer| + n <= t.Size(s.readers[reader].piece) {
      assert ReaderOk(t, content, s.disk, s.readers[reader]);
      FillReflects(t, content, s.disk, s.readers[reader], n);
      ReadersKeep(t, content, s.disk, s.readers, reader, DoFillSome(t, s, reader, n).readers[reader]);
    }
  }

  lemma PublishKeeps(t: Torrent, content: Bytes, s: State, reader: nat)
    requires t.Ok() && Inv(t, content, s)
    ensures Inv(t, content, DoPublish(t, s, reader))
  {
    if reader in s.readers {
      assert ReaderOk(t, content, s.disk, s.readers[reader]);
    }
  }

  lemma ReadFailsKeeps(t: Torrent, content: Bytes, s: State, reader: nat)
    requires t.Ok() && Inv(t, content, s)
    ensures Inv(t, content, DoReadFails(s, reader))
  {
    if reader in s.readers {
      assert ReaderOk(t, content, s.disk, s.readers[reader]);
    }
  }

  lemma JudgeKeeps(t: Torrent, content: Bytes, s: State, reader: nat)
    requires t.Ok() && t.Identifies(content) && Inv(t, content, s)
    ensures Inv(t, content, DoJudge(t, s, reader))
  {
    if reader in s.readers && (s.readers[reader].phase.Finished? || s.readers[reader].phase.Failed?) {
      var r := s.readers[reader];
      assert ReaderOk(t, content, s.disk, r);
      if r.purpose.Recheck? {
        if t.sha1(r.buffer) == t.hashes[r.piece] {
          FullMatchIsGood(t, content, s.disk, r.piece, r.buffer);
        }
        ReadersKeep(t, content, s.disk, s.readers, reader, DoJudge(t, s, reader).readers[reader]);
      }
    }
  }

  /** Recheck moves on to the next piece, or ends. */
  lemma MoveOnKeeps(t: Torrent, content: Bytes, disk: Bytes, readers: map<nat, Reader>, reader: nat)
    requires t.Ok() && ReadersOk(t, content, disk, readers) && reader in readers
    ensures var r := readers[reader];
      && ReaderOk(t, content, disk, r) && ReadersOk(t, content, disk, readers - {reader})
      && (r.piece + 1 < t.NumPieces() ==>
            ReadersOk(t, content, disk, readers[reader := Reader(r.piece + 1, Recheck, Looking, [])]))
  {
    var r := readers[reader];
    if r.piece + 1 < t.NumPieces() {
      ReadersKeep(t, content, disk, readers, reader, Reader(r.piece + 1, Recheck, Looking, []));
    }
  }

  lemma ConcludeKeeps(t: Torrent, content: Bytes, s: State, reader: nat)
    requires t.Ok() && Inv(t, content, s)
    ensures Inv(t, content, DoConclude(t, s, reader))
  {
    hide JobsOk, ReadersOk, CacheOk, RefsOk, PieceGood, Reflects;
    if reader in s.readers {
      var r := s.readers[reader];
      MoveOnKeeps(t, content, s.disk, s.readers, reader);
      PieceUnlisted(t, s.collectors, s.inProgress, s.peers, r.piece);
      if r.phase.Confirming? {
        ReadersKeep(t, content, s.disk, s.readers, reader, r.(phase := Raising));
      } else if r.phase.Clearing? {
        ReadersKeep(t, content, s.disk, s.readers, reader, r.(phase := Dropping));
      }
    }
  }

  lemma WebFetchedKeeps(t: Torrent, content: Bytes, s: State, job: nat, piece: nat, data: Bytes)
    requires t.Ok() && Inv(t, content, s)
    ensures Inv(t, content, DoWebFetched(t, s, job, piece, data))
  {
  }

  lemma BeginServeKeeps(t: Torrent, content: Bytes, s: State, reader: nat, piece: nat)
    requires t.Ok() && Inv(t, content, s)
    ensures Inv(t, content, DoBeginServe(s, reader, piece))
  {
  }

  lemma BeginRecheckKeeps(t: Torrent, content: Bytes, s: State, reader: nat)
    requires t.Ok() && Inv(t, content, s)
    ensures Inv(t, content, DoBeginRecheck(t, s, reader))
  {
  }

  lemma CacheEvictsKeeps(t: Torrent, content: Bytes, s: State, piece: nat)
    requires t.Ok() && Inv(t, content, s)
    ensures Inv(t, content, s.(cache := s.cache - {piece}))
  {
  }

  // ----- every step that aims right keeps the invariant

  lemma PeerStepKeeps(t: Torrent, content: Bytes, s: State, step: Step)
    requires t.Ok() && Inv(t, content, s) && IsPeerStep(step)
    ensures Inv(t, content, Apply(t, s, step))
  {
    hide Inv, DoChoose, DoStart, DoJoin, DoClaim, DoDeliver, DoAssemble, DoLeave;
    match step
    case Choose(peer, candidates, endgame) => ChooseKeeps(t, content, s, peer, candidates, endgame);
    case StartPiece(peer, piece, cid) => StartKeeps(t, content, s, peer, piece, cid);
    case ForceStart(peer, piece, cid) =>
      StartKeeps(t, content, s, peer, piece, cid);
      JoinKeeps(t, content, s, peer, piece);
    case JoinPiece(peer, piece) => JoinKeeps(t, content, s, peer, piece);
    case ClaimBlocks(peer, offsets, now) => ClaimKeeps(t, content, s, peer, offsets, now);
    case Deliver(peer, piece, begin, data) => DeliverKeeps(t, content, s, peer, piece, begin, data);
    case Assemble(peer, job) => AssembleKeeps(t, content, s, peer, job);
    case Leave(peer, released) => LeaveKeeps(t, content, s, peer, released);
  }

  lemma JobStepKeeps(t: Torrent, content: Bytes, s: State, step: Step)
    requires t.Ok() && t.Identifies(content) && Inv(t, content, s) && IsJobStep(step)
    requires OnTarget(t, s, step)
    ensures Inv(t, content, Apply(t, s, step))
  {
    hide Inv, DoWebFetched, DoCheckHash, DoLookAtHave, DoAbort, DoSeek, DoWriteSome, DoWriteFails, DoEvict,
      DoUnlist, DoFlag, OnTarget;
    match step
    case WebFetched(job, piece, data) => WebFetchedKeeps(t, content, s, job, piece, data);
    case CheckHash(job) => CheckHashKeeps(t, content, s, job);
    case LookAtHave(job) => LookAtHaveKeeps(t, content, s, job);
    case Abort(job) => AbortKeeps(t, content, s, job);
    case Seek(job, file, handle) => SeekKeeps(t, content, s, job, file, handle);
    case WriteSome(job, n) => WriteKeeps(t, content, s, job, n);
    case WriteFails(job) => WriteFailsKeeps(t, content, s, job);
    case Evict(job) => EvictKeeps(t, content, s, job);
    case Unlist(job) => UnlistKeeps(t, content, s, job);
    case Flag(job) => FlagKeeps(t, content, s, job);
  }

  lemma ReaderStepKeeps(t: Torrent, content: Bytes, s: State, step: Step)
    requires t.Ok() && t.Identifies(content) && Inv(t, content, s) && !IsPeerStep(step) && !IsJobStep(step)
    ensures Inv(t, content, Apply(t, s, step))
  {
    hide Inv, DoBeginServe, DoBeginRecheck, DoLook, DoFillSome, DoPublish, DoReadFails, DoJudge, DoConclude;
    match step
    case BeginServe(reader, piece) => BeginServeKeeps(t, content, s, reader, piece);
    case BeginRecheck(reader) => BeginRecheckKeeps(t, content, s, reader);
    case Look(reader) => LookKeeps(t, content, s, reader);
    case FillSome(reader, n) => FillKeeps(t, content, s, reader, n);
    case Publish(reader) => PublishKeeps(t, content, s, reader);
    case ReadFails(reader) => ReadFailsKeeps(t, content, s, reader);
    case Judge(reader) => JudgeKeeps(t, content, s, reader);
    case Conclude(reader) => ConcludeKeeps(t, content, s, reader);
    case CacheEvicts(piece) => CacheEvictsKeeps(t, content, s, piece);
  }

  /** Every step keeps the invariant, a write call on condition that the job finds the file's
      position where it left it. */
  lemma StepKeeps(t: Torrent, content: Bytes, s: State, step: Step)
    requires t.Ok() && t.Identifies(content) && Inv(t, content, s)
    requires OnTarget(t, s, step)
    ensures Inv(t, content, Apply(t, s, step))
  {
    hide Inv, Apply, OnTarget;
    if IsPeerStep(step) {
      PeerStepKeeps(t, content, s, step);
    } else if IsJobStep(step) {
      JobStepKeeps(t, content, s, step);
    } else {
      ReaderStepKeeps(t, content, s, step);
    }
  }
}
