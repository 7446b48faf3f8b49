/** Peers, verify tasks, the webseed worker and recheck racing on one torrent
    (src/network.rs, src/webseed.rs, src/piece.rs, src/storage.rs), one atomic step at
    a time: a lock is held for at most one step, and a disk write or read may be
    interrupted after any number of bytes. */
module Pipeline {
  import opened Bytes
  import opened Layouts
  import Storage
  import opened Collectors

  // ----- the torrent

  datatype Torrent = Torrent(
    files: seq<FileInfo>,
    priorities: seq<FilePriority>,
    pieceLength: nat,
    hashes: seq<Digest>,
    sha1: Bytes -> Digest)
  {
    ghost predicate Ok() {
      Contiguous(files) && pieceLength > 0
    }

    function NumPieces(): nat {
      |hashes|
    }

    ghost function Size(i: nat): nat
      requires pieceLength > 0
    {
      PieceSize(|hashes|, pieceLength, TotalSize(files), i)
    }

    ghost predicate Skipped(p: nat) {
      Storage.SkippedAt(files, priorities, p)
    }

    /** The bytes of piece `i` in the flat content. */
    ghost function Piece(content: Bytes, i: nat): Bytes
      requires pieceLength > 0
    {
      Storage.Slice(content, i * pieceLength, Size(i))
    }

    /** No other data of at most a piece's size has the piece's hash. */
    ghost predicate Identifies(content: Bytes)
      requires pieceLength > 0
    {
      forall i, d :: 0 <= i < |hashes| && |d| <= Size(i) && sha1(d) == hashes[i] ==> d == Piece(content, i)
    }
  }

  // ----- the state

  /** `Choosing`: the candidates were drawn under the locks, none is started yet. */
  datatype Peer =
    | Idle
    | Choosing(candidates: set<nat>, endgame: bool)
    | Holding(piece: nat, cid: nat)
    | Assembling(piece: nat, cid: nat)
  {
    predicate HasCollector() {
      Holding? || Assembling?
    }
  }

  /** Where an open file stands. Every writer of a file gets a duplicate of one open file,
      and duplicates share its position. */
  datatype Cursor = Cursor(file: nat, pos: nat)

  /** `Writing`: `done` bytes of the piece are dealt with, between two files. `InFile`: after
      the seek in a file, `done` counting up to the end of the part that belongs there.
      `Rejected` and `Aborting` follow a wrong hash, the last two are the locks of
      `mark_piece_complete`. */
  datatype JobPhase =
    | Hashing
    | Rejected
    | Aborting
    | Writing(done: nat)
    | InFile(done: nat, file: nat, handle: nat)
    | Unlisting
    | Flagging

  /** A verify task spawned by a peer, or a webseed fetch. */
  datatype Job = Job(piece: nat, data: Bytes, expected: Digest, fromPeer: bool, phase: JobPhase)
  {
    predicate InWritePiece() {
      phase.Writing? || phase.InFile?
    }
  }

  datatype Purpose = Serve | Recheck

  datatype ReadPhase = Looking | Filling | Finished | Failed | Confirming | Raising | Clearing | Dropping

  datatype Reader = Reader(piece: nat, purpose: Purpose, phase: ReadPhase, buffer: Bytes)

  datatype State = State(
    have: seq<bool>,
    inProgress: map<nat, nat>,
    collectors: map<nat, Collector>,
    peers: map<nat, Peer>,
    jobs: map<nat, Job>,
    readers: map<nat, Reader>,
    disk: Bytes,
    cursors: map<nat, Cursor>,
    cache: map<nat, Bytes>)

  datatype Step =
    | Choose(peer: nat, candidates: set<nat>, endgame: bool)
    | StartPiece(peer: nat, piece: nat, cid: nat)
    | ForceStart(peer: nat, piece: nat, cid: nat)
    | JoinPiece(peer: nat, piece: nat)
    | ClaimBlocks(peer: nat, offsets: set<nat>, now: Instant)
    | Deliver(peer: nat, piece: nat, begin: nat, data: Bytes)
    | Assemble(peer: nat, job: nat)
    | Leave(peer: nat, released: set<nat>)
    | WebFetched(job: nat, piece: nat, data: Bytes)
    | CheckHash(job: nat)
    | LookAtHave(job: nat)
    | Abort(job: nat)
    | Seek(job: nat, file: nat, handle: nat)
    | WriteSome(job: nat, n: nat)
    | WriteFails(job: nat)
    | Evict(job: nat)
    | Unlist(job: nat)
    | Flag(job: nat)
    | BeginServe(reader: nat, piece: nat)
    | BeginRecheck(reader: nat)
    | Look(reader: nat)
    | FillSome(reader: nat, n: nat)
    | Publish(reader: nat)
    | ReadFails(reader: nat)
    | Judge(reader: nat)
    | Conclude(reader: nat)
    | CacheEvicts(piece: nat)

  // ----- peers and collectors

  function PeerOf(s: State, peer: nat): Peer {
    if peer in s.peers then s.peers[peer] else Idle
  }

  /** What `select_piece` may offer, or `get_endgame_pieces`. */
  predicate MayBeChosen(s: State, endgame: bool, i: nat) {
    i < |s.have| && !s.have[i] && (endgame || i !in s.inProgress)
  }

  function DoChoose(s: State, peer: nat, candidates: set<nat>, endgame: bool): State {
    if !PeerOf(s, peer).HasCollector() && forall i :: i in candidates ==> MayBeChosen(s, endgame, i) then
      s.(peers := s.peers[peer := Choosing(candidates, endgame)])
    else s
  }

  /** `try_start_piece`, on a candidate chosen some steps before */
  ghost function DoStart(t: Torrent, s: State, peer: nat, piece: nat, cid: nat): State
    requires t.Ok()
  {
    if StartsPiece(t, s, peer, piece, cid) then
      s.(collectors := s.collectors[cid := NewCollector(piece, t.Size(piece), t.hashes[piece])],
         inProgress := s.inProgress[piece := cid],
         peers := s.peers[peer := Holding(piece, cid)])
    else s
  }

  /** A collector is created. */
  predicate StartsPiece(t: Torrent, s: State, peer: nat, piece: nat, cid: nat) {
    && PeerOf(s, peer).Choosing? && piece in PeerOf(s, peer).candidates
    && piece < t.NumPieces() && piece !in s.inProgress && cid !in s.collectors
  }

  /** `pick_in_progress_for_peer`, and `force_start_piece` on a started piece */
  function DoJoin(s: State, peer: nat, piece: nat): State {
    if PeerOf(s, peer).Choosing? && piece in s.inProgress then
      s.(peers := s.peers[peer := Holding(piece, s.inProgress[piece])])
    else s
  }

  ghost function DoForceStart(t: Torrent, s: State, peer: nat, piece: nat, cid: nat): State
    requires t.Ok()
  {
    if !PeerOf(s, peer).Choosing? || !PeerOf(s, peer).endgame || piece !in PeerOf(s, peer).candidates then s
    else if piece in s.inProgress then DoJoin(s, peer, piece)
    else DoStart(t, s, peer, piece, cid)
  }

  function WithIssued(c: Collector, offsets: set<nat>, now: Instant): Collector {
    c.(issued := c.issued + map o | o in offsets :: now)
  }

  function DoClaim(s: State, peer: nat, offsets: set<nat>, now: Instant): State {
    match PeerOf(s, peer)
    case Holding(_, cid) =>
      if cid in s.collectors then s.(collectors := s.collectors[cid := WithIssued(s.collectors[cid], offsets, now)])
      else s
    case _ => s
  }

  /** A Piece message: ignored unless it is for the piece this peer works on. */
  function DoDeliver(s: State, peer: nat, piece: nat, begin: nat, data: Bytes): State {
    match PeerOf(s, peer)
    case Holding(current, cid) =>
      if current == piece && cid in s.collectors then
        var c := s.collectors[cid].AddBlock(begin, data);
        s.(collectors := s.collectors[cid := c],
           peers := if c.IsComplete() then s.peers[peer := Assembling(piece, cid)] else s.peers)
      else s
    case _ => s
  }

  /** Take a copy of the complete collector and spawn a verify task for it. */
  ghost function DoAssemble(s: State, peer: nat, job: nat): State {
    match PeerOf(s, peer)
    case Assembling(piece, cid) =>
      if cid in s.collectors && job !in s.jobs then
        s.(jobs := s.jobs[job := Job(piece, s.collectors[cid].Assembled(), s.collectors[cid].expected, true, Hashing)],
           peers := s.peers[peer := Idle])
      else s
    case _ => s
  }

  function DoLeave(s: State, peer: nat, released: set<nat>): State {
    match PeerOf(s, peer)
    case Holding(_, cid) =>
      if cid in s.collectors then
        s.(collectors := s.collectors[cid := s.collectors[cid].(issued := s.collectors[cid].issued - released)],
           peers := s.peers - {peer})
      else s
    case _ => s.(peers := s.peers - {peer})
  }

  // ----- verify tasks and webseed fetches

  ghost function DoWebFetched(t: Torrent, s: State, job: nat, piece: nat, data: Bytes): State
    requires t.Ok()
  {
    if job !in s.jobs && piece < t.NumPieces() && |data| <= t.Size(piece) then
      s.(jobs := s.jobs[job := Job(piece, data, t.hashes[piece], false, Hashing)])
    else s
  }

  /** On a mismatch a verify task goes on to abort the piece; a webseed fetch is dropped. */
  function DoCheckHash(t: Torrent, s: State, job: nat): State {
    if job in s.jobs && s.jobs[job].phase.Hashing? then
      var j := s.jobs[job];
      if t.sha1(j.data) == j.expected then s.(jobs := s.jobs[job := j.(phase := Writing(0))])
      else if j.fromPeer then s.(jobs := s.jobs[job := j.(phase := Rejected)])
      else s.(jobs := s.jobs - {job})
    else s
  }

  /** A piece that is present by now is not aborted. */
  function DoLookAtHave(s: State, job: nat): State {
    if job in s.jobs && s.jobs[job].phase.Rejected? then
      var j := s.jobs[job];
      if j.piece < |s.have| && s.have[j.piece] then s.(jobs := s.jobs - {job})
      else s.(jobs := s.jobs[job := j.(phase := Aborting)])
    else s
  }

  function DoAbort(s: State, job: nat): State {
    if job in s.jobs && s.jobs[job].phase.Aborting? then
      s.(inProgress := s.inProgress - {s.jobs[job].piece}, jobs := s.jobs - {job})
    else s
  }

  /** `n` bytes of `data`, from its byte `from` on, reach the disk outside Skip files. */
  ghost function Patched(t: Torrent, disk: Bytes, off: nat, data: Bytes, from: nat, n: nat): Bytes
    requires from + n <= |data|
  {
    seq(|disk|, p requires 0 <= p < |disk| =>
      if off + from <= p < off + from + n && !t.Skipped(p) then data[p - off] else disk[p])
  }

  /** The file that holds absolute position `p`. */
  ghost predicate Holds(t: Torrent, file: nat, p: nat) {
    file < |t.files| && t.files[file].offset <= p < t.files[file].offset + t.files[file].length
  }

  /** The next byte of a piece in absolute terms. */
  function Position(t: Torrent, j: Job, done: nat): nat {
    j.piece * t.pieceLength + done
  }

  /** Where the part of the piece that belongs to `file` ends, counted in the piece. */
  function PartEnd(t: Torrent, j: Job, file: nat): int
    requires file < |t.files|
  {
    Min(|j.data|, t.files[file].offset + t.files[file].length - j.piece * t.pieceLength)
  }

  /** The next turn of the loop of `write_piece`: a Skip file is passed over; otherwise the
      job gets a duplicate of some open file for it, or opens one, and seeks. */
  ghost function DoSeek(t: Torrent, s: State, job: nat, file: nat, handle: nat): State {
    if Seeks(t, s, job, file, handle) then
      var j := s.jobs[job];
      if Storage.IsSkipped(t.priorities, file) then
        s.(jobs := s.jobs[job := j.(phase := Writing(PartEnd(t, j, file)))])
      else
        s.(cursors := s.cursors[handle := SeekTarget(t, j, file)],
           jobs := s.jobs[job := j.(phase := InFile(j.phase.done, file, handle))])
    else s
  }

  ghost predicate Seeks(t: Torrent, s: State, job: nat, file: nat, handle: nat) {
    && job in s.jobs && s.jobs[job].phase.Writing? && s.jobs[job].phase.done < |s.jobs[job].data|
    && Holds(t, file, Position(t, s.jobs[job], s.jobs[job].phase.done))
    && (handle in s.cursors ==> s.cursors[handle].file == file)
  }

  ghost function SeekTarget(t: Torrent, j: Job, file: nat): Cursor
    requires j.InWritePiece() && Holds(t, file, Position(t, j, j.phase.done))
  {
    Cursor(file, Position(t, j, j.phase.done) - t.files[file].offset)
  }

  /** `n` bytes of `data`, from its byte `from` on, written to `file` at position `pos`. What
      falls behind the declared end of the file is never read back. */
  ghost function Landed(t: Torrent, disk: Bytes, file: nat, pos: nat, data: Bytes, from: nat, n: nat): Bytes
    requires file < |t.files| && from + n <= |data|
  {
    var start := t.files[file].offset + pos;
    seq(|disk|, p requires 0 <= p < |disk| =>
      if start <= p < start + n && p < t.files[file].offset + t.files[file].length then data[from + p - start]
      else disk[p])
  }

  /** One write call of `write_all`: it writes where the shared position stands and moves it. */
  ghost function DoWriteSome(t: Torrent, s: State, job: nat, n: nat): State {
    if Writes(t, s, job, n) then
      var j := s.jobs[job];
      var c := s.cursors[j.phase.handle];
      var done := j.phase.done + n;
      s.(disk := Landed(t, s.disk, j.phase.file, c.pos, j.data, j.phase.done, n),
         cursors := s.cursors[j.phase.handle := c.(pos := c.pos + n)],
         jobs := s.jobs[job :=
           j.(phase := if done == PartEnd(t, j, j.phase.file) then Writing(done) else j.phase.(done := done))])
    else s
  }

  ghost predicate Writes(t: Torrent, s: State, job: nat, n: nat) {
    && job in s.jobs && s.jobs[job].phase.InFile?
    && var j := s.jobs[job];
       && j.phase.handle in s.cursors && j.phase.file < |t.files|
       && j.phase.done + n <= PartEnd(t, j, j.phase.file)
  }

  /** An I/O error: a verify task goes on to abort the piece. */
  function DoWriteFails(s: State, job: nat): State {
    if job in s.jobs && s.jobs[job].InWritePiece() then
      var j := s.jobs[job];
      if j.fromPeer then s.(jobs := s.jobs[job := j.(phase := Aborting)]) else s.(jobs := s.jobs - {job})
    else s
  }

  /** After the loop, which also ends behind the last file. */
  ghost function DoEvict(t: Torrent, s: State, job: nat): State {
    if job in s.jobs && Written(t, s.jobs[job]) then
      var j := s.jobs[job];
      s.(cache := s.cache - {j.piece}, jobs := s.jobs[job := j.(phase := Unlisting)])
    else s
  }

  ghost predicate Written(t: Torrent, j: Job) {
    j.phase.Writing? && (j.phase.done == |j.data| || Position(t, j, j.phase.done) >= TotalSize(t.files))
  }

  function DoUnlist(s: State, job: nat): State {
    if job in s.jobs && s.jobs[job].phase.Unlisting? then
      var j := s.jobs[job];
      s.(inProgress := s.inProgress - {j.piece}, jobs := s.jobs[job := j.(phase := Flagging)])
    else s
  }

  function DoFlag(s: State, job: nat): State {
    if job in s.jobs && s.jobs[job].phase.Flagging? && s.jobs[job].piece < |s.have| then
      s.(have := s.have[s.jobs[job].piece := true], jobs := s.jobs - {job})
    else s
  }

  // ----- reading and rechecking

  function DoBeginServe(s: State, reader: nat, piece: nat): State {
    if reader !in s.readers && piece < |s.have| && s.have[piece] then
      s.(readers := s.readers[reader := Reader(piece, Serve, Looking, [])])
    else s
  }

  function DoBeginRecheck(t: Torrent, s: State, reader: nat): State {
    if reader !in s.readers && t.NumPieces() > 0 then
      s.(readers := s.readers[reader := Reader(0, Recheck, Looking, [])])
    else s
  }

  function DoLook(s: State, reader: nat): State {
    if reader in s.readers && s.readers[reader].phase.Looking? then
      var r := s.readers[reader];
      s.(readers := s.readers[reader :=
        if r.piece in s.cache then r.(phase := Finished, buffer := s.cache[r.piece])
          else r.(phase := Filling, buffer := [])])
    else s
  }

  ghost function DoFillSome(t: Torrent, s: State, reader: nat, n: nat): State
    requires t.Ok()
  {
    if reader in s.readers && s.readers[reader].phase.Filling?
      && |s.readers[reader].buffer| + n <= t.Size(s.readers[reader].piece) then
      var r := s.readers[reader];
      s.(readers := s.readers[reader :=
        r.(buffer := r.buffer + Storage.Slice(s.disk, r.piece * t.pieceLength + |r.buffer|, n))])
    else s
  }

  /** The put after a miss; nothing was locked while the disk was read. */
  ghost function DoPublish(t: Torrent, s: State, reader: nat): State
    requires t.Ok()
  {
    if reader in s.readers && s.readers[reader].phase.Filling?
      && |s.readers[reader].buffer| == t.Size(s.readers[reader].piece) then
      var r := s.readers[reader];
      s.(cache := s.cache[r.piece := r.buffer], readers := s.readers[reader := r.(phase := Finished)])
    else s
  }

  function DoReadFails(s: State, reader: nat): State {
    if reader in s.readers && s.readers[reader].phase.Filling? then
      s.(readers := s.readers[reader := s.readers[reader].(phase := Failed)])
    else s
  }

  /** A served read ends here; recheck compares the hash. */
  function DoJudge(t: Torrent, s: State, reader: nat): State {
    if reader in s.readers && (s.readers[reader].phase.Finished? || s.readers[reader].phase.Failed?) then
      var r := s.readers[reader];
      if r.purpose.Serve? then s.(readers := s.readers - {reader})
      else
        var ok := r.phase.Finished? && r.piece < t.NumPieces() && t.sha1(r.buffer) == t.hashes[r.piece];
        s.(readers := s.readers[reader := r.(phase := if ok then Confirming else Clearing)])
    else s
  }

  /** The lock-by-lock verdict of recheck, and its move to the next piece. */
  function DoConclude(t: Torrent, s: State, reader: nat): State {
    if reader in s.readers && s.readers[reader].piece < |s.have| then
      var r := s.readers[reader];
      var next := if r.piece + 1 < t.NumPieces() then s.readers[reader := Reader(r.piece + 1, Recheck, Looking, [])]
                  else s.readers - {reader};
      match r.phase
      case Confirming => s.(inProgress := s.inProgress - {r.piece},
        readers := s.readers[reader := r.(phase := Raising)])
      case Raising => s.(have := s.have[r.piece := true], readers := next)
      case Clearing => s.(have := s.have[r.piece := false], readers := s.readers[reader := r.(phase := Dropping)])
      case Dropping => s.(inProgress := s.inProgress - {r.piece}, readers := next)
      case _ => s
    else s
  }

  ghost function Apply(t: Torrent, s: State, step: Step): State
    requires t.Ok()
  {
    match step
    case Choose(peer, candidates, endgame) => DoChoose(s, peer, candidates, endgame)
    case StartPiece(peer, piece, cid) => DoStart(t, s, peer, piece, cid)
    case ForceStart(peer, piece, cid) => DoForceStart(t, s, peer, piece, cid)
    case JoinPiece(peer, piece) => DoJoin(s, peer, piece)
    case ClaimBlocks(peer, offsets, now) => DoClaim(s, peer, offsets, now)
    case Deliver(peer, piece, begin, data) => DoDeliver(s, peer, piece, begin, data)
    case Assemble(peer, job) => DoAssemble(s, peer, job)
    case Leave(peer, released) => DoLeave(s, peer, released)
    case WebFetched(job, piece, data) => DoWebFetched(t, s, job, piece, data)
    case CheckHash(job) => DoCheckHash(t, s, job)
    case LookAtHave(job) => DoLookAtHave(s, job)
    case Abort(job) => DoAbort(s, job)
    case Seek(job, file, handle) => DoSeek(t, s, job, file, handle)
    case WriteSome(job, n) => DoWriteSome(t, s, job, n)
    case WriteFails(job) => DoWriteFails(s, job)
    case Evict(job) => DoEvict(t, s, job)
    case Unlist(job) => DoUnlist(s, job)
    case Flag(job) => DoFlag(s, job)
    case BeginServe(reader, piece) => DoBeginServe(s, reader, piece)
    case BeginRecheck(reader) => DoBeginRecheck(t, s, reader)
    case Look(reader) => DoLook(s, reader)
    case FillSome(reader, n) => DoFillSome(t, s, reader, n)
    case Publish(reader) => DoPublish(t, s, reader)
    case ReadFails(reader) => DoReadFails(s, reader)
    case Judge(reader) => DoJudge(t, s, reader)
    case Conclude(reader) => DoConclude(t, s, reader)
    case CacheEvicts(piece) => s.(cache := s.cache - {piece})
  }

  /** The state after a whole schedule. */
  ghost function Run(t: Torrent, s: State, steps: seq<Step>): State
    requires t.Ok()
    decreases |steps|
  {
    if steps == [] then s else Run(t, Apply(t, s, steps[0]), steps[1..])
  }

  lemma {:induction false} RunSplits(t: Torrent, s: State, first: seq<Step>, second: seq<Step>)
    requires t.Ok()
    ensures Run(t, s, first + second) == Run(t, Run(t, s, first), second)
    decreases |first|
  {
    hide Apply;
    if first == [] {
      assert first + second == second;
    } else {
      assert (first + second)[1..] == first[1..] + second;
      RunSplits(t, Apply(t, s, first[0]), first[1..], second);
    }
  }

  lemma RunOne(t: Torrent, s: State, a: Step)
    requires t.Ok()
    ensures Run(t, s, [a]) == Apply(t, s, a) && Run(t, s, []) == s
  {
    hide Apply;
    assert [a][1..] == [];
  }

  lemma RunLast(t: Torrent, s: State, steps: seq<Step>, step: Step)
    requires t.Ok()
    ensures Run(t, s, steps + [step]) == Apply(t, Run(t, s, steps), step)
  {
    hide Apply;
    RunSplits(t, s, steps, [step]);
    RunOne(t, Run(t, s, steps), step);
  }
}
