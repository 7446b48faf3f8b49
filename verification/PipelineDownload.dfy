/** Downloads that go well and downloads that do not, from the first request for a piece to the
    flag that says it is there (src/network.rs, src/webseed.rs, src/piece.rs). */
module PipelineDownload {
  import opened Bytes
  import opened Layouts
  import Storage
  import Collectors
  import opened Pipeline
  import opened PipelineSafety
  import opened PipelineRuns
  import PipelineStorage

  // ----- several peers on one piece

  /** Only peers and collectors differ. */
  ghost predicate OnlyPeersDiffer(s: State, s1: State) {
    s1 == s.(peers := s1.peers, collectors := s1.collectors, inProgress := s1.inProgress)
  }

  /** The first peer starts the piece, the others join it. */
  ghost function Joining(peers: seq<nat>, piece: nat): seq<Step> {
    if peers == [] then []
    else
      var p := peers[|peers| - 1];
      Joining(peers[..|peers| - 1], piece) + [Choose(p, {}, false), JoinPiece(p, piece)]
  }

  ghost function Beginning(first: nat, others: seq<nat>, piece: nat, cid: nat): seq<Step> {
    [Choose(first, {piece}, false), StartPiece(first, piece, cid)] + Joining(others, piece)
  }

  ghost predicate Free(s: State, peer: nat) {
    !PeerOf(s, peer).HasCollector()
  }

  lemma TwoSteps(t: Torrent, s: State, a: Step, b: Step)
    requires t.Ok()
    ensures Run(t, s, [a, b]) == Apply(t, Apply(t, s, a), b)
  {
    hide Apply;
    RunOne(t, s, a);
    RunLast(t, s, [a], b);
    assert [a] + [b] == [a, b];
  }

  lemma PieceBegins(t: Torrent, s: State, first: nat, piece: nat, cid: nat)
    requires t.Ok() && |s.have| == t.NumPieces() && piece < |s.have| && !s.have[piece]
    requires piece !in s.inProgress && cid !in s.collectors && Free(s, first)
    ensures Run(t, s, [Choose(first, {piece}, false), StartPiece(first, piece, cid)])
      == s.(peers := s.peers[first := Holding(piece, cid)],
            collectors := s.collectors[cid := Collectors.NewCollector(piece, t.Size(piece), t.hashes[piece])],
            inProgress := s.inProgress[piece := cid])
  {
    TwoSteps(t, s, Choose(first, {piece}, false), StartPiece(first, piece, cid));
    hide Run;
    var s1 := DoChoose(s, first, {piece}, false);
    assert s1 == s.(peers := s.peers[first := Choosing({piece}, false)]);
    assert s1.peers[first := Holding(piece, cid)] == s.peers[first := Holding(piece, cid)];
  }

  lemma PeerJoins(t: Torrent, s: State, peer: nat, piece: nat)
    requires t.Ok() && piece in s.inProgress && Free(s, peer)
    ensures Run(t, s, [Choose(peer, {}, false), JoinPiece(peer, piece)])
      == s.(peers := s.peers[peer := Holding(piece, s.inProgress[piece])])
  {
    TwoSteps(t, s, Choose(peer, {}, false), JoinPiece(peer, piece));
    hide Run;
    var s1 := DoChoose(s, peer, {}, false);
    assert s1 == s.(peers := s.peers[peer := Choosing({}, false)]);
    var h := Holding(piece, s.inProgress[piece]);
    assert s1.peers[peer := h] == s.peers[peer := h];
  }

  ghost predicate Distinct(peers: seq<nat>) {
    forall i, j :: 0 <= i < j < |peers| ==> peers[i] != peers[j]
  }

  lemma {:induction false} AllJoin(t: Torrent, s: State, peers: seq<nat>, piece: nat)
    requires t.Ok() && piece in s.inProgress && Distinct(peers) && forall p :: p in peers ==> Free(s, p)
    ensures var s1 := Run(t, s, Joining(peers, piece));
      && s1 == s.(peers := s1.peers)
      && (forall p :: p in peers ==> p in s1.peers && s1.peers[p] == Holding(piece, s.inProgress[piece]))
      && (forall p :: p !in peers ==> (p in s1.peers <==> p in s.peers) && (p in s.peers ==> s1.peers[p] == s.peers[p]))
    decreases |peers|
  {
    hide Run;
    if peers == [] {
      RunOne(t, s, Choose(0, {}, false));
    } else {
      var last, rest := peers[|peers| - 1], peers[..|peers| - 1];
      AllJoin(t, s, rest, piece);
      var s1 := Run(t, s, Joining(rest, piece));
      assert last !in rest;
      RunSplits(t, s, Joining(rest, piece), [Choose(last, {}, false), JoinPiece(last, piece)]);
      PeerJoins(t, s1, last, piece);
    }
  }

  /** Everybody is at work on the piece, whose collector is empty. */
  lemma AllBegin(t: Torrent, s: State, first: nat, others: seq<nat>, piece: nat, cid: nat)
    requires t.Ok() && |s.have| == t.NumPieces() && piece < |s.have| && !s.have[piece]
    requires piece !in s.inProgress && cid !in s.collectors
    requires Distinct([first] + others) && forall p :: p in [first] + others ==> Free(s, p)
    ensures var s1 := Run(t, s, Beginning(first, others, piece, cid));
      && OnlyPeersDiffer(s, s1) && s1.inProgress == s.inProgress[piece := cid]
      && s1.collectors == s.collectors[cid := Collectors.NewCollector(piece, t.Size(piece), t.hashes[piece])]
      && forall p :: p in [first] + others ==> p in s1.peers && s1.peers[p] == Holding(piece, cid)
  {
    hide Run;
    var start := [Choose(first, {piece}, false), StartPiece(first, piece, cid)];
    PieceBegins(t, s, first, piece, cid);
    var s1 := Run(t, s, start);
    RunSplits(t, s, start, Joining(others, piece));
    forall i, j | 0 <= i < j < |others| ensures others[i] != others[j] {
      assert ([first] + others)[i + 1] != ([first] + others)[j + 1];
    }
    forall p | p in others ensures Free(s1, p) {
      var k :| 0 <= k < |others| && others[k] == p;
      assert ([first] + others)[0] != ([first] + others)[k + 1];
      assert p in [first] + others;
    }
    forall k | 0 <= k < |others| ensures others[k] != first {
      assert ([first] + others)[0] != ([first] + others)[k + 1];
    }
    assert first in [first] + others;
    AllJoin(t, s1, others, piece);
  }

  // ----- blocks in any order from any of them

  datatype Sent = Sent(peer: nat, offset: nat, data: Bytes)

  ghost function Deliveries(piece: nat, sent: seq<Sent>): seq<Step> {
    if sent == [] then []
    else
      var last := sent[|sent| - 1];
      Deliveries(piece, sent[..|sent| - 1]) + [Deliver(last.peer, piece, last.offset, last.data)]
  }

  ghost predicate WasSent(sent: seq<Sent>, offset: nat) {
    exists k :: 0 <= k < |sent| && sent[k].offset == offset
  }

  ghost predicate Honest(sent: seq<Sent>, peers: seq<nat>, truth: Bytes) {
    forall d :: d in sent ==> d.peer in peers && Collectors.IsTrueBlock(truth, d.offset, d.data)
  }

  ghost predicate SomeoneAssembles(s: State, peers: seq<nat>, piece: nat, cid: nat) {
    exists p :: p in peers && p in s.peers && s.peers[p] == Assembling(piece, cid)
  }

  /** The collector holds true blocks, and once it is complete one of the peers has noticed. */
  ghost predicate AtWork(t: Torrent, s: State, truth: Bytes, peers: seq<nat>, piece: nat, cid: nat) {
    && piece < t.NumPieces() && cid in s.collectors
    && var c := s.collectors[cid];
       && c.expected == t.hashes[piece] && Collectors.TrueBlocks(c, truth)
       && (forall p :: p in peers ==>
             && p in s.peers
             && (s.peers[p] == Holding(piece, cid) || (s.peers[p] == Assembling(piece, cid) && c.IsComplete())))
       && (c.IsComplete() ==> SomeoneAssembles(s, peers, piece, cid))
  }

  lemma StillComplete(c: Collectors.Collector, truth: Bytes, offset: nat, data: Bytes)
    requires Collectors.TrueBlocks(c, truth) && Collectors.IsTrueBlock(truth, offset, data)
    ensures Collectors.TrueBlocks(c.AddBlock(offset, data), truth)
    ensures c.IsComplete() ==> c.AddBlock(offset, data).IsComplete()
  {
    Collectors.CompleteMeansAllPresent(c, truth);
    Collectors.CompleteMeansAllPresent(c.AddBlock(offset, data), truth);
  }

  lemma DeliveryCounts(t: Torrent, s: State, truth: Bytes, peers: seq<nat>, piece: nat, cid: nat, d: Sent)
    requires AtWork(t, s, truth, peers, piece, cid)
    requires d.peer in peers && Collectors.IsTrueBlock(truth, d.offset, d.data)
    ensures var s1 := DoDeliver(s, d.peer, piece, d.offset, d.data);
      && AtWork(t, s1, truth, peers, piece, cid)
      && s1 == s.(peers := s1.peers, collectors := s1.collectors)
      && (forall o :: o in s1.collectors[cid].blocks <==> o in s.collectors[cid].blocks || o == d.offset)
  {
    hide Collectors.Collector.IsComplete, Collectors.TrueBlocks, Collectors.IsTrueBlock;
    var c := s.collectors[cid];
    if s.peers[d.peer].Holding? {
      var c1 := c.AddBlock(d.offset, d.data);
      StillComplete(c, truth, d.offset, d.data);
      assert c1.expected == c.expected;
      if c1.IsComplete() {
        BlockCompletes(t, s, truth, peers, piece, cid, d);
      } else {
        BlockAdds(t, s, truth, peers, piece, cid, d);
      }
    } else {
      LateBlock(c, truth, d);
    }
  }

  lemma BlockCompletes(t: Torrent, s: State, truth: Bytes, peers: seq<nat>, piece: nat, cid: nat, d: Sent)
    requires AtWork(t, s, truth, peers, piece, cid) && d.peer in peers && s.peers[d.peer].Holding?
    requires s.collectors[cid].AddBlock(d.offset, d.data).IsComplete()
    requires Collectors.TrueBlocks(s.collectors[cid].AddBlock(d.offset, d.data), truth)
    requires s.collectors[cid].AddBlock(d.offset, d.data).expected == t.hashes[piece]
    ensures AtWork(t, DoDeliver(s, d.peer, piece, d.offset, d.data), truth, peers, piece, cid)
  {
    hide Collectors.Collector.IsComplete, Collectors.TrueBlocks, Collectors.Collector.AddBlock;
    var s1 := DoDeliver(s, d.peer, piece, d.offset, d.data);
    assert s1.peers[d.peer] == Assembling(piece, cid);
    assert SomeoneAssembles(s1, peers, piece, cid);
  }

  lemma BlockAdds(t: Torrent, s: State, truth: Bytes, peers: seq<nat>, piece: nat, cid: nat, d: Sent)
    requires AtWork(t, s, truth, peers, piece, cid) && d.peer in peers && s.peers[d.peer].Holding?
    requires !s.collectors[cid].AddBlock(d.offset, d.data).IsComplete() && !s.collectors[cid].IsComplete()
    requires Collectors.TrueBlocks(s.collectors[cid].AddBlock(d.offset, d.data), truth)
    ensures AtWork(t, DoDeliver(s, d.peer, piece, d.offset, d.data), truth, peers, piece, cid)
  {
    hide Collectors.Collector.IsComplete, Collectors.TrueBlocks, SomeoneAssembles;
    var s1 := DoDeliver(s, d.peer, piece, d.offset, d.data);
    assert s1.peers == s.peers;
  }

  /** A complete collector has the block already. */
  lemma LateBlock(c: Collectors.Collector, truth: Bytes, d: Sent)
    requires Collectors.TrueBlocks(c, truth) && c.IsComplete() && Collectors.IsTrueBlock(truth, d.offset, d.data)
    ensures d.offset in c.blocks
  {
    Collectors.CompleteMeansAllPresent(c, truth);
    assert Collectors.IsTileOffset(c.pieceSize, d.offset);
  }

  lemma {:induction false} AllDeliver(t: Torrent, s: State, truth: Bytes, peers: seq<nat>, piece: nat, cid: nat,
          sent: seq<Sent>)
    requires t.Ok() && AtWork(t, s, truth, peers, piece, cid) && s.collectors[cid].blocks == map[]
    requires Honest(sent, peers, truth)
    ensures var s1 := Run(t, s, Deliveries(piece, sent));
      && AtWork(t, s1, truth, peers, piece, cid)
      && s1 == s.(peers := s1.peers, collectors := s1.collectors)
      && (forall o: nat :: o in s1.collectors[cid].blocks <==> WasSent(sent, o))
    decreases |sent|
  {
    hide Run, AtWork;
    if sent == [] {
      RunOne(t, s, Choose(0, {}, false));
    } else {
      var rest, d := sent[..|sent| - 1], sent[|sent| - 1];
      AllDeliver(t, s, truth, peers, piece, cid, rest);
      RunLast(t, s, Deliveries(piece, rest), Deliver(d.peer, piece, d.offset, d.data));
      DeliveryCounts(t, Run(t, s, Deliveries(piece, rest)), truth, peers, piece, cid, d);
      forall o: nat ensures WasSent(sent, o) <==> WasSent(rest, o) || o == d.offset {
        SentGrows(sent, o);
      }
    }
  }

  lemma SentGrows(sent: seq<Sent>, o: nat)
    requires sent != []
    ensures WasSent(sent, o) <==> WasSent(sent[..|sent| - 1], o) || o == sent[|sent| - 1].offset
  {
    var rest := sent[..|sent| - 1];
    if WasSent(sent, o) && o != sent[|sent| - 1].offset {
      var k :| 0 <= k < |sent| && sent[k].offset == o;
      assert rest[k].offset == o;
    }
    if WasSent(rest, o) {
      var k :| 0 <= k < |rest| && rest[k].offset == o;
      assert sent[k].offset == o;
    }
  }

  // ----- the verify task

  lemma PieceVerifies(t: Torrent, s: State, truth: Bytes, peers: seq<nat>, piece: nat, cid: nat, p: nat, job: nat)
    requires t.Ok() && AtWork(t, s, truth, peers, piece, cid) && s.collectors[cid].IsComplete()
    requires p in s.peers && s.peers[p] == Assembling(piece, cid) && job !in s.jobs
    requires t.sha1(truth) == t.hashes[piece]
    ensures Run(t, s, [Assemble(p, job), CheckHash(job)])
      == s.(peers := s.peers[p := Idle], jobs := s.jobs[job := Job(piece, truth, t.hashes[piece], true, Writing(0))])
  {
    hide Collectors.Collector.IsComplete, Collectors.TrueBlocks, Collectors.Collector.Assembled;
    TwoSteps(t, s, Assemble(p, job), CheckHash(job));
    hide Run;
    var c := s.collectors[cid];
    Collectors.AssembledIsTruth(c, truth);
    var s1 := DoAssemble(s, p, job);
    var j := Job(piece, truth, t.hashes[piece], true, Hashing);
    assert s1 == s.(peers := s.peers[p := Idle], jobs := s.jobs[job := j]);
    assert s1.jobs[job := j.(phase := Writing(0))] == s.jobs[job := j.(phase := Writing(0))];
  }

  // ----- the loop over the files

  /** A handle for each file, none of them open for another file. */
  ghost predicate HandlesFit(t: Torrent, cursors: map<nat, Cursor>, handles: seq<nat>) {
    && |handles| == |t.files| && Distinct(handles)
    && forall f :: 0 <= f < |handles| && handles[f] in cursors ==> cursors[handles[f]].file == f
  }

  /** The file that holds the next byte; there is one below the end of the torrent. */
  ghost function NextFile(t: Torrent, p: nat): (f: nat)
    requires t.Ok() && p < TotalSize(t.files)
    ensures Holds(t, f, p)
  {
    assert exists f: nat :: Holds(t, f, p) by {
      var f := OwnerExists(t.files, p, |t.files|);
      assert Holds(t, f, p);
    }
    var f: nat :| Holds(t, f, p);
    f
  }

  /** One turn of the loop, the part in one write call. */
  ghost function Turn(t: Torrent, job: nat, f: nat, handle: nat, n: nat): seq<Step> {
    if Storage.IsSkipped(t.priorities, f) then [Seek(job, f, handle)] else [Seek(job, f, handle), WriteSome(job, n)]
  }

  /** Every part of the piece from its byte `done` on. */
  ghost function PartByPart(t: Torrent, j: Job, job: nat, handles: seq<nat>, done: nat): seq<Step>
    requires t.Ok() && done <= |j.data| && |handles| == |t.files|
    decreases |j.data| - done
  {
    if done == |j.data| || Position(t, j, done) >= TotalSize(t.files) then []
    else
      var f := NextFile(t, Position(t, j, done));
      var next := PartEnd(t, j, f);
      assert next > done;
      Turn(t, job, f, handles[f], next - done) + PartByPart(t, j, job, handles, next)
  }

  /** After one turn of the loop the job stands behind the part that belongs to the file. */
  ghost predicate PartDone(t: Torrent, s: State, s1: State, job: nat, f: nat, handle: nat)
    requires job in s.jobs && f < |t.files|
  {
    && PartEnd(t, s.jobs[job], f) >= 0
    && job in s1.jobs && s1.jobs[job] == s.jobs[job].(phase := Writing(PartEnd(t, s.jobs[job], f)))
    && (s1.cursors == s.cursors || (handle in s1.cursors && s1.cursors[handle].file == f
                                    && s1.cursors == s.cursors[handle := s1.cursors[handle]]))
  }

  lemma SkippedPart(t: Torrent, s: State, job: nat, f: nat, handle: nat)
    requires t.Ok() && Seeks(t, s, job, f, handle) && Storage.IsSkipped(t.priorities, f)
    ensures PartDone(t, s, Run(t, s, [Seek(job, f, handle)]), job, f, handle)
  {
    var j := s.jobs[job];
    assert PartEnd(t, j, f) > j.phase.done;
    var s1 := DoSeek(t, s, job, f, handle);
    assert s1 == s.(jobs := s.jobs[job := j.(phase := Writing(PartEnd(t, j, f)))]);
    hide Seeks, DoSeek, PartEnd;
    RunOne(t, s, Seek(job, f, handle));
  }

  lemma WrittenPart(t: Torrent, s: State, job: nat, f: nat, handle: nat)
    requires t.Ok() && Seeks(t, s, job, f, handle) && !Storage.IsSkipped(t.priorities, f)
    ensures PartEnd(t, s.jobs[job], f) > s.jobs[job].phase.done
    ensures var n := PartEnd(t, s.jobs[job], f) - s.jobs[job].phase.done;
      PartDone(t, s, Run(t, s, [Seek(job, f, handle), WriteSome(job, n)]), job, f, handle)
  {
    var j := s.jobs[job];
    var n := PartEnd(t, j, f) - j.phase.done;
    var s1 := DoSeek(t, s, job, f, handle);
    assert s1.jobs[job] == j.(phase := InFile(j.phase.done, f, handle)) && s1.cursors[handle].file == f;
    assert PartEnd(t, s1.jobs[job], f) == PartEnd(t, j, f);
    hide Seeks, Landed, Run;
    TwoSteps(t, s, Seek(job, f, handle), WriteSome(job, n));
    assert Writes(t, s1, job, n);
  }

  lemma HandlesStayFit(t: Torrent, cursors: map<nat, Cursor>, handles: seq<nat>, f: nat, c: Cursor)
    requires HandlesFit(t, cursors, handles) && f < |handles| && c.file == f
    ensures HandlesFit(t, cursors[handles[f] := c], handles)
  {
  }

  lemma TurnDone(t: Torrent, s: State, job: nat, f: nat, handles: seq<nat>, n: nat)
    requires t.Ok() && f < |handles| && Seeks(t, s, job, f, handles[f]) && HandlesFit(t, s.cursors, handles)
    requires n == PartEnd(t, s.jobs[job], f) - s.jobs[job].phase.done
    ensures var s1 := Run(t, s, Turn(t, job, f, handles[f], n));
      && job in s1.jobs && s1.jobs[job] == s.jobs[job].(phase := Writing(PartEnd(t, s.jobs[job], f)))
      && HandlesFit(t, s1.cursors, handles)
  {
    hide Run, HandlesFit, Seeks, PartEnd;
    if Storage.IsSkipped(t.priorities, f) {
      SkippedPart(t, s, job, f, handles[f]);
    } else {
      WrittenPart(t, s, job, f, handles[f]);
    }
    var s1 := Run(t, s, Turn(t, job, f, handles[f], n));
    if s1.cursors != s.cursors {
      HandlesStayFit(t, s.cursors, handles, f, s1.cursors[handles[f]]);
    }
  }

  /** Part by part the job gets through the loop of `write_piece`. */
  lemma {:induction false} PartsGetThrough(t: Torrent, s: State, job: nat, handles: seq<nat>, j: Job, done: nat)
    requires t.Ok() && HandlesFit(t, s.cursors, handles)
    requires done <= |j.data| && job in s.jobs && s.jobs[job] == j.(phase := Writing(done))
    ensures var steps := PartByPart(t, j, job, handles, done);
      && PipelineStorage.OnlyWriter(steps, job)
      && job in Run(t, s, steps).jobs && Pipeline.Written(t, Run(t, s, steps).jobs[job])
    decreases |j.data| - done
  {
    hide Run;
    if done == |j.data| || Position(t, j, done) >= TotalSize(t.files) {
      RunOne(t, s, Choose(0, {}, false));
    } else {
      var f := NextFile(t, Position(t, j, done));
      var next := PartEnd(t, j, f);
      var turn := Turn(t, job, f, handles[f], next - done);
      assert Seeks(t, s, job, f, handles[f]);
      hide Seeks, HandlesFit, PartEnd, Pipeline.Written;
      TurnDone(t, s, job, f, handles, next - done);
      var s1 := Run(t, s, turn);
      PartsGetThrough(t, s1, job, handles, j, next);
      RunSplits(t, s, turn, PartByPart(t, j, job, handles, next));
    }
  }

  /** The steps are the seeks and write calls of the job, and get it through the loop. */
  ghost predicate GetsThrough(t: Torrent, s: State, writes: seq<Step>, job: nat)
    requires t.Ok()
  {
    && PipelineStorage.OnlyWriter(writes, job)
    && job in Run(t, s, writes).jobs && Pipeline.Written(t, Run(t, s, writes).jobs[job])
  }

  ghost predicate OnlyWritingDiffers(s: State, s1: State, job: nat) {
    && s1 == s.(disk := s1.disk, cursors := s1.cursors, jobs := s1.jobs)
    && s1.jobs - {job} == s.jobs - {job}
  }

  lemma {:induction false} WritesAlone(t: Torrent, s: State, writes: seq<Step>, job: nat)
    requires t.Ok() && PipelineStorage.OnlyWriter(writes, job)
    ensures OnlyWritingDiffers(s, Run(t, s, writes), job)
    decreases |writes|
  {
    if writes != [] {
      var s1 := Apply(t, s, writes[0]);
      WritesAlone(t, s1, writes[1..], job);
      hide Run;
      if writes[0].Seek? {
        SeeksAlone(t, s, job, writes[0].file, writes[0].handle);
      } else {
        WriteSomeAlone(t, s, job, writes[0].n);
      }
    }
  }

  lemma SeeksAlone(t: Torrent, s: State, job: nat, file: nat, handle: nat)
    ensures OnlyWritingDiffers(s, DoSeek(t, s, job, file, handle), job)
  {
  }

  lemma WriteSomeAlone(t: Torrent, s: State, job: nat, n: nat)
    ensures OnlyWritingDiffers(s, DoWriteSome(t, s, job, n), job)
  {
    hide Landed;
  }

  /** The whole piece is in place, outside Skip files, and nothing else on the disk changed. */
  ghost predicate InPlace(t: Torrent, content: Bytes, disk: Bytes, disk1: Bytes, piece: nat)
    requires t.Ok()
  {
    && |disk1| == |disk| == |content|
    && forall p :: 0 <= p < |disk| ==>
      disk1[p] == if InPiece(t, piece, p) && !t.Skipped(p) then content[p] else disk[p]
  }

  lemma WritesLand(t: Torrent, content: Bytes, s: State, writes: seq<Step>, job: nat, piece: nat)
    requires t.Ok() && t.Identifies(content) && Inv(t, content, s)
    requires job in s.jobs && s.jobs[job].piece == piece && s.jobs[job].data == t.Piece(content, piece)
    requires s.jobs[job].phase == Writing(0) && GetsThrough(t, s, writes, job)
    ensures Run(t, s, writes).jobs[job].piece == piece
    ensures InPlace(t, content, s.disk, Run(t, s, writes).disk, piece)
  {
    var j, s1 := s.jobs[job], Run(t, s, writes);
    hide Run, Inv, PipelineStorage.OnlyWriter;
    PipelineStorage.GetsStarted(t, s, job);
    PipelineStorage.LoneWriter(t, content, s, writes, job, s.disk, j);
    PatchedIsInPlace(t, content, s, s1, job, piece);
  }

  lemma PatchedIsInPlace(t: Torrent, content: Bytes, s: State, s1: State, job: nat, piece: nat)
    requires t.Ok() && Inv(t, content, s) && job in s.jobs
    requires s.jobs[job].piece == piece && s.jobs[job].data == t.Piece(content, piece)
    requires PipelineStorage.GetsThere(t, s.disk, s.jobs[job], s1, job) && Pipeline.Written(t, s1.jobs[job])
    ensures InPlace(t, content, s.disk, s1.disk, piece)
  {
    assert |s.disk| == |content| == TotalSize(t.files);
    hide Inv, Torrent.Skipped;
    var j1 := s1.jobs[job];
    PipelineStorage.BehindTheEnd(t, s.disk, j1);
    assert s1.disk == Patched(t, s.disk, piece * t.pieceLength, j1.data, 0, |j1.data|);
    hide Pipeline.Written, PipelineStorage.GetsThere;
  }

  /** What a download of the piece leaves. */
  ghost predicate Arrived(t: Torrent, content: Bytes, s: State, s1: State, piece: nat)
    requires t.Ok() && piece < |s.have|
  {
    && s1.have == s.have[piece := true] && s1.inProgress == s.inProgress - {piece}
    && s1.jobs == s.jobs && s1.cache == s.cache - {piece} && s1.readers == s.readers
    && InPlace(t, content, s.disk, s1.disk, piece)
  }

  lemma ThreeSteps(t: Torrent, s: State, a: Step, b: Step, c: Step)
    requires t.Ok()
    ensures Run(t, s, [a, b, c]) == Apply(t, Apply(t, Apply(t, s, a), b), c)
  {
    hide Apply, Run;
    TwoSteps(t, s, a, b);
    RunLast(t, s, [a, b], c);
    assert [a, b] + [c] == [a, b, c];
  }

  lemma MarkedPresent(t: Torrent, s: State, job: nat, piece: nat)
    requires t.Ok() && job in s.jobs && s.jobs[job].piece == piece && Pipeline.Written(t, s.jobs[job])
    requires piece < |s.have|
    ensures Run(t, s, [Evict(job), Unlist(job), Flag(job)])
      == s.(have := s.have[piece := true], inProgress := s.inProgress - {piece}, cache := s.cache - {piece},
            jobs := s.jobs - {job})
  {
    ThreeSteps(t, s, Evict(job), Unlist(job), Flag(job));
    var j := s.jobs[job];
    var s1 := DoEvict(t, s, job);
    assert s1 == s.(cache := s.cache - {piece}, jobs := s.jobs[job := j.(phase := Unlisting)]);
    hide Run, Pipeline.Written, DoEvict;
    UnlistAndFlag(s1, job, piece);
    assert s1.jobs - {job} == s.jobs - {job};
  }

  lemma UnlistAndFlag(s: State, job: nat, piece: nat)
    requires job in s.jobs && s.jobs[job].piece == piece && s.jobs[job].phase.Unlisting? && piece < |s.have|
    ensures DoFlag(DoUnlist(s, job), job)
      == s.(have := s.have[piece := true], inProgress := s.inProgress - {piece}, jobs := s.jobs - {job})
  {
    var s1 := DoUnlist(s, job);
    assert s1.jobs - {job} == s.jobs - {job};
  }

  /** From a right hash to the flag. */
  lemma WritesArrive(t: Torrent, content: Bytes, s: State, writes: seq<Step>, job: nat, piece: nat)
    requires t.Ok() && t.Identifies(content) && Inv(t, content, s)
    requires job in s.jobs && s.jobs[job].piece == piece && s.jobs[job].data == t.Piece(content, piece)
    requires s.jobs[job].phase == Writing(0) && GetsThrough(t, s, writes, job) && piece < |s.have|
    ensures Arrived(t, content, s.(jobs := s.jobs - {job}),
                    Run(t, s, writes + [Evict(job), Unlist(job), Flag(job)]), piece)
  {
    hide Inv, Run, InPlace, Pipeline.Written, PipelineStorage.OnlyWriter;
    WritesLand(t, content, s, writes, job, piece);
    WritesAlone(t, s, writes, job);
    MarkedPresent(t, Run(t, s, writes), job, piece);
    RunSplits(t, s, writes, [Evict(job), Unlist(job), Flag(job)]);
  }

  ghost predicate NoWrites(steps: seq<Step>) {
    forall k :: 0 <= k < |steps| ==> !steps[k].WriteSome?
  }

  lemma {:induction false} NoWritesKeep(t: Torrent, content: Bytes, s: State, steps: seq<Step>)
    requires t.Ok() && t.Identifies(content) && Inv(t, content, s) && NoWrites(steps)
    ensures Inv(t, content, Run(t, s, steps))
    decreases |steps|
  {
    hide Inv, Apply;
    if steps != [] {
      StepKeeps(t, content, s, steps[0]);
      NoWritesKeep(t, content, Apply(t, s, steps[0]), steps[1..]);
    }
  }

  lemma {:induction false} JoiningWritesNothing(peers: seq<nat>, piece: nat)
    ensures NoWrites(Joining(peers, piece))
    decreases |peers|
  {
    if peers != [] {
      JoiningWritesNothing(peers[..|peers| - 1], piece);
    }
  }

  lemma {:induction false} DeliveriesWriteNothing(piece: nat, sent: seq<Sent>)
    ensures NoWrites(Deliveries(piece, sent))
    decreases |sent|
  {
    if sent != [] {
      DeliveriesWriteNothing(piece, sent[..|sent| - 1]);
    }
  }

  // ----- whole downloads

  /** The piece is wanted and nobody is at it; the peers are not busy; the ids are new. */
  ghost predicate MayBegin(t: Torrent, s: State, peers: seq<nat>, piece: nat, cid: nat) {
    && piece < |s.have| && !s.have[piece] && piece !in s.inProgress && cid !in s.collectors
    && Distinct(peers) && forall p :: p in peers ==> Free(s, p)
  }

  /** Every block of the piece was sent at least once. */
  ghost predicate AllSent(sent: seq<Sent>, size: nat) {
    forall o: nat :: o % 16384 == 0 && o < size ==> WasSent(sent, o)
  }

  ghost function Collecting(first: nat, others: seq<nat>, piece: nat, cid: nat, sent: seq<Sent>): seq<Step> {
    Beginning(first, others, piece, cid) + Deliveries(piece, sent)
  }

  /** Some peers share a piece and send true blocks in any order, with any repetitions: one of
      them has the piece to verify exactly if every block was sent. */
  lemma CollectedExactly(t: Torrent, content: Bytes, s: State, first: nat, others: seq<nat>, piece: nat, cid: nat,
          sent: seq<Sent>)
    requires t.Ok() && t.Identifies(content) && Inv(t, content, s) && t.Size(piece) > 0
    requires MayBegin(t, s, [first] + others, piece, cid) && Honest(sent, [first] + others, t.Piece(content, piece))
    ensures var s1 := Run(t, s, Collecting(first, others, piece, cid, sent));
      && (SomeoneAssembles(s1, [first] + others, piece, cid) <==> AllSent(sent, t.Size(piece)))
      && AtWork(t, s1, t.Piece(content, piece), [first] + others, piece, cid)
      && s1 == s.(peers := s1.peers, collectors := s1.collectors, inProgress := s.inProgress[piece := cid])
      && (s1.collectors[cid].IsComplete() <==> AllSent(sent, t.Size(piece)))
      && Inv(t, content, s1)
  {
    var truth, peers := t.Piece(content, piece), [first] + others;
    assert |s.have| == t.NumPieces();
    var begin := Beginning(first, others, piece, cid);
    JoiningWritesNothing(others, piece);
    DeliveriesWriteNothing(piece, sent);
    NoWritesKeep(t, content, s, Collecting(first, others, piece, cid, sent));
    hide Inv, Run;
    AllBegin(t, s, first, others, piece, cid);
    var s0 := Run(t, s, begin);
    EmptyAtWork(t, s0, truth, peers, piece, cid);
    AllDeliver(t, s0, truth, peers, piece, cid, sent);
    RunSplits(t, s, begin, Deliveries(piece, sent));
    var s1 := Run(t, s0, Deliveries(piece, sent));
    CompleteIfAllSent(s1.collectors[cid], truth, sent);
  }

  lemma EmptyAtWork(t: Torrent, s: State, truth: Bytes, peers: seq<nat>, piece: nat, cid: nat)
    requires t.Ok() && piece < t.NumPieces() && |truth| == t.Size(piece) > 0 && cid in s.collectors
    requires s.collectors[cid] == Collectors.NewCollector(piece, t.Size(piece), t.hashes[piece])
    requires forall p :: p in peers ==> p in s.peers && s.peers[p] == Holding(piece, cid)
    ensures AtWork(t, s, truth, peers, piece, cid)
  {
    assert !s.collectors[cid].IsComplete();
  }

  lemma CompleteIfAllSent(c: Collectors.Collector, truth: Bytes, sent: seq<Sent>)
    requires Collectors.TrueBlocks(c, truth) && forall o: nat :: o in c.blocks <==> WasSent(sent, o)
    ensures c.IsComplete() <==> AllSent(sent, |truth|)
  {
    Collectors.CompleteMeansAllPresent(c, truth);
    hide Collectors.Collector.IsComplete, Collectors.TrueBlocks, WasSent;
    if AllSent(sent, |truth|) {
      assert forall o: nat :: Collectors.IsTileOffset(c.pieceSize, o) ==> WasSent(sent, o);
    }
  }

  /** From the request to the flag: once every block was sent, one of the peers has the piece
      verified, and however its bytes are then cut up into write calls, the piece arrives. */
  lemma PieceIsDownloaded(t: Torrent, content: Bytes, s: State, first: nat, others: seq<nat>, piece: nat, cid: nat,
          sent: seq<Sent>, job: nat) returns (p: nat)
    requires t.Ok() && t.Identifies(content) && Inv(t, content, s) && t.Size(piece) > 0
    requires MayBegin(t, s, [first] + others, piece, cid) && Honest(sent, [first] + others, t.Piece(content, piece))
    requires AllSent(sent, t.Size(piece)) && t.sha1(t.Piece(content, piece)) == t.hashes[piece] && job !in s.jobs
    ensures p in [first] + others
    ensures var s1 := Run(t, s, Collecting(first, others, piece, cid, sent) + [Assemble(p, job), CheckHash(job)]);
      forall writes :: GetsThrough(t, s1, writes, job) ==>
        Arrived(t, content, s, Run(t, s1, writes + [Evict(job), Unlist(job), Flag(job)]), piece)
  {
    assert |s.have| == t.NumPieces();
    hide Run, Inv, AtWork, AllSent, Honest, GetsThrough, Arrived, Collecting, SomeoneAssembles;
    p := SomeoneVerifies(t, content, s, first, others, piece, cid, sent, job);
    var s1 := Run(t, s, Collecting(first, others, piece, cid, sent) + [Assemble(p, job), CheckHash(job)]);
    forall writes | GetsThrough(t, s1, writes, job)
      ensures Arrived(t, content, s, Run(t, s1, writes + [Evict(job), Unlist(job), Flag(job)]), piece)
    {
      VerifiedArrives(t, content, s, s1, piece, cid, job, writes);
    }
  }

  /** A job with the true piece, ready to be written; of the rest only the peers differ. */
  ghost predicate Verified(t: Torrent, content: Bytes, s: State, s1: State, piece: nat, cid: nat, job: nat)
    requires t.Ok()
  {
    && piece < t.NumPieces()
    && s1 == s.(peers := s1.peers, collectors := s1.collectors, inProgress := s.inProgress[piece := cid],
                jobs := s.jobs[job := Job(piece, t.Piece(content, piece), t.hashes[piece], true, Writing(0))])
    && Inv(t, content, s1)
  }

  lemma SomeoneVerifies(t: Torrent, content: Bytes, s: State, first: nat, others: seq<nat>, piece: nat, cid: nat,
          sent: seq<Sent>, job: nat) returns (p: nat)
    requires t.Ok() && t.Identifies(content) && Inv(t, content, s) && t.Size(piece) > 0
    requires MayBegin(t, s, [first] + others, piece, cid) && Honest(sent, [first] + others, t.Piece(content, piece))
    requires AllSent(sent, t.Size(piece)) && piece < t.NumPieces()
    requires t.sha1(t.Piece(content, piece)) == t.hashes[piece] && job !in s.jobs
    ensures p in [first] + others
    ensures Verified(t, content, s, Run(t, s, Collecting(first, others, piece, cid, sent)
                                              + [Assemble(p, job), CheckHash(job)]), piece, cid, job)
  {
    var truth, peers := t.Piece(content, piece), [first] + others;
    hide Run, Inv, AtWork, AllSent, Honest, MayBegin, Collecting, Collectors.Collector.IsComplete;
    CollectedExactly(t, content, s, first, others, piece, cid, sent);
    var collecting := Collecting(first, others, piece, cid, sent);
    var s0 := Run(t, s, collecting);
    p :| p in peers && p in s0.peers && s0.peers[p] == Assembling(piece, cid);
    AssembledVerifies(t, content, s, s0, truth, peers, piece, cid, p, job);
    RunSplits(t, s, collecting, [Assemble(p, job), CheckHash(job)]);
  }

  lemma AssembledVerifies(t: Torrent, content: Bytes, s: State, s0: State, truth: Bytes, peers: seq<nat>, piece: nat,
          cid: nat, p: nat, job: nat)
    requires t.Ok() && t.Identifies(content) && Inv(t, content, s0) && AtWork(t, s0, truth, peers, piece, cid)
    requires s0.collectors[cid].IsComplete() && truth == t.Piece(content, piece)
    requires s0 == s.(peers := s0.peers, collectors := s0.collectors, inProgress := s.inProgress[piece := cid])
    requires p in s0.peers && s0.peers[p] == Assembling(piece, cid) && job !in s.jobs
    requires t.sha1(truth) == t.hashes[piece]
    ensures Verified(t, content, s, Run(t, s0, [Assemble(p, job), CheckHash(job)]), piece, cid, job)
  {
    hide Run, Inv, Collectors.Collector.IsComplete;
    PieceVerifies(t, s0, truth, peers, piece, cid, p, job);
    NoWritesKeep(t, content, s0, [Assemble(p, job), CheckHash(job)]);
  }

  lemma VerifiedArrives(t: Torrent, content: Bytes, s: State, s1: State, piece: nat, cid: nat, job: nat,
          writes: seq<Step>)
    requires t.Ok() && t.Identifies(content) && piece < |s.have| && piece !in s.inProgress && job !in s.jobs
    requires Verified(t, content, s, s1, piece, cid, job) && GetsThrough(t, s1, writes, job)
    ensures Arrived(t, content, s, Run(t, s1, writes + [Evict(job), Unlist(job), Flag(job)]), piece)
  {
    hide Run, Inv, GetsThrough, Arrived;
    WritesArrive(t, content, s1, writes, job, piece);
    assert s1.jobs - {job} == s.jobs && s1.inProgress - {piece} == s.inProgress - {piece};
    SameArrival(t, content, s, s1, Run(t, s1, writes + [Evict(job), Unlist(job), Flag(job)]), piece, job);
  }

  /** The peers and the collector are not what a download is about. */
  lemma SameArrival(t: Torrent, content: Bytes, s: State, s1: State, s2: State, piece: nat, job: nat)
    requires t.Ok() && piece < |s.have| && piece < |s1.have|
    requires Arrived(t, content, s1.(jobs := s1.jobs - {job}), s2, piece)
    requires s1.have == s.have && s1.disk == s.disk && s1.cache == s.cache && s1.readers == s.readers
    requires s1.jobs - {job} == s.jobs && s1.inProgress - {piece} == s.inProgress - {piece}
    ensures Arrived(t, content, s, s2, piece)
  {
    hide InPlace;
  }

  /** A webseed fetch of the true piece arrives in the same way, also for a piece in progress. */
  lemma PieceIsFetched(t: Torrent, content: Bytes, s: State, piece: nat, job: nat, writes: seq<Step>)
    requires t.Ok() && t.Identifies(content) && Inv(t, content, s) && piece < |s.have| && job !in s.jobs
    requires t.sha1(t.Piece(content, piece)) == t.hashes[piece]
    requires GetsThrough(t, Run(t, s, [WebFetched(job, piece, t.Piece(content, piece)), CheckHash(job)]), writes, job)
    ensures Arrived(t, content, s,
                    Run(t, s, [WebFetched(job, piece, t.Piece(content, piece)), CheckHash(job)]
                              + (writes + [Evict(job), Unlist(job), Flag(job)])), piece)
  {
    var fetch := [WebFetched(job, piece, t.Piece(content, piece)), CheckHash(job)];
    assert |s.have| == t.NumPieces();
    FetchVerifies(t, s, piece, job, t.Piece(content, piece));
    NoWritesKeep(t, content, s, fetch);
    hide Run, Inv, GetsThrough, Arrived;
    WritesArrive(t, content, Run(t, s, fetch), writes, job, piece);
    RunSplits(t, s, fetch, writes + [Evict(job), Unlist(job), Flag(job)]);
    SameArrival(t, content, s, Run(t, s, fetch),
                Run(t, s, fetch + (writes + [Evict(job), Unlist(job), Flag(job)])), piece, job);
  }

  lemma FetchVerifies(t: Torrent, s: State, piece: nat, job: nat, data: Bytes)
    requires t.Ok() && piece < t.NumPieces() && job !in s.jobs && |data| <= t.Size(piece)
    requires t.sha1(data) == t.hashes[piece]
    ensures var s1 := Run(t, s, [WebFetched(job, piece, data), CheckHash(job)]);
      s1 == s.(jobs := s.jobs[job := Job(piece, data, t.hashes[piece], false, Writing(0))])
      && s1.jobs - {job} == s.jobs
  {
    TwoSteps(t, s, WebFetched(job, piece, data), CheckHash(job));
    hide Run;
    var j := Job(piece, data, t.hashes[piece], false, Hashing);
    assert DoWebFetched(t, s, job, piece, data) == s.(jobs := s.jobs[job := j]);
    assert s.jobs[job := j][job := j.(phase := Writing(0))] == s.jobs[job := j.(phase := Writing(0))];
  }

  /** There are such write calls: one for each part of the piece, with handles that are open
      for no other file. */
  lemma SomeWritesGetThrough(t: Torrent, s: State, job: nat, handles: seq<nat>)
    requires t.Ok() && job in s.jobs && s.jobs[job].phase == Writing(0) && HandlesFit(t, s.cursors, handles)
    ensures GetsThrough(t, s, PartByPart(t, s.jobs[job], job, handles, 0), job)
  {
    hide Run;
    PartsGetThrough(t, s, job, handles, s.jobs[job], 0);
  }

  // ----- downloads that do not go well

  /** A piece with a wrong hash leaves no trace: unless it has become present meanwhile, it is
      off the list and may be started anew. */
  lemma BadPieceIsDropped(t: Torrent, s: State, job: nat)
    requires t.Ok() && job in s.jobs && s.jobs[job].phase.Hashing?
    requires t.sha1(s.jobs[job].data) != s.jobs[job].expected
    ensures var piece := s.jobs[job].piece;
      var present := piece < |s.have| && s.have[piece];
      Run(t, s, [CheckHash(job), LookAtHave(job), Abort(job)])
      == s.(jobs := s.jobs - {job},
            inProgress := if s.jobs[job].fromPeer && !present then s.inProgress - {piece} else s.inProgress)
  {
    ThreeSteps(t, s, CheckHash(job), LookAtHave(job), Abort(job));
    hide Run;
    var j := s.jobs[job];
    if j.fromPeer {
      assert s.jobs[job := j.(phase := Rejected)][job := j.(phase := Aborting)] - {job} == s.jobs - {job};
      assert s.jobs[job := j.(phase := Rejected)] - {job} == s.jobs - {job};
    }
  }

  /** The same after a write error, which leaves on the disk what was written before. */
  lemma FailedWriteIsDropped(t: Torrent, s: State, job: nat)
    requires t.Ok() && job in s.jobs && (s.jobs[job].phase.Writing? || s.jobs[job].phase.InFile?)
    ensures Run(t, s, [WriteFails(job), Abort(job)])
      == s.(jobs := s.jobs - {job},
            inProgress := if s.jobs[job].fromPeer then s.inProgress - {s.jobs[job].piece} else s.inProgress)
  {
    TwoSteps(t, s, WriteFails(job), Abort(job));
    hide Run;
    var j := s.jobs[job];
    assert s.jobs[job := j.(phase := Aborting)] - {job} == s.jobs - {job};
  }

  /** A peer that leaves hands its piece over: whoever joins finds the blocks that came, and
      what the leaver had claimed is free again. */
  lemma LeaverHandsOver(t: Torrent, s: State, leaver: nat, next: nat, piece: nat, cid: nat, released: set<nat>)
    requires t.Ok() && leaver in s.peers && s.peers[leaver] == Holding(piece, cid) && leaver != next
    requires piece in s.inProgress && s.inProgress[piece] == cid && cid in s.collectors && Free(s, next)
    ensures var s1 := Run(t, s, [Leave(leaver, released), Choose(next, {}, false), JoinPiece(next, piece)]);
      && leaver !in s1.peers && next in s1.peers && s1.peers[next] == Holding(piece, cid)
      && s1.inProgress == s.inProgress && s1.have == s.have && cid in s1.collectors
      && s1.collectors[cid].blocks == s.collectors[cid].blocks
      && forall o :: o in s1.collectors[cid].issued <==> o in s.collectors[cid].issued && o !in released
  {
    ThreeSteps(t, s, Leave(leaver, released), Choose(next, {}, false), JoinPiece(next, piece));
    hide Run;
    var s1 := DoLeave(s, leaver, released);
    assert s1.peers == s.peers - {leaver} && s1.inProgress == s.inProgress && s1.have == s.have;
    assert cid in s1.collectors && s1.collectors[cid].blocks == s.collectors[cid].blocks;
    assert s1.collectors[cid].issued == s.collectors[cid].issued - released;
    hide DoLeave;
    var s2 := DoChoose(s1, next, {}, false);
    assert s2 == s1.(peers := s1.peers[next := Choosing({}, false)]);
  }

  // ----- claims and the endgame

  /** What a peer claims is not offered to anybody for thirty seconds, unless it comes or is
      released; then it is offered again. */
  lemma ClaimedIsReserved(t: Torrent, s: State, peer: nat, piece: nat, cid: nat, offsets: set<nat>, now: nat,
          later: nat, o: nat)
    requires t.Ok() && peer in s.peers && s.peers[peer] == Holding(piece, cid) && cid in s.collectors
    ensures var s1 := Run(t, s, [ClaimBlocks(peer, offsets, now)]);
      && cid in s1.collectors && s1.collectors[cid].blocks == s.collectors[cid].blocks
      && (o in offsets ==>
            (o in s1.collectors[cid].Eligible(later) <==>
             o % 16384 == 0 && o < s.collectors[cid].pieceSize && o !in s.collectors[cid].blocks
             && later >= now + 30_000_000_000))
      && (o !in offsets ==>
            (o in s1.collectors[cid].Eligible(later) <==> o in s.collectors[cid].Eligible(later)))
  {
    RunOne(t, s, ClaimBlocks(peer, offsets, now));
    hide Run;
    var c, c1 := s.collectors[cid], WithIssued(s.collectors[cid], offsets, now);
    assert o in offsets ==> o in c1.issued && c1.issued[o] == now;
    assert o !in offsets ==> (o in c1.issued <==> o in c.issued) && (o in c.issued ==> c1.issued[o] == c.issued[o]);
    EligibleIs(c, o, later);
    EligibleIs(c1, o, later);
    hide Collectors.Collector.Eligible;
  }

  lemma EligibleIs(c: Collectors.Collector, o: nat, later: nat)
    ensures o in c.Eligible(later) <==>
      && o % 16384 == 0 && o < c.pieceSize && o !in c.blocks
      && (o in c.issued ==> c.issued[o] + 30_000_000_000 <= later)
  {
    Collectors.AlignedOffsetIsTile(c, o);
    assert o in Collectors.Tiles(c.NumBlocks()) <==>
      exists k :: 0 <= k < c.NumBlocks() && o == k * Collectors.BLOCK_SIZE;
  }

  /** In the endgame a peer joins a piece that others are at, or starts it. */
  lemma EndgameStarts(t: Torrent, s: State, peer: nat, piece: nat, cid: nat)
    requires t.Ok() && |s.have| == t.NumPieces() && piece < |s.have| && !s.have[piece]
    requires cid !in s.collectors && Free(s, peer)
    ensures Run(t, s, [Choose(peer, {piece}, true), ForceStart(peer, piece, cid)])
      == if piece in s.inProgress then s.(peers := s.peers[peer := Holding(piece, s.inProgress[piece])])
         else s.(peers := s.peers[peer := Holding(piece, cid)],
                 collectors := s.collectors[cid := Collectors.NewCollector(piece, t.Size(piece), t.hashes[piece])],
                 inProgress := s.inProgress[piece := cid])
  {
    TwoSteps(t, s, Choose(peer, {piece}, true), ForceStart(peer, piece, cid));
    hide Run;
    var s1 := DoChoose(s, peer, {piece}, true);
    assert s1 == s.(peers := s.peers[peer := Choosing({piece}, true)]);
    var h := if piece in s.inProgress then Holding(piece, s.inProgress[piece]) else Holding(piece, cid);
    assert s1.peers[peer := h] == s.peers[peer := h];
  }
}
