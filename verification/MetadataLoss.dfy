/** A late first chunk: a run of the metadata exchange that loses a chunk it has stored. */
module MetadataLoss {
  import opened Bytes
  import opened Decimals
  import opened Bencode
  import opened Metadata
  import opened MetadataStates
  import opened MetadataExchanges
  import opened MetadataArrivals

  /** The program may come to stand at `x` by these events, with honest peers, and has heard these
      pieces then. */
  ghost predicate Reached(lossy: Bytes -> Bytes, h: Hash, dict: Bytes, es: seq<Event>, x: Exchange, order: seq<nat>) {
    && AllHonest(lossy, dict, es) && AllByTheRule(lossy, h, es)
    && Run(lossy, h, es) == x && Heard(lossy, es) == order
    && (x.running.Some? ==> Connected(es))
  }

  lemma ReachedAtStart(lossy: Bytes -> Bytes, h: Hash, dict: Bytes)
    ensures Reached(lossy, h, dict, [], START, [])
  {
  }

  lemma ReachedNext(lossy: Bytes -> Bytes, h: Hash, dict: Bytes, es: seq<Event>, x: Exchange, order: seq<nat>, e: Event)
    requires Reached(lossy, h, dict, es, x, order) && Honest(lossy, dict, e) && ByTheRule(x, e)
    ensures var more := es + [e];
      && AllHonest(lossy, dict, more) && AllByTheRule(lossy, h, more) && Run(lossy, h, more) == Next(lossy, h, x, e)
      && Heard(lossy, more) == order + (if Hears(lossy, es, e) then [PieceOf(lossy, e)] else [])
      && (Connected(es) || (e.Connect? && e.inMetadataMode) ==> Connected(more))
  {
    hide Honest, ByTheRule, Next, Hears, Connected;
    var more := es + [e];
    assert more[..|es|] == es && more[|es|] == e;
    HeardOneMore(lossy, es, e);
    ConnectedOneMore(es, e);
    forall i | 0 <= i < |more| ensures ByTheRule(Run(lossy, h, more[..i]), more[i]) {
      assert more[..i] == if i < |es| then es[..i] else es;
    }
  }

  lemma ReachedByConnecting(lossy: Bytes -> Bytes, h: Hash, dict: Bytes)
    ensures Reached(lossy, h, dict, [Connect(true)], START.(running := Some(NEW_STATE)), [])
  {
    ReachedAtStart(lossy, h, dict);
    ReachedNext(lossy, h, dict, [], START, [], Connect(true));
    assert [] + [Connect(true)] == [Connect(true)];
    hide AllHonest, AllByTheRule, Run, Heard, Connected;
  }

  lemma ReachedByAsking(lossy: Bytes -> Bytes, h: Hash, dict: Bytes, es: seq<Event>, x: Exchange, order: seq<nat>,
          e: Event)
    requires Reached(lossy, h, dict, es, x, order) && (e.Ask? || e.AskOn?) && ByTheRule(x, e)
    ensures Reached(lossy, h, dict, es + [e], AsksFor(x, e.peer, e.piece), order)
  {
    ReachedNext(lossy, h, dict, es, x, order, e);
    hide AllHonest, AllByTheRule, Run, Heard, Connected, ByTheRule;
    assert order + [] == order;
  }

  /** A data message that was asked for is stored, and the piece behind it is due. */
  function Stored(x: Exchange, peer: nat, k: nat, c: Chunks): Exchange {
    Exchange(Some(c), x.finished, x.asked[peer := []],
      if k + 1 < |c.pieces| then x.due[peer := k + 1] else x.due - {peer})
  }

  lemma ChunkIsStored(lossy: Bytes -> Bytes, h: Hash, dict: Bytes, x: Exchange, peer: nat, k: nat, c: Chunks)
    requires Utf8Lossy(lossy) && |dict| <= USIZE_MAX && k < NumChunks(|dict|)
    requires x.running.Some? && x.Asked(peer) == [k] && !c.AllPresent() && (k == 0 ==> c.totalSize > 0)
    requires c == Received(x.running.value, k, if k == 0 then |dict| else 0, Chunk(dict, k))
    ensures Next(lossy, h, x, Incoming(peer, OurMessage(dict, k))) == Stored(x, peer, k, c)
  {
    OurMessageParses(lossy, dict, k);
    hide ParseMetadataMessage, OurMessage, Received, Chunk, NumChunks, TrueChunk, Utf8Lossy, Taken, Advanced, NeedNext;
    TakesOnly(k);
    TakesMessage(lossy, h, x, peer, OurMessage(dict, k));
    hide Next, AfterTaking, Stored;
    var m := ParseMetadataMessage(lossy, OurMessage(dict, k));
    MessageIsStored(h, x, peer, m, c);
  }

  lemma MessageIsStored(h: Hash, x: Exchange, peer: nat, m: Message, c: Chunks)
    requires x.running.Some? && Taken(x.Asked(peer), m.piece) == []
    requires !c.AllPresent() && (m.piece == 0 ==> c.totalSize > 0)
    requires c == Received(x.running.value, m.piece, m.totalSize, m.data)
    ensures Advanced(h, AfterTaking(x, peer, m), m.piece, m.totalSize, m.data) == Stored(x, peer, m.piece, c)
  {
    hide Received, Taken;
  }

  lemma TakesOnly(k: nat)
    ensures Taken([k], k) == []
  {
  }

  lemma ReachedByChunk(lossy: Bytes -> Bytes, h: Hash, dict: Bytes, es: seq<Event>, x: Exchange, order: seq<nat>,
          peer: nat, k: nat, c: Chunks)
    requires Utf8Lossy(lossy) && |dict| <= USIZE_MAX && k < NumChunks(|dict|)
    requires Reached(lossy, h, dict, es, x, order)
    requires x.running.Some? && x.Asked(peer) == [k] && !c.AllPresent() && (k == 0 ==> c.totalSize > 0)
    requires c == Received(x.running.value, k, if k == 0 then |dict| else 0, Chunk(dict, k))
    ensures Reached(lossy, h, dict, es + [Incoming(peer, OurMessage(dict, k))], Stored(x, peer, k, c), order + [k])
  {
    var e := Incoming(peer, OurMessage(dict, k));
    hide Utf8Lossy, ParseMetadataMessage, OurMessage, Received, Chunk, NumChunks, Next;
    OurMessageParses(lossy, dict, k);
    ChunkIsStored(lossy, h, dict, x, peer, k, c);
    ReachedNext(lossy, h, dict, es, x, order, e);
    OpenAreAsked(lossy, h, es, peer);
    HearsFirst(lossy, es, e, x);
    hide AllHonest, AllByTheRule, Run, Heard, Connected, TrueChunk, Open;
  }

  /** The size is known, and the first chunk is stored, and the second and the third if so. */
  function Holding(dict: Bytes, second: bool, third: bool): Chunks
    requires NumChunks(|dict|) == 3
  {
    Chunks([Some(Chunk(dict, 0)), if second then Some(Chunk(dict, 1)) else None,
            if third then Some(Chunk(dict, 2)) else None], |dict|)
  }

  lemma HoldingGrows(dict: Bytes, c: Chunks)
    requires NumChunks(|dict|) == 3
    ensures Received(c, 0, |dict|, Chunk(dict, 0)) == Holding(dict, false, false)
    ensures Received(Holding(dict, false, false), 1, 0, Chunk(dict, 1)) == Holding(dict, true, false)
    ensures Received(Holding(dict, false, false), 2, 0, Chunk(dict, 2)) == Holding(dict, false, true)
  {
    hide Chunk;
  }

  lemma HoldingIs(dict: Bytes, second: bool, third: bool)
    requires NumChunks(|dict|) == 3
    ensures var c := Holding(dict, second, third);
      |c.pieces| == 3 && c.totalSize == |dict| > 0 && (!second || !third ==> !c.AllPresent())
  {
    hide Chunk;
    if !second || !third {
      assert Holding(dict, second, third).pieces[if second then 2 else 1].None?;
    }
  }

  lemma AskNext(lossy: Bytes -> Bytes, h: Hash, dict: Bytes, es: seq<Event>, x: Exchange, order: seq<nat>, e: Event)
    returns (more: seq<Event>, x1: Exchange)
    requires Reached(lossy, h, dict, es, x, order) && (e.Ask? || e.AskOn?) && ByTheRule(x, e)
    ensures x1 == AsksFor(x, e.peer, e.piece) && Reached(lossy, h, dict, more, x1, order)
  {
    more, x1 := es + [e], AsksFor(x, e.peer, e.piece);
    ReachedByAsking(lossy, h, dict, es, x, order, e);
  }

  lemma ChunkNext(lossy: Bytes -> Bytes, h: Hash, dict: Bytes, es: seq<Event>, x: Exchange, order: seq<nat>,
          peer: nat, k: nat, c: Chunks) returns (more: seq<Event>, x1: Exchange)
    requires Utf8Lossy(lossy) && |dict| <= USIZE_MAX && k < NumChunks(|dict|)
    requires Reached(lossy, h, dict, es, x, order)
    requires x.running.Some? && x.Asked(peer) == [k] && !c.AllPresent() && (k == 0 ==> c.totalSize > 0)
    requires c == Received(x.running.value, k, if k == 0 then |dict| else 0, Chunk(dict, k))
    ensures x1 == Stored(x, peer, k, c) && Reached(lossy, h, dict, more, x1, order + [k])
  {
    more, x1 := es + [Incoming(peer, OurMessage(dict, k))], Stored(x, peer, k, c);
    ReachedByChunk(lossy, h, dict, es, x, order, peer, k, c);
  }

  /** Both peers are asked for the first chunk, and one of them brings it, and the second. */
  lemma TwoChunksCome(lossy: Bytes -> Bytes, h: Hash, dict: Bytes) returns (es: seq<Event>, x: Exchange)
    requires Utf8Lossy(lossy) && NumChunks(|dict|) == 3 && |dict| <= USIZE_MAX
    ensures Reached(lossy, h, dict, es, x, [0, 1])
    ensures x == Exchange(Some(Holding(dict, true, false)), [], map[0 := [], 1 := [0]], map[0 := 2])
  {
    hide Utf8Lossy, Reached, Received, Chunk, OurMessage, Holding, NumChunks, FirstMissing, Chunks.AllPresent;
    assert [] + [0] == [0] && [0] + [1] == [0, 1];
    NoFirstMissing(Some(NEW_STATE));
    HoldingGrows(dict, NEW_STATE);
    HoldingIs(dict, false, false);
    HoldingIs(dict, true, false);
    es, x := [Connect(true)], START.(running := Some(NEW_STATE));
    ReachedByConnecting(lossy, h, dict);
    es, x := AskNext(lossy, h, dict, es, x, [], Ask(0, 0));
    es, x := AskNext(lossy, h, dict, es, x, [], Ask(1, 0));
    es, x := ChunkNext(lossy, h, dict, es, x, [], 0, 0, Holding(dict, false, false));
    es, x := AskNext(lossy, h, dict, es, x, [0], AskOn(0, 1));
    es, x := ChunkNext(lossy, h, dict, es, x, [0], 0, 1, Holding(dict, true, false));
  }

  /** Two peers are both asked for the first of three chunks, and the second of them answers when
      two chunks are stored. All three chunks have been heard in the end, and the second of them
      is missing. */
  lemma LateFirstLosesChunk(lossy: Bytes -> Bytes, h: Hash, dict: Bytes) returns (es: seq<Event>, x: Exchange)
    requires Utf8Lossy(lossy) && NumChunks(|dict|) == 3 && |dict| <= USIZE_MAX
    ensures Reached(lossy, h, dict, es, x, [0, 1, 0, 2])
    ensures x.finished == [] && x.running == Some(Holding(dict, false, true))
  {
    hide Utf8Lossy, Reached, Received, Chunk, OurMessage, Holding, NumChunks, FirstMissing, Chunks.AllPresent;
    assert [0, 1] + [0] == [0, 1, 0] && [0, 1, 0] + [2] == [0, 1, 0, 2];
    HoldingGrows(dict, Holding(dict, true, false));
    HoldingIs(dict, false, false);
    HoldingIs(dict, false, true);
    es, x := TwoChunksCome(lossy, h, dict);
    es, x := AskNext(lossy, h, dict, es, x, [0, 1], AskOn(0, 2));
    es, x := ChunkNext(lossy, h, dict, es, x, [0, 1], 1, 0, Holding(dict, false, false));
    es, x := ChunkNext(lossy, h, dict, es, x, [0, 1, 0], 0, 2, Holding(dict, false, true));
  }
}
