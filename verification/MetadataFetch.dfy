/** One honest peer and the program's own rule of asking (src/network.rs): the whole info
    dictionary is fetched, chunk by chunk. */
module MetadataFetch {
  import opened Bytes
  import opened Decimals
  import opened Bencode
  import opened Metadata
  import opened MetadataStates
  import opened MetadataExchanges
  import opened MetadataArrivals

  /** The first `n` chunks asked for and sent, one after the other. */
  ghost function Fetching(dict: Bytes, peer: nat, n: nat): seq<Event>
    requires n <= NumChunks(|dict|) && |dict| <= USIZE_MAX
  {
    if n == 0 then [Connect(true)]
    else
      Fetching(dict, peer, n - 1)
      + [if n == 1 then Ask(peer, 0) else AskOn(peer, n - 1), Incoming(peer, OurMessage(dict, n - 1))]
  }

  /** The first `n` chunks are there. */
  ghost function FirstChunks(dict: Bytes, n: nat): Chunks
    requires n <= NumChunks(|dict|)
  {
    var chunks := seq(NumChunks(|dict|), k requires 0 <= k < NumChunks(|dict|) =>
      if k < n then Some(Chunk(dict, k)) else None);
    Chunks(chunks, |dict|)
  }

  /** Where the exchange stands then. */
  ghost predicate Fetched(dict: Bytes, peer: nat, n: nat, x: Exchange)
    requires n <= NumChunks(|dict|)
  {
    if n == NumChunks(|dict|) then x.running == None && x.finished == [dict]
    else
      && x.finished == [] && x.Asked(peer) == []
      && x.running == Some(if n == 0 then NEW_STATE else FirstChunks(dict, n))
      && (n > 0 ==> peer in x.due && x.due[peer] == n)
  }

  lemma ChunkStored(dict: Bytes, n: nat)
    requires n < NumChunks(|dict|)
    ensures var before := if n == 0 then NEW_STATE else FirstChunks(dict, n);
      Received(before, n, if n == 0 then |dict| else 0, Chunk(dict, n)) == FirstChunks(dict, n + 1)
    ensures n + 1 < NumChunks(|dict|) ==> !FirstChunks(dict, n + 1).AllPresent()
    ensures n + 1 == NumChunks(|dict|) ==> FirstChunks(dict, n + 1).Assembled() == Some(dict)
    ensures |FirstChunks(dict, n + 1).pieces| == NumChunks(|dict|) && |dict| > 0
  {
    hide Chunk;
    var c := FirstChunks(dict, n + 1);
    if n + 1 < NumChunks(|dict|) {
      assert c.pieces[n + 1].None?;
    } else {
      AssembledIsDict(c, dict);
    }
    if n == 0 {
      assert Sized(|dict|).pieces[0 := Some(Chunk(dict, 0))] == c.pieces;
    } else {
      assert FirstChunks(dict, n).pieces[n := Some(Chunk(dict, n))] == c.pieces;
    }
  }

  /** The exchange has been asked for the next chunk, and it comes. */
  lemma ChunkComes(lossy: Bytes -> Bytes, h: Hash, dict: Bytes, peer: nat, n: nat, x: Exchange)
    requires Utf8Lossy(lossy) && h.Verifies(dict) && n < NumChunks(|dict|) && |dict| <= USIZE_MAX
    requires x.finished == [] && x.Asked(peer) == [n]
    requires x.running == Some(if n == 0 then NEW_STATE else FirstChunks(dict, n))
    ensures Fetched(dict, peer, n + 1, Next(lossy, h, x, Incoming(peer, OurMessage(dict, n))))
  {
    OurMessageParses(lossy, dict, n);
    hide Utf8Lossy, ParseMetadataMessage, OurMessage, FirstChunks, Chunk, NumChunks, Hash.Verifies, AfterTaking;
    hide Advanced, Fetched, Taken, NeedNext, Without, TrueChunk;
    var m := Message(1, n, if n == 0 then |dict| else 0, Chunk(dict, n));
    TakesMessage(lossy, h, x, peer, OurMessage(dict, n));
    ChunkTaken(h, dict, peer, n, x, m);
  }

  lemma ChunkTaken(h: Hash, dict: Bytes, peer: nat, n: nat, x: Exchange, m: Message)
    requires h.Verifies(dict) && n < NumChunks(|dict|) && x.finished == [] && x.Asked(peer) == [n]
    requires x.running == Some(if n == 0 then NEW_STATE else FirstChunks(dict, n))
    requires m == Message(1, n, if n == 0 then |dict| else 0, Chunk(dict, n))
    ensures Fetched(dict, peer, n + 1, Advanced(h, AfterTaking(x, peer, m), n, m.totalSize, m.data))
  {
    ChunkStored(dict, n);
    hide Received, FirstChunks, Chunk, NumChunks, Hash.Verifies;
    assert Taken([n], n) == [];
    assert h.Verifies(dict);
  }

  lemma AskedFor(lossy: Bytes -> Bytes, h: Hash, dict: Bytes, peer: nat, n: nat, x: Exchange)
    requires n < NumChunks(|dict|) && Fetched(dict, peer, n, x)
    ensures var e := if n == 0 then Ask(peer, 0) else AskOn(peer, n);
      && ByTheRule(x, e)
      && var x1 := Next(lossy, h, x, e); x1.finished == [] && x1.Asked(peer) == [n] && x1.running == x.running
  {
    assert NEW_STATE.AllPresent();
  }

  lemma {:induction false} FetchedSoFar(lossy: Bytes -> Bytes, h: Hash, dict: Bytes, peer: nat, n: nat)
    requires Utf8Lossy(lossy) && h.Verifies(dict) && |dict| <= USIZE_MAX && n <= NumChunks(|dict|) && |dict| > 0
    ensures Fetched(dict, peer, n, Run(lossy, h, Fetching(dict, peer, n)))
    ensures AllByTheRule(lossy, h, Fetching(dict, peer, n))
  {
    hide Run, Next, Fetched, OurMessage, NumChunks, AllByTheRule, ByTheRule, Utf8Lossy, Hash.Verifies;
    if n == 0 {
      NobodyAskedYet(lossy, h, dict, peer);
    } else {
      FetchedSoFar(lossy, h, dict, peer, n - 1);
      var before := Fetching(dict, peer, n - 1);
      var ask := if n == 1 then Ask(peer, 0) else AskOn(peer, n - 1);
      var comes := Incoming(peer, OurMessage(dict, n - 1));
      RunMore(lossy, h, before, ask);
      RunMore(lossy, h, before + [ask], comes);
      assert Fetching(dict, peer, n) == before + [ask] + [comes];
      OneChunkFetched(lossy, h, dict, peer, n - 1, Run(lossy, h, before));
      RuleGoesOn(lossy, h, before, ask);
      RuleGoesOn(lossy, h, before + [ask], comes);
    }
  }

  lemma NobodyAskedYet(lossy: Bytes -> Bytes, h: Hash, dict: Bytes, peer: nat)
    requires |dict| > 0
    ensures Fetched(dict, peer, 0, Run(lossy, h, [Connect(true)]))
    ensures AllByTheRule(lossy, h, [Connect(true)])
  {
    assert [Connect(true)][..0] == [];
    assert NumChunks(|dict|) > 0;
  }

  lemma RunMore(lossy: Bytes -> Bytes, h: Hash, es: seq<Event>, e: Event)
    ensures Run(lossy, h, es + [e]) == Next(lossy, h, Run(lossy, h, es), e)
  {
    hide Next;
    assert (es + [e])[..|es|] == es;
  }

  lemma OneChunkFetched(lossy: Bytes -> Bytes, h: Hash, dict: Bytes, peer: nat, n: nat, x: Exchange)
    requires Utf8Lossy(lossy) && h.Verifies(dict) && n < NumChunks(|dict|) && |dict| <= USIZE_MAX
    requires Fetched(dict, peer, n, x)
    ensures var ask := if n == 0 then Ask(peer, 0) else AskOn(peer, n);
      var x1 := Next(lossy, h, x, ask);
      && ByTheRule(x, ask) && ByTheRule(x1, Incoming(peer, OurMessage(dict, n)))
      && Fetched(dict, peer, n + 1, Next(lossy, h, x1, Incoming(peer, OurMessage(dict, n))))
  {
    hide Utf8Lossy, OurMessage, FirstChunks, Hash.Verifies;
    AskedFor(lossy, h, dict, peer, n, x);
    var x1 := Next(lossy, h, x, if n == 0 then Ask(peer, 0) else AskOn(peer, n));
    assert x.running == Some(if n == 0 then NEW_STATE else FirstChunks(dict, n));
    hide Next, Fetched;
    ChunkComes(lossy, h, dict, peer, n, x1);
  }

  lemma RuleGoesOn(lossy: Bytes -> Bytes, h: Hash, es: seq<Event>, e: Event)
    requires AllByTheRule(lossy, h, es) && ByTheRule(Run(lossy, h, es), e)
    ensures AllByTheRule(lossy, h, es + [e])
  {
    hide Run, ByTheRule;
    var more := es + [e];
    forall i | 0 <= i < |more| ensures ByTheRule(Run(lossy, h, more[..i]), more[i]) {
      if i < |es| {
        assert more[..i] == es[..i] && more[i] == es[i];
      } else {
        assert more[..i] == es;
      }
    }
  }

  /** With one honest peer, the program asks for one chunk after the other by its own rule, and
      with the last one the dictionary is handed on. */
  lemma OnePeerSuffices(lossy: Bytes -> Bytes, h: Hash, dict: Bytes, peer: nat)
    requires Utf8Lossy(lossy) && h.Verifies(dict) && 0 < |dict| <= USIZE_MAX
    ensures var es := Fetching(dict, peer, NumChunks(|dict|));
      && AllByTheRule(lossy, h, es)
      && Run(lossy, h, es).finished == [dict] && Run(lossy, h, es).running == None
  {
    hide Utf8Lossy, Run, NumChunks, Fetching, AllByTheRule, Hash.Verifies;
    FetchedSoFar(lossy, h, dict, peer, NumChunks(|dict|));
  }
}
