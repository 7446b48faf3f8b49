/** What comes of the metadata exchange when its peers are honest: when exactly it finishes, and
    what may be lost on the way. */
module MetadataArrivals {
  import opened Bytes
  import opened Decimals
  import opened Bencode
  import opened Metadata
  import opened MetadataStates
  import opened MetadataExchanges

  // ----- what the events alone say

  /** The requests open on a connection after one more event. */
  ghost function OpenNext(lossy: Bytes -> Bytes, before: multiset<nat>, e: Event, peer: nat): multiset<nat> {
    match e
    case Ask(p, piece) => if p == peer then before + multiset{piece} else before
    case AskOn(p, piece) => if p == peer then before + multiset{piece} else before
    case Incoming(p, payload) =>
      var m := ParseMetadataMessage(lossy, payload);
      if p != peer then before
      else if m.msgType == 1 then before - multiset{m.piece}
      else if m.msgType == 2 then before[m.piece := 0]
      else before
    case Leave(p) => if p == peer then multiset{} else before
    case _ => before
  }

  ghost function Open(lossy: Bytes -> Bytes, es: seq<Event>, peer: nat): multiset<nat> {
    if es == [] then multiset{} else OpenNext(lossy, Open(lossy, es[..|es| - 1], peer), es[|es| - 1], peer)
  }

  /** Somebody has connected while there was no torrent yet. */
  ghost predicate Connected(es: seq<Event>) {
    exists i :: 0 <= i < |es| && es[i].Connect? && es[i].inMetadataMode
  }

  /** The pieces of the data messages that had been asked for, in order of arrival. */
  ghost function Heard(lossy: Bytes -> Bytes, es: seq<Event>): seq<nat> {
    if es == [] then []
    else
      var n := |es| - 1;
      Heard(lossy, es[..n]) + if Hears(lossy, es[..n], es[n]) then [PieceOf(lossy, es[n])] else []
  }

  ghost function PieceOf(lossy: Bytes -> Bytes, e: Event): nat
    requires e.Incoming?
  {
    ParseMetadataMessage(lossy, e.payload).piece
  }

  ghost predicate Hears(lossy: Bytes -> Bytes, es: seq<Event>, e: Event)
    ensures Hears(lossy, es, e) ==> e.Incoming?
  {
    && e.Incoming? && Connected(es)
    && ParseMetadataMessage(lossy, e.payload).msgType == 1 && PieceOf(lossy, e) in Open(lossy, es, e.peer)
  }

  lemma {:induction false} WithoutIs(sent: seq<nat>, piece: nat)
    ensures multiset(Without(sent, piece)) == multiset(sent)[piece := 0]
  {
    if sent != [] {
      WithoutIs(sent[1..], piece);
      assert sent == [sent[0]] + sent[1..];
    }
  }

  /** The requests the exchange holds open are those the events leave open. */
  lemma {:induction false} OpenAreAsked(lossy: Bytes -> Bytes, h: Hash, es: seq<Event>, peer: nat)
    ensures multiset(Run(lossy, h, es).Asked(peer)) == Open(lossy, es, peer)
    decreases |es|
  {
    hide ParseMetadataMessage, Taken, Without, NeedNext, Advanced;
    if es != [] {
      var n := |es| - 1;
      OpenAreAsked(lossy, h, es[..n], peer);
      OpenOneMore(lossy, h, Run(lossy, h, es[..n]), es[n], peer);
    }
  }

  lemma OpenOneMore(lossy: Bytes -> Bytes, h: Hash, x: Exchange, e: Event, peer: nat)
    ensures multiset(Next(lossy, h, x, e).Asked(peer)) == OpenNext(lossy, multiset(x.Asked(peer)), e, peer)
  {
    hide ParseMetadataMessage, Taken, Without, NeedNext, Advanced;
    match e
    case Connect(_) =>
    case Advertise(_) =>
    case Ask(p, piece) =>
    case AskOn(p, piece) =>
    case Incoming(p, payload) => MessageLeavesOpen(lossy, h, x, e, peer);
    case Leave(p) =>
  }

  lemma MessageLeavesOpen(lossy: Bytes -> Bytes, h: Hash, x: Exchange, e: Event, peer: nat)
    requires e.Incoming?
    ensures multiset(Next(lossy, h, x, e).Asked(peer)) == OpenNext(lossy, multiset(x.Asked(peer)), e, peer)
  {
    hide ParseMetadataMessage, Taken, Without, NeedNext, Advanced;
    var m := ParseMetadataMessage(lossy, e.payload);
    var sent := x.Asked(e.peer);
    if m.msgType == 1 {
      if m.piece in sent {
        AdvancedAsks(h, AfterTaking(x, e.peer, m), m);
      } else {
        assert multiset(sent) - multiset{m.piece} == multiset(sent);
      }
    } else if m.msgType == 2 {
      WithoutIs(sent, m.piece);
    }
  }

  lemma AdvancedAsks(h: Hash, x: Exchange, m: Message)
    ensures Advanced(h, x, m.piece, m.totalSize, m.data).asked == x.asked
  {
  }

  /** Until something is finished, the state is there exactly since somebody has connected. */
  lemma {:induction false} RunningIsConnected(lossy: Bytes -> Bytes, h: Hash, es: seq<Event>)
    requires Run(lossy, h, es).finished == []
    ensures Run(lossy, h, es).running.Some? <==> Connected(es)
    decreases |es|
  {
    hide ParseMetadataMessage, Taken, Without, NeedNext, Connected;
    if es == [] {
      hide *;
      NobodyConnected();
      StartIs(lossy, h);
    } else {
      var n := |es| - 1;
      RunningIsConnected(lossy, h, es[..n]);
      ConnectedOneMore(es[..n], es[n]);
      assert es == es[..n] + [es[n]];
    }
  }

  lemma StartIs(lossy: Bytes -> Bytes, h: Hash)
    ensures Run(lossy, h, []).running == None
  {
  }

  lemma NobodyConnected()
    ensures !Connected([])
  {
  }

  lemma ConnectedOneMore(es: seq<Event>, e: Event)
    ensures Connected(es + [e]) <==> Connected(es) || (e.Connect? && e.inMetadataMode)
  {
    var more := es + [e];
    if e.Connect? && e.inMetadataMode {
      assert more[|es|] == e;
    }
    if Connected(es) {
      var i :| 0 <= i < |es| && es[i].Connect? && es[i].inMetadataMode;
      assert more[i] == es[i];
    }
  }

  // ----- honest peers

  /** What a data message must say to be a true one: the chunk it names, and for the first one
      the size of the dictionary. */
  ghost predicate TrueChunk(dict: Bytes, m: Message) {
    m.piece < NumChunks(|dict|) && m.data == Chunk(dict, m.piece) && (m.piece == 0 ==> m.totalSize == |dict|)
  }

  /** Data messages are true. Anything may be asked for, rejected or advertised. */
  ghost predicate Honest(lossy: Bytes -> Bytes, dict: Bytes, e: Event) {
    e.Incoming? && ParseMetadataMessage(lossy, e.payload).msgType == 1 ==>
      TrueChunk(dict, ParseMetadataMessage(lossy, e.payload))
  }

  ghost predicate AllHonest(lossy: Bytes -> Bytes, dict: Bytes, es: seq<Event>) {
    forall i :: 0 <= i < |es| ==> Honest(lossy, dict, es[i])
  }

  /** The data message this program sends for piece `k`: only the first carries the size. */
  function OurMessage(dict: Bytes, k: nat): Bytes
    requires k < NumChunks(|dict|) && |dict| <= USIZE_MAX
  {
    BuildMetadataData(k, if k == 0 then Some(|dict|) else None, Chunk(dict, k))
  }

  lemma OurMessageParses(lossy: Bytes -> Bytes, dict: Bytes, k: nat)
    requires Utf8Lossy(lossy) && |dict| <= USIZE_MAX && k < NumChunks(|dict|)
    ensures var m := ParseMetadataMessage(lossy, OurMessage(dict, k));
      m == Message(1, k, if k == 0 then |dict| else 0, Chunk(dict, k)) && TrueChunk(dict, m)
  {
    hide Utf8Lossy, ParseMetadataMessage, BuildMetadataData;
    assert k < |dict|;
    BuiltMessagesParse(lossy, k, if k == 0 then Some(|dict|) else None, Chunk(dict, k));
  }

  lemma TakesMessage(lossy: Bytes -> Bytes, h: Hash, x: Exchange, peer: nat, payload: Bytes)
    ensures var m := ParseMetadataMessage(lossy, payload);
      m.msgType == 1 && m.piece in x.Asked(peer) ==>
        Next(lossy, h, x, Incoming(peer, payload)) == Advanced(h, AfterTaking(x, peer, m), m.piece, m.totalSize, m.data)
  {
    hide ParseMetadataMessage, Advanced, AfterTaking;
  }

  /** At some moment, every chunk had come since the first one last came. */
  ghost predicate OnceComplete(dict: Bytes, order: seq<nat>) {
    exists n :: 0 <= n <= |order| && Complete(Sized(|dict|), dict, order[..n])
  }

  lemma OnceCompleteMore(dict: Bytes, order: seq<nat>, k: nat)
    ensures OnceComplete(dict, order + [k]) <==>
      OnceComplete(dict, order) || Complete(Sized(|dict|), dict, order + [k])
  {
    hide Complete;
    var more := order + [k];
    assert more[..|more|] == more;
    if OnceComplete(dict, more) {
      var n :| 0 <= n <= |more| && Complete(Sized(|dict|), dict, more[..n]);
      if n <= |order| {
        assert more[..n] == order[..n];
      }
    }
    if OnceComplete(dict, order) {
      var n :| 0 <= n <= |order| && Complete(Sized(|dict|), dict, order[..n]);
      assert more[..n] == order[..n];
    }
  }

  /** No state, or one without the first chunk, whatever size it was given. */
  predicate NoFirst(running: Option<Chunks>) {
    running.Some? && running.value.pieces != [] ==> running.value.pieces[0].None?
  }

  /** Where the exchange stands after what was heard. */
  ghost predicate Stands(dict: Bytes, order: seq<nat>, x: Exchange)
    requires AllBelow(order, NumChunks(|dict|))
  {
    if OnceComplete(dict, order) then x.finished != [] && x.finished[0] == dict
    else
      && x.finished == []
      && if 0 in order then x.running == Some(StoredAll(Sized(|dict|), dict, order)) else NoFirst(x.running)
  }

  /** A true chunk comes to a running exchange that has the size, or brings it. */
  lemma OneMoreSized(h: Hash, dict: Bytes, order: seq<nat>, x: Exchange, m: Message)
    requires |dict| > 0 && h.Verifies(dict) && TrueChunk(dict, m) && x.running.Some?
    requires AllBelow(order, NumChunks(|dict|)) && Stands(dict, order, x) && !OnceComplete(dict, order)
    requires m.piece == 0 || 0 in order
    ensures var more := order + [m.piece];
      AllBelow(more, NumChunks(|dict|)) && Stands(dict, more, Advanced(h, x, m.piece, m.totalSize, m.data))
  {
    hide OnceComplete, Complete, Chunk, NumChunks, Hash.Verifies;
    var c, more := Sized(|dict|), order + [m.piece];
    OnceCompleteMore(dict, order, m.piece);
    AnyChunkOrder(c, dict, more);
    TruthfulAfter(c, dict, order);
    TruthfulAfter(c, dict, more);
    assert more[..|order|] == order && more[|order|] == m.piece;
    assert StoredAll(c, dict, more) == StoredNext(StoredAll(c, dict, order), dict, m.piece);
    assert Received(x.running.value, m.piece, m.totalSize, m.data) == StoredAll(c, dict, more);
    hide StoredAll, Received, StoredNext;
    assert h.Verifies(dict);
  }

  /** A true chunk comes to a running exchange. */
  lemma OneMoreChunk(h: Hash, dict: Bytes, order: seq<nat>, x: Exchange, m: Message)
    requires |dict| > 0 && h.Verifies(dict) && !h.Verifies([]) && TrueChunk(dict, m) && x.running.Some?
    requires AllBelow(order, NumChunks(|dict|)) && Stands(dict, order, x)
    ensures var more := order + [m.piece];
      AllBelow(more, NumChunks(|dict|)) && Stands(dict, more, Advanced(h, x, m.piece, m.totalSize, m.data))
  {
    hide OnceComplete, Complete, Chunk, NumChunks, Hash.Verifies, Received, StoredAll;
    OnceCompleteMore(dict, order, m.piece);
    if OnceComplete(dict, order) {
    } else if m.piece == 0 || 0 in order {
      hide Stands, Advanced;
      OneMoreSized(h, dict, order, x, m);
    } else {
      hide Advanced;
      NotCompleteWithoutFirst(dict, order + [m.piece]);
      StaysWithoutFirst(h, x, m.piece, m.totalSize, m.data);
    }
  }

  lemma NotCompleteWithoutFirst(dict: Bytes, order: seq<nat>)
    requires |dict| > 0 && 0 !in order
    ensures !Complete(Sized(|dict|), dict, order)
  {
    assert !Covered(Sized(|dict|), order, 0);
  }

  lemma StaysWithoutFirst(h: Hash, x: Exchange, k: nat, size: nat, data: Bytes)
    requires !h.Verifies([]) && k > 0 && x.running.Some? && NoFirst(x.running)
    ensures NoFirst(Advanced(h, x, k, size, data).running) && Advanced(h, x, k, size, data).finished == x.finished
  {
    var c := x.running.value;
    if c.pieces == [] {
      assert c.Stored(k, data) == c;
    } else {
      assert c.Stored(k, data).pieces[0].None?;
    }
  }

  lemma StandsOneMore(lossy: Bytes -> Bytes, h: Hash, dict: Bytes, es: seq<Event>, x: Exchange, e: Event)
    requires |dict| > 0 && h.Verifies(dict) && !h.Verifies([]) && Honest(lossy, dict, e)
    requires AllBelow(Heard(lossy, es), NumChunks(|dict|)) && Stands(dict, Heard(lossy, es), x)
    requires x.finished == [] ==> (x.running.Some? <==> Connected(es))
    requires forall peer :: multiset(x.Asked(peer)) == Open(lossy, es, peer)
    ensures AllBelow(Heard(lossy, es + [e]), NumChunks(|dict|))
    ensures Stands(dict, Heard(lossy, es + [e]), Next(lossy, h, x, e))
  {
    var order := Heard(lossy, es);
    HeardOneMore(lossy, es, e);
    assert order + [] == order;
    if !e.Incoming? {
      NoChunk(lossy, h, dict, order, x, e);
    } else {
      hide Heard, Connected, Open, Stands, OnceComplete, TrueChunk;
      var m := ParseMetadataMessage(lossy, e.payload);
      assert m.piece in Open(lossy, es, e.peer) <==> m.piece in x.Asked(e.peer);
      hide ParseMetadataMessage;
      MessageStands(lossy, h, dict, order, x, e, Connected(es));
    }
  }

  lemma HeardOneMore(lossy: Bytes -> Bytes, es: seq<Event>, e: Event)
    ensures Heard(lossy, es + [e])
      == Heard(lossy, es) + if Hears(lossy, es, e) then [PieceOf(lossy, e)] else []
  {
    assert (es + [e])[..|es|] == es;
  }

  lemma NoChunk(lossy: Bytes -> Bytes, h: Hash, dict: Bytes, order: seq<nat>, x: Exchange, e: Event)
    requires |dict| > 0 && !e.Incoming? && AllBelow(order, NumChunks(|dict|)) && Stands(dict, order, x)
    ensures Stands(dict, order, Next(lossy, h, x, e))
  {
    hide OnceComplete, Chunk, NumChunks;
    TruthfulAfter(Sized(|dict|), dict, order);
  }

  lemma MessageStands(lossy: Bytes -> Bytes, h: Hash, dict: Bytes, order: seq<nat>, x: Exchange, e: Event,
          connected: bool)
    requires |dict| > 0 && h.Verifies(dict) && !h.Verifies([]) && e.Incoming? && Honest(lossy, dict, e)
    requires AllBelow(order, NumChunks(|dict|)) && Stands(dict, order, x)
    requires x.finished == [] ==> (x.running.Some? <==> connected)
    ensures var m := ParseMetadataMessage(lossy, e.payload);
      var heard := connected && m.msgType == 1 && m.piece in x.Asked(e.peer);
      var more := order + if heard then [m.piece] else [];
      AllBelow(more, NumChunks(|dict|)) && Stands(dict, more, Next(lossy, h, x, e))
  {
    hide ParseMetadataMessage, Taken, Without, NeedNext, OnceComplete, StoredAll, NumChunks, Hash.Verifies, Chunk;
    var m := ParseMetadataMessage(lossy, e.payload);
    assert order + [] == order;
    if m.msgType == 1 && m.piece in x.Asked(e.peer) {
      var x1 := AfterTaking(x, e.peer, m);
      if x.running.Some? {
        OneMoreChunk(h, dict, order, x1, m);
      }
      OnceCompleteMore(dict, order, m.piece);
    }
  }

  lemma {:induction false} HonestRun(lossy: Bytes -> Bytes, h: Hash, dict: Bytes, es: seq<Event>)
    requires |dict| > 0 && h.Verifies(dict) && !h.Verifies([]) && AllHonest(lossy, dict, es)
    ensures AllBelow(Heard(lossy, es), NumChunks(|dict|)) && Stands(dict, Heard(lossy, es), Run(lossy, h, es))
    decreases |es|
  {
    hide Honest, Next, Hears, Hash.Verifies;
    if es == [] {
      var none: seq<nat> := [];
      assert forall n :: 0 <= n <= |none| ==> none[..n] == none;
      NotCompleteWithoutFirst(dict, none);
    } else {
      hide NumChunks, Stands, Heard;
      var n := |es| - 1;
      var x := Run(lossy, h, es[..n]);
      HonestRun(lossy, h, dict, es[..n]);
      if x.finished == [] {
        RunningIsConnected(lossy, h, es[..n]);
      }
      forall peer ensures multiset(x.Asked(peer)) == Open(lossy, es[..n], peer) {
        OpenAreAsked(lossy, h, es[..n], peer);
      }
      StandsOneMore(lossy, h, dict, es[..n], x, es[n]);
      assert es == es[..n] + [es[n]];
    }
  }

  /** With honest data messages, whoever comes, asks, advertises, leaves or answers in whatever
      order, the exchange has finished exactly when at some moment every chunk heard had come
      since the first one last came, and what it finished with first is the dictionary. */
  lemma FinishedExactly(lossy: Bytes -> Bytes, h: Hash, dict: Bytes, es: seq<Event>)
    requires |dict| > 0 && h.Verifies(dict) && !h.Verifies([]) && AllHonest(lossy, dict, es)
    ensures var done := Run(lossy, h, es).finished;
      && (done != [] <==> OnceComplete(dict, Heard(lossy, es)))
      && (done != [] ==> done[0] == dict)
  {
    hide AllHonest, OnceComplete, Run, Heard, Hash.Verifies, NumChunks;
    HonestRun(lossy, h, dict, es);
  }

  // ----- what is lost when the program asks

  /** Every other chunk is heard after some first one. */
  ghost predicate FirstComesFirst(order: seq<nat>) {
    forall j :: 0 <= j < |order| && order[j] != 0 ==> 0 in order[..j]
  }

  ghost predicate FirstOnce(order: seq<nat>) {
    forall i, j :: 0 <= i < j < |order| && order[i] == 0 ==> order[j] != 0
  }

  /** Only the first chunk is asked for, on every connection. */
  ghost predicate AskedForFirst(x: Exchange) {
    x.due == map[] && forall peer, k :: k in x.Asked(peer) ==> k == 0
  }

  lemma NoFirstMissing(running: Option<Chunks>)
    requires NoFirst(running)
    ensures FirstMissing(running) == 0
  {
  }

  lemma {:induction false} TakesNothingElse(sent: seq<nat>, piece: nat, k: nat)
    ensures k in Taken(sent, piece) ==> k in sent
    ensures k in Without(sent, piece) ==> k in sent
  {
    assert k in Taken(sent, piece) ==> k in multiset(Taken(sent, piece));
    if sent != [] {
      TakesNothingElse(sent[1..], piece, k);
    }
  }

  /** One more event while no first chunk has been heard. */
  lemma StillForFirst(lossy: Bytes -> Bytes, h: Hash, x: Exchange, e: Event, connected: bool)
    requires AskedForFirst(x) && NoFirst(x.running) && ByTheRule(x, e) && (x.running.Some? ==> connected)
    requires e.Incoming? && connected ==>
      var m := ParseMetadataMessage(lossy, e.payload); !(m.msgType == 1 && m.piece in x.Asked(e.peer) && m.piece == 0)
    ensures AskedForFirst(Next(lossy, h, x, e))
  {
    hide ParseMetadataMessage, Taken, Without, NoFirst;
    NoFirstMissing(x.running);
    hide FirstMissing;
    match e
    case Connect(_) => SameForFirst(x, Next(lossy, h, x, e));
    case Advertise(_) => SameForFirst(x, Next(lossy, h, x, e));
    case Ask(p, piece) => AnotherForFirst(x, p);
    case AskOn(p, piece) =>
    case Incoming(p, payload) => MessageForFirst(lossy, h, x, e);
    case Leave(p) => SameForFirst(x, Next(lossy, h, x, e));
  }

  lemma SameForFirst(x: Exchange, x1: Exchange)
    requires AskedForFirst(x) && x1.due.Keys <= x.due.Keys
    requires forall p :: x1.Asked(p) == x.Asked(p) || x1.Asked(p) == []
    ensures AskedForFirst(x1)
  {
    assert x1.due == map[];
  }

  lemma AnotherForFirst(x: Exchange, peer: nat)
    requires AskedForFirst(x)
    ensures AskedForFirst(AsksFor(x, peer, 0))
  {
    var x1 := AsksFor(x, peer, 0);
    assert x1.due == map[];
    assert forall p, k :: k in x1.Asked(p) ==> k == 0 || k in x.Asked(p);
  }

  lemma MessageForFirst(lossy: Bytes -> Bytes, h: Hash, x: Exchange, e: Event)
    requires AskedForFirst(x) && e.Incoming?
    requires x.running.Some? ==>
      var m := ParseMetadataMessage(lossy, e.payload); !(m.msgType == 1 && m.piece in x.Asked(e.peer) && m.piece == 0)
    ensures AskedForFirst(Next(lossy, h, x, e))
  {
    hide ParseMetadataMessage, Taken, Without;
    var m, x1 := ParseMetadataMessage(lossy, e.payload), Next(lossy, h, x, e);
    var sent := x.Asked(e.peer);
    forall k ensures (k in Taken(sent, m.piece) ==> k in sent) && (k in Without(sent, m.piece) ==> k in sent) {
      TakesNothingElse(sent, m.piece, k);
    }
    assert forall peer :: peer != e.peer ==> x1.Asked(peer) == x.Asked(peer);
    assert x1.Asked(e.peer) in [sent, Taken(sent, m.piece), Without(sent, m.piece)];
  }

  lemma {:induction false} OnlyFirstAsked(lossy: Bytes -> Bytes, h: Hash, dict: Bytes, es: seq<Event>)
    requires |dict| > 0 && h.Verifies(dict) && !h.Verifies([])
    requires AllHonest(lossy, dict, es) && AllByTheRule(lossy, h, es) && 0 !in Heard(lossy, es)
    ensures AskedForFirst(Run(lossy, h, es))
    decreases |es|
  {
    hide Honest, Next, ByTheRule, Hash.Verifies, AskedForFirst, Hears;
    if es == [] {
      NothingAsked();
    } else {
      var n := |es| - 1;
      var x := Run(lossy, h, es[..n]);
      assert es == es[..n] + [es[n]];
      RuleOfPrefix(lossy, h, es, n);
      HeardOneMore(lossy, es[..n], es[n]);
      OnlyFirstAsked(lossy, h, dict, es[..n]);
      HonestRun(lossy, h, dict, es[..n]);
      NotOnceWithoutFirst(dict, Heard(lossy, es[..n]));
      RunningIsConnected(lossy, h, es[..n]);
      if es[n].Incoming? {
        OpenAreAsked(lossy, h, es[..n], es[n].peer);
        HearsFirst(lossy, es[..n], es[n], x);
      }
      hide Heard, Connected, AllHonest;
      StillForFirst(lossy, h, x, es[n], Connected(es[..n]));
    }
  }

  lemma NothingAsked()
    ensures AskedForFirst(START)
  {
  }

  lemma HearsFirst(lossy: Bytes -> Bytes, es: seq<Event>, e: Event, x: Exchange)
    requires e.Incoming? && multiset(x.Asked(e.peer)) == Open(lossy, es, e.peer)
    ensures var m := ParseMetadataMessage(lossy, e.payload);
      Hears(lossy, es, e) <==> Connected(es) && m.msgType == 1 && m.piece in x.Asked(e.peer)
  {
    hide ParseMetadataMessage, Connected, Open;
  }

  lemma NotOnceWithoutFirst(dict: Bytes, order: seq<nat>)
    requires |dict| > 0 && 0 !in order
    ensures !OnceComplete(dict, order)
  {
    hide Complete;
    forall n | 0 <= n <= |order| ensures !Complete(Sized(|dict|), dict, order[..n]) {
      NotCompleteWithoutFirst(dict, order[..n]);
    }
  }

  lemma RuleOfPrefix(lossy: Bytes -> Bytes, h: Hash, es: seq<Event>, n: nat)
    requires AllByTheRule(lossy, h, es) && n <= |es|
    ensures AllByTheRule(lossy, h, es[..n])
  {
    hide ByTheRule, Run;
    forall i | 0 <= i < n ensures ByTheRule(Run(lossy, h, es[..n][..i]), es[..n][i]) {
      assert es[..n][..i] == es[..i];
    }
  }

  /** The program asks for other chunks only once it has heard the first one. */
  lemma {:induction false} RuleHearsFirstFirst(lossy: Bytes -> Bytes, h: Hash, dict: Bytes, es: seq<Event>)
    requires |dict| > 0 && h.Verifies(dict) && !h.Verifies([])
    requires AllHonest(lossy, dict, es) && AllByTheRule(lossy, h, es)
    ensures FirstComesFirst(Heard(lossy, es))
    decreases |es|
  {
    hide Honest, ByTheRule, Hash.Verifies, Hears, Run;
    if es != [] {
      var n := |es| - 1;
      var x, order := Run(lossy, h, es[..n]), Heard(lossy, es[..n]);
      assert es == es[..n] + [es[n]];
      RuleOfPrefix(lossy, h, es, n);
      RuleHearsFirstFirst(lossy, h, dict, es[..n]);
      HeardOneMore(lossy, es[..n], es[n]);
      if Hears(lossy, es[..n], es[n]) {
        OpenAreAsked(lossy, h, es[..n], es[n].peer);
        HearsFirst(lossy, es[..n], es[n], x);
        if 0 !in order {
          OnlyFirstAsked(lossy, h, dict, es[..n]);
        }
        hide AllHonest, Heard;
        OneMoreBehindFirst(order, PieceOf(lossy, es[n]));
      } else {
        assert order + [] == order;
      }
    }
  }

  lemma OneMoreBehindFirst(order: seq<nat>, k: nat)
    requires FirstComesFirst(order) && (k != 0 ==> 0 in order)
    ensures FirstComesFirst(order + [k])
  {
    var more := order + [k];
    forall j | 0 <= j < |more| && more[j] != 0 ensures 0 in more[..j] {
      assert more[..j] == if j < |order| then order[..j] else order;
    }
  }

  lemma {:induction false} LastFirst(order: seq<nat>)
    requires 0 in order
    ensures LastsIn(order, 0)
  {
    var n := |order| - 1;
    assert order == order[..n] + [order[n]];
    if order[n] != 0 {
      LastFirst(order[..n]);
    }
    LastsOneMore(order[..n], order[n], 0);
  }

  /** Every chunk has been heard. */
  ghost predicate AllHeard(dict: Bytes, order: seq<nat>) {
    forall k :: 0 <= k < NumChunks(|dict|) ==> k in order
  }

  lemma OnceCompleteIsHeard(dict: Bytes, order: seq<nat>)
    requires OnceComplete(dict, order)
    ensures AllHeard(dict, order)
  {
    var n :| 0 <= n <= |order| && Complete(Sized(|dict|), dict, order[..n]);
    forall k | 0 <= k < NumChunks(|dict|) ensures k in order {
      assert Covered(Sized(|dict|), order[..n], k);
      var j :| 0 <= j < n && order[..n][j] == k;
      assert order[j] == k;
    }
  }

  /** With the first chunk heard once, every chunk lasts. */
  lemma HeardOnceLasts(dict: Bytes, order: seq<nat>)
    requires FirstComesFirst(order) && FirstOnce(order) && AllHeard(dict, order)
    ensures OnceComplete(dict, order)
  {
    forall k | 0 <= k < NumChunks(|dict|) ensures Covered(Sized(|dict|), order, k) {
      assert k in order;
      var j :| 0 <= j < |order| && order[j] == k;
      if k != 0 {
        assert 0 in order[..j];
        var i :| 0 <= i < j && order[..j][i] == 0;
        assert order[i] == 0;
      }
      assert LastsIn(order, k);
    }
    assert order[..|order|] == order;
    assert Complete(Sized(|dict|), dict, order[..|order|]);
  }

  /** With two chunks at most, it is complete as soon as the last one is there. */
  lemma TwoChunksLast(dict: Bytes, order: seq<nat>)
    requires FirstComesFirst(order) && 0 < NumChunks(|dict|) <= 2 && AllHeard(dict, order)
    ensures OnceComplete(dict, order)
  {
    var last := NumChunks(|dict|) - 1;
    assert last in order;
    var j :| 0 <= j < |order| && order[j] == last;
    var now := order[..j + 1];
    assert now[j] == last && LastsIn(now, last);
    assert 0 in now by {
      if last != 0 {
        assert 0 in order[..j] && order[..j] == now[..j];
      }
    }
    LastFirst(now);
    forall k | 0 <= k < NumChunks(|dict|) ensures Covered(Sized(|dict|), now, k) {
      assert k == 0 || k == last;
    }
    assert Complete(Sized(|dict|), dict, order[..j + 1]);
  }

  /** As the program asks, nothing is lost of a dictionary of at most two chunks, nor of any other
      while the first chunk is heard only once: the exchange has finished exactly when every
      chunk has been heard. */
  lemma NothingIsLost(lossy: Bytes -> Bytes, h: Hash, dict: Bytes, es: seq<Event>)
    requires |dict| > 0 && h.Verifies(dict) && !h.Verifies([])
    requires AllHonest(lossy, dict, es) && AllByTheRule(lossy, h, es)
    requires NumChunks(|dict|) <= 2 || FirstOnce(Heard(lossy, es))
    ensures Run(lossy, h, es).finished != [] <==> AllHeard(dict, Heard(lossy, es))
  {
    hide AllHonest, AllByTheRule, Run, Heard, Hash.Verifies, OnceComplete, FirstComesFirst, FirstOnce, AllHeard;
    FinishedExactly(lossy, h, dict, es);
    RuleHearsFirstFirst(lossy, h, dict, es);
    var order := Heard(lossy, es);
    if OnceComplete(dict, order) {
      OnceCompleteIsHeard(dict, order);
    }
    if AllHeard(dict, order) {
      if NumChunks(|dict|) <= 2 {
        TwoChunksLast(dict, order);
      } else {
        HeardOnceLasts(dict, order);
      }
    }
  }
}
