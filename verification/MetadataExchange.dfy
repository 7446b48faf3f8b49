/** The metadata exchange with many peers (the message handler of src/network.rs): which data
    messages are taken, what becomes of them, and when the exchange is over. */
module MetadataExchanges {
  import opened Bytes
  import opened Decimals
  import opened Bencode
  import opened Metadata
  import opened MetadataStates

  // ----- one connection's requests

  function IndexIn(s: seq<nat>, x: nat): (i: nat)
    ensures i <= |s|
    ensures i < |s| ==> s[i] == x
    ensures i == |s| <==> x !in s
  {
    if s == [] || s[0] == x then 0 else 1 + IndexIn(s[1..], x)
  }

  /** `swap_remove` of the first occurrence */
  function Taken(sent: seq<nat>, piece: nat): (r: seq<nat>)
    ensures piece !in sent ==> r == sent
    ensures piece in sent ==> multiset(r) == multiset(sent) - multiset{piece}
  {
    var i := IndexIn(sent, piece);
    if i == |sent| then sent
    else
      SwapRemoved(sent, i);
      sent[i := sent[|sent| - 1]][..|sent| - 1]
  }

  lemma SwapRemoved(s: seq<nat>, i: nat)
    requires i < |s|
    ensures multiset(s[i := s[|s| - 1]][..|s| - 1]) == multiset(s) - multiset{s[i]}
  {
    var n := |s| - 1;
    assert s == s[..n] + [s[n]];
    if i < n {
      assert s[i := s[n]][..n] == s[..n][i := s[n]];
    }
  }

  function Without(sent: seq<nat>, piece: nat): seq<nat> {
    if sent == [] then [] else (if sent[0] == piece then [] else [sent[0]]) + Without(sent[1..], piece)
  }

  // ----- the exchange

  /** `running` is the shared state, if there is one; `finished` are the verified dictionaries
      handed on, oldest first; `asked` are the requests open on each connection, and `due` the
      piece a connection is to ask for next, after one it has just stored. */
  datatype Exchange = Exchange(
    running: Option<Chunks>,
    finished: seq<Bytes>,
    asked: map<nat, seq<nat>>,
    due: map<nat, nat>)
  {
    function Asked(peer: nat): seq<nat> {
      if peer in asked then asked[peer] else []
    }
  }

  const START := Exchange(None, [], map[], map[])

  datatype Hash = Hash(sha1: Bytes -> Bytes, infoHash: Bytes)
  {
    predicate Verifies(data: Bytes) {
      sha1(data) == infoHash
    }
  }

  /** A data message that was asked for: once every chunk is there, a dictionary with the right
      hash ends the exchange and any other starts it anew. */
  function Advanced(h: Hash, x: Exchange, piece: nat, size: nat, data: Bytes): Exchange {
    match x.running
    case None => x
    case Some(c) =>
      var c1 := Received(c, piece, size, data);
      if (piece == 0 && c1.totalSize == 0) || !c1.AllPresent() then x.(running := Some(c1))
      else
        var dict := c1.Assembled().value;
        if h.Verifies(dict) then x.(running := None, finished := x.finished + [dict])
        else x.(running := Some(NEW_STATE))
  }

  /** What is asked for after a data message: the piece behind the one that was stored. */
  function NeedNext(running: Option<Chunks>, piece: nat, size: nat, data: Bytes): Option<nat> {
    match running
    case None => None
    case Some(c) =>
      var c1 := Received(c, piece, size, data);
      if (piece == 0 && c1.totalSize == 0) || c1.AllPresent() || piece + 1 >= |c1.pieces| then None
      else Some(piece + 1)
  }

  /** What is asked for after a handshake: the first missing piece, or piece 0. */
  function FirstMissing(running: Option<Chunks>): nat {
    match running
    case None => 0
    case Some(c) => if c.AllPresent() then 0 else FirstNone(c.pieces)
  }

  function FirstNone(pieces: seq<Option<Bytes>>): (i: nat)
    requires exists k :: 0 <= k < |pieces| && pieces[k].None?
    ensures i < |pieces| && pieces[i].None? && forall k :: 0 <= k < i ==> pieces[k].Some?
  {
    if pieces[0].None? then 0
    else
      assert exists k :: 0 <= k < |pieces[1..]| && pieces[1..][k].None? by {
        var k :| 0 <= k < |pieces| && pieces[k].None?;
        assert pieces[1..][k - 1] == pieces[k];
      }
      1 + FirstNone(pieces[1..])
  }

  datatype Event =
    | Connect(inMetadataMode: bool)
    | Advertise(size: nat)
    | Ask(peer: nat, piece: nat)
    | AskOn(peer: nat, piece: nat)
    | Incoming(peer: nat, payload: Bytes)
    | Leave(peer: nat)

  ghost function Next(lossy: Bytes -> Bytes, h: Hash, x: Exchange, e: Event): Exchange {
    match e
    case Connect(inMetadataMode) =>
      if inMetadataMode && x.running.None? then x.(running := Some(NEW_STATE)) else x
    case Advertise(size) =>
      if x.running.Some? && x.running.value.totalSize == 0 then x.(running := Some(Sized(size))) else x
    case Ask(peer, piece) => AsksFor(x, peer, piece)
    case AskOn(peer, piece) => AsksFor(x, peer, piece)
    case Incoming(peer, payload) =>
      var m := ParseMetadataMessage(lossy, payload);
      var x1 := x.(due := x.due - {peer});
      if m.msgType == 1 && m.piece in x.Asked(peer) then
        Advanced(h, AfterTaking(x, peer, m), m.piece, m.totalSize, m.data)
      else if m.msgType == 2 then x1.(asked := x.asked[peer := Without(x.Asked(peer), m.piece)])
      else x1
    case Leave(peer) => x.(asked := x.asked - {peer}, due := x.due - {peer})
  }

  /** The request is used up, and what is stored next tells what the connection asks for next. */
  function AfterTaking(x: Exchange, peer: nat, m: Message): Exchange {
    var next := NeedNext(x.running, m.piece, m.totalSize, m.data);
    x.(asked := x.asked[peer := Taken(x.Asked(peer), m.piece)],
       due := if next.Some? then x.due[peer := next.value] else x.due - {peer})
  }

  function AsksFor(x: Exchange, peer: nat, piece: nat): Exchange {
    x.(asked := x.asked[peer := x.Asked(peer) + [piece]], due := x.due - {peer})
  }

  ghost function Run(lossy: Bytes -> Bytes, h: Hash, es: seq<Event>): Exchange {
    if es == [] then START else Next(lossy, h, Run(lossy, h, es[..|es| - 1]), es[|es| - 1])
  }

  /** The program's own rule: a handshake asks for the first missing piece, and a stored piece
      for the one behind it. */
  predicate ByTheRule(x: Exchange, e: Event) {
    && (e.Ask? ==> e.piece == FirstMissing(x.running))
    && (e.AskOn? ==> e.peer in x.due && x.due[e.peer] == e.piece)
  }

  ghost predicate AllByTheRule(lossy: Bytes -> Bytes, h: Hash, es: seq<Event>) {
    forall i :: 0 <= i < |es| ==> ByTheRule(Run(lossy, h, es[..i]), es[i])
  }

  /** Whatever peers send, only dictionaries with the right hash are handed on. */
  lemma {:induction false} FinishedIsVerified(lossy: Bytes -> Bytes, h: Hash, es: seq<Event>)
    ensures forall d :: d in Run(lossy, h, es).finished ==> h.Verifies(d)
    decreases |es|
  {
    hide ParseMetadataMessage, Taken, NeedNext;
    if es != [] {
      FinishedIsVerified(lossy, h, es[..|es| - 1]);
    }
  }

  // ----- the handler as the program has it

  class PeerRequests {
    var sent: seq<nat>

    method Take(piece: nat) returns (asked: bool)
      modifies this
      ensures asked <==> piece in old(sent)
      ensures sent == Taken(old(sent), piece)
    {
      var i := 0;
      while i < |sent| && sent[i] != piece
        invariant i <= |sent| && IndexIn(sent, piece) == i + IndexIn(sent[i..], piece)
      {
        assert sent[i..][1..] == sent[i + 1..];
        i := i + 1;
      }
      assert i == |sent| || sent[i..][0] == piece;
      if i == |sent| {
        return false;
      }
      sent := sent[i := sent[|sent| - 1]][..|sent| - 1];
      return true;
    }
  }

  class MetadataExchange {
    const hash: Hash
    var state: MetadataState?
    var finished: seq<Bytes>

    ghost predicate Valid()
      reads this, state
    {
      state != null ==> state.numPieces == |state.pieces|
    }

    function Running(): Option<Chunks>
      reads this, state
    {
      if state == null then None else Some(state.State())
    }

    function View(): Exchange
      reads this, state
    {
      Exchange(Running(), finished, map[], map[])
    }

    constructor (hash: Hash)
      ensures Valid() && View() == START && this.hash == hash
    {
      this.hash, state, finished := hash, null, [];
    }

    /** The piece to ask for after a handshake. */
    method RequestPiece() returns (piece: nat)
      ensures piece == FirstMissing(Running())
      ensures state != null && (exists k :: 0 <= k < |state.pieces| && state.pieces[k].None?) ==>
        && piece < |state.pieces| && state.pieces[piece].None?
        && forall k :: 0 <= k < piece ==> state.pieces[k].Some?
      ensures state == null || (forall k :: 0 <= k < |state.pieces| ==> state.pieces[k].Some?) ==> piece == 0
    {
      if state == null {
        return 0;
      }
      var i := 0;
      while i < |state.pieces| && state.pieces[i].Some?
        invariant i <= |state.pieces| && forall k :: 0 <= k < i ==> state.pieces[k].Some?
      {
        i := i + 1;
      }
      return if i < |state.pieces| then i else 0;
    }

    method ReceiveData(piece: nat, size: nat, data: Bytes) returns (next: Option<nat>)
      requires Valid()
      modifies this, state
      ensures Valid() && View() == Advanced(hash, old(View()), piece, size, data)
      ensures next == NeedNext(old(Running()), piece, size, data)
      ensures state == null || state == old(state) || fresh(state)
    {
      if state == null {
        return None;
      }
      if piece == 0 && size > 0 {
        state.SetTotalSize(size);
      }
      if piece == 0 && state.totalSize == 0 {
        return None;
      }
      var done := state.StorePiece(piece, data);
      if !done {
        return if piece + 1 < state.numPieces then Some(piece + 1) else None;
      }
      var assembled := state.Assemble();
      if hash.Verifies(assembled.value) {
        state := null;
        finished := finished + [assembled.value];
      } else {
        state := new MetadataState();
      }
      return None;
    }
  }
}
