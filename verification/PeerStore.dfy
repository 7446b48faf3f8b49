/** Announced peers and the tokens they must show (src/dht/peer_store.rs). */
module PeerStores {
  import opened Bytes
  import opened InfoHashes
  import opened Addresses

  const MAX_TOKENS: nat := 1000
  const MAX_PEERS: nat := 1000

  datatype StoredToken = StoredToken(token: Bytes, nodeId: InfoHash, addr: SocketAddr)

  datatype StoredPeer = StoredPeer(addr: SocketAddr, time: nat)

  function MaxDistance(): InfoHash {
    [0, 0] + seq(18, _ => 0xFF)
  }

  /** `info_hash.distance(&self_id) > max_distance` */
  predicate TooFar(infoHash: InfoHash, selfId: InfoHash) {
    Less(MaxDistance(), Distance(infoHash, selfId))
  }

  lemma XorZero(a: byte, b: byte)
    ensures XorByte(a, b) == 0 <==> a == b
  {
    XorSame(a, b);
  }

  lemma {:induction false} XorSame(a: nat, b: nat)
    ensures Xor(a, b) == 0 <==> a == b
  {
    if a != 0 && b != 0 {
      XorSame(a / 2, b / 2);
    }
  }

  /** The bound lets through exactly the hashes that share their first two bytes with us. */
  lemma NearMeansSamePrefix(infoHash: InfoHash, selfId: InfoHash)
    ensures TooFar(infoHash, selfId) <==> infoHash[..2] != selfId[..2]
  {
    var d, m := Distance(infoHash, selfId), MaxDistance();
    XorZero(infoHash[0], selfId[0]);
    XorZero(infoHash[1], selfId[1]);
    assert d[0] == XorByte(infoHash[0], selfId[0]) && d[1] == XorByte(infoHash[1], selfId[1]);
    assert m[0] == 0 && m[1] == 0;
    assert infoHash[..2] == [infoHash[0], infoHash[1]] && selfId[..2] == [selfId[0], selfId[1]];
    NotLessThanOnes(m, d, 2);
    assert LessFrom(m, d, 0) <==> d[0] > 0 || LessFrom(m, d, 1);
    assert LessFrom(m, d, 1) <==> d[1] > 0 || LessFrom(m, d, 2);
  }

  lemma {:induction false} NotLessThanOnes(m: InfoHash, d: InfoHash, j: nat)
    requires j <= 20 && forall k :: j <= k < 20 ==> m[k] == 0xFF
    ensures !LessFrom(m, d, j)
    decreases 20 - j
  {
    if j < 20 {
      NotLessThanOnes(m, d, j + 1);
    }
  }

  function WithPort(addr: SocketAddr, port: Port): SocketAddr {
    match addr
    case V4(ip, _) => V4(ip, port)
    case V6(ip, _, flow, scope) => V6(ip, port, flow, scope)
  }

  // ----- counting

  type Peers = map<InfoHash, seq<StoredPeer>>

  ghost function Total(peers: Peers): nat
    decreases |peers|
  {
    if peers == map[] then 0
    else
      var h :| h in peers;
      |peers[h]| + Total(peers - {h})
  }

  lemma {:induction false} TotalWithout(peers: Peers, h: InfoHash)
    requires h in peers
    ensures Total(peers) == |peers[h]| + Total(peers - {h})
    decreases |peers|
  {
    var first :| first in peers && Total(peers) == |peers[first]| + Total(peers - {first});
    if first != h {
      TotalWithout(peers - {first}, h);
      TotalWithout(peers - {h}, first);
      assert peers - {first} - {h} == peers - {h} - {first};
    }
  }

  lemma TotalUpdated(peers: Peers, h: InfoHash, list: seq<StoredPeer>)
    ensures Total(peers[h := list]) == Total(peers) + |list| - if h in peers then |peers[h]| else 0
  {
    TotalWithout(peers[h := list], h);
    assert peers[h := list] - {h} == peers - {h};
    if h in peers {
      TotalWithout(peers, h);
    } else {
      assert peers - {h} == peers;
    }
  }

  // ----- the store at one moment

  datatype Store = Store(selfId: InfoHash, tokens: seq<StoredToken>, peers: Peers, peersLen: nat)

  ghost predicate DistinctAddrs(list: seq<StoredPeer>) {
    forall i, j :: 0 <= i < j < |list| ==> list[i].addr != list[j].addr
  }

  ghost predicate Listed(s: Store, infoHash: InfoHash, addr: SocketAddr) {
    infoHash in s.peers && exists i :: 0 <= i < |s.peers[infoHash]| && s.peers[infoHash][i].addr == addr
  }

  /** Only near hashes, no address twice per hash, and the counter right and bounded. */
  ghost predicate StoreOk(s: Store) {
    && |s.tokens| <= MAX_TOKENS
    && s.peersLen == Total(s.peers) <= MAX_PEERS
    && forall h :: h in s.peers ==> !TooFar(h, s.selfId) && s.peers[h] != [] && DistinctAddrs(s.peers[h])
  }

  function Empty(selfId: InfoHash): Store {
    Store(selfId, [], map[], 0)
  }

  function Remembered(tokens: seq<StoredToken>, t: StoredToken): seq<StoredToken> {
    var more := tokens + [t];
    if |more| > MAX_TOKENS then more[1..] else more
  }

  /** The arguments of `store_peer`, and the clock. */
  datatype Announce = Announce(id: InfoHash, infoHash: InfoHash, token: Bytes, port: Port, impliedPort: byte,
          addr: SocketAddr, now: nat)
  {
    function Stored(): SocketAddr {
      if impliedPort == 0 then WithPort(addr, port) else addr
    }

    /** Where the peer is reached: at the announced port, or with an implied port at the one
        that the announce came from. */
    ghost function Source(): SocketAddr {
      match addr
      case V4(ip, from) => V4(ip, if impliedPort == 0 then port else from)
      case V6(ip, from, flow, scope) => V6(ip, if impliedPort == 0 then port else from, flow, scope)
    }

    predicate Known(tokens: seq<StoredToken>) {
      StoredToken(token, id, addr) in tokens
    }
  }

  function IndexOf(list: seq<StoredPeer>, addr: SocketAddr): (i: nat)
    ensures i <= |list|
    ensures i < |list| ==> list[i].addr == addr
    ensures forall j :: 0 <= j < i ==> list[j].addr != addr
  {
    if list == [] || list[0].addr == addr then 0 else 1 + IndexOf(list[1..], addr)
  }

  /** The accepted announces: near, with a remembered token, and listed already or with room. */
  ghost predicate Accepts(s: Store, a: Announce) {
    && !TooFar(a.infoHash, s.selfId) && a.Known(s.tokens)
    && (Listed(s, a.infoHash, a.Stored()) || s.peersLen < MAX_PEERS)
  }

  function ListOf(s: Store, infoHash: InfoHash): seq<StoredPeer> {
    if infoHash in s.peers then s.peers[infoHash] else []
  }

  ghost function Announced(s: Store, a: Announce): Store {
    if !Accepts(s, a) then s
    else
      var list := ListOf(s, a.infoHash);
      var i := IndexOf(list, a.Stored());
      if i < |list| then s.(peers := s.peers[a.infoHash := list[i := list[i].(time := a.now)]])
      else s.(peers := s.peers[a.infoHash := list + [StoredPeer(a.Stored(), a.now)]], peersLen := s.peersLen + 1)
  }

  class PeerStore {
    const selfId: InfoHash
    var tokens: seq<StoredToken>
    var peers: Peers
    var peersLen: nat

    function State(): Store
      reads this
    {
      Store(selfId, tokens, peers, peersLen)
    }

    constructor (selfId: InfoHash)
      ensures State() == Empty(selfId)
    {
      this.selfId, tokens, peers, peersLen := selfId, [], map[], 0;
    }

    /** `token` is drawn at random. */
    method GenTokenFor(nodeId: InfoHash, addr: SocketAddr, token: Bytes)
      modifies this`tokens
      ensures tokens == Remembered(old(tokens), StoredToken(token, nodeId, addr))
    {
      tokens := tokens + [StoredToken(token, nodeId, addr)];
      if |tokens| > MAX_TOKENS {
        tokens := tokens[1..];
      }
    }

    method StorePeer(a: Announce) returns (accepted: bool)
      modifies this`peers, this`peersLen
      ensures accepted <==> Accepts(old(State()), a)
      ensures State() == Announced(old(State()), a)
    {
      hide TooFar;
      if TooFar(a.infoHash, selfId) {
        return false;
      }
      if !a.Known(tokens) {
        return false;
      }
      var addr := a.addr;
      if a.impliedPort == 0 {
        addr := WithPort(addr, a.port);
      }
      if a.infoHash in peers {
        var list := peers[a.infoHash];
        var i := IndexOf(list, addr);
        if i < |list| {
          peers := peers[a.infoHash := list[i := list[i].(time := a.now)]];
          return true;
        }
        if peersLen >= MAX_PEERS {
          return false;
        }
        peers := peers[a.infoHash := list + [StoredPeer(addr, a.now)]];
      } else {
        if peersLen >= MAX_PEERS {
          return false;
        }
        assert ListOf(State(), a.infoHash) + [StoredPeer(addr, a.now)] == [StoredPeer(addr, a.now)];
        peers := peers[a.infoHash := [StoredPeer(addr, a.now)]];
      }
      peersLen := peersLen + 1;
      return true;
    }

    method GetPeers(infoHash: InfoHash) returns (r: seq<SocketAddr>)
      ensures forall addr :: addr in r <==> Listed(State(), infoHash, addr)
      ensures |r| == |ListOf(State(), infoHash)|
    {
      r := [];
      if infoHash in peers {
        var list := peers[infoHash];
        for i := 0 to |list|
          invariant |r| == i && forall k :: 0 <= k < i ==> r[k] == list[k].addr
        {
          r := r + [list[i].addr];
        }
      }
    }
  }

  // ----- whole runs

  datatype Event = GenToken(nodeId: InfoHash, addr: SocketAddr, token: Bytes) | StorePeer(announce: Announce)

  ghost function Next(s: Store, e: Event): Store {
    match e
    case GenToken(nodeId, addr, token) => s.(tokens := Remembered(s.tokens, StoredToken(token, nodeId, addr)))
    case StorePeer(a) => Announced(s, a)
  }

  ghost function RunFrom(s: Store, es: seq<Event>): Store {
    if es == [] then s else Next(RunFrom(s, es[..|es| - 1]), es[|es| - 1])
  }

  lemma AnnouncedKeeps(s: Store, a: Announce)
    requires StoreOk(s)
    ensures StoreOk(Announced(s, a))
  {
    hide TooFar, Total;
    if Accepts(s, a) {
      var list := ListOf(s, a.infoHash);
      var i := IndexOf(list, a.Stored());
      if i < |list| {
        TotalUpdated(s.peers, a.infoHash, list[i := list[i].(time := a.now)]);
      } else {
        TotalUpdated(s.peers, a.infoHash, list + [StoredPeer(a.Stored(), a.now)]);
      }
    }
  }

  /** Every run from an empty store keeps it in order. */
  lemma {:induction false} RunKeepsStoreOk(selfId: InfoHash, es: seq<Event>)
    ensures StoreOk(RunFrom(Empty(selfId), es))
    decreases |es|
  {
    if es != [] {
      RunKeepsStoreOk(selfId, es[..|es| - 1]);
      match es[|es| - 1]
      case GenToken(_, _, _) =>
      case StorePeer(a) => AnnouncedKeeps(RunFrom(Empty(selfId), es[..|es| - 1]), a);
    }
  }

  /** The tokens issued, in order. */
  ghost function Issued(es: seq<Event>): seq<StoredToken> {
    if es == [] then []
    else
      var e := es[|es| - 1];
      Issued(es[..|es| - 1]) + if e.GenToken? then [StoredToken(e.token, e.nodeId, e.addr)] else []
  }

  ghost function LastOf<T>(s: seq<T>, n: nat): seq<T> {
    if |s| <= n then s else s[|s| - n..]
  }

  lemma RememberedLast(all: seq<StoredToken>, t: StoredToken)
    ensures Remembered(LastOf(all, MAX_TOKENS), t) == LastOf(all + [t], MAX_TOKENS)
  {
  }

  /** What is remembered is exactly the last thousand tokens issued. */
  lemma {:induction false} TokensAreLastIssued(selfId: InfoHash, es: seq<Event>)
    ensures RunFrom(Empty(selfId), es).tokens == LastOf(Issued(es), 1000)
    ensures RunFrom(Empty(selfId), es).selfId == selfId
    decreases |es|
  {
    if es != [] {
      hide Accepts, Remembered, LastOf;
      var n := |es| - 1;
      TokensAreLastIssued(selfId, es[..n]);
      if es[n].GenToken? {
        RememberedLast(Issued(es[..n]), StoredToken(es[n].token, es[n].nodeId, es[n].addr));
      }
    } else {
      assert LastOf<StoredToken>([], MAX_TOKENS) == [];
    }
  }

  /** In any run, an announce is accepted exactly when its hash starts with our own first
      two bytes, its token is among the last thousand issued and was issued to that very id
      and address, and the address is listed already or fewer than a thousand peers are. */
  lemma AcceptedExactly(selfId: InfoHash, es: seq<Event>, a: Announce)
    ensures var s := RunFrom(Empty(selfId), es);
      Accepts(s, a) <==>
        && a.infoHash[..2] == selfId[..2]
        && StoredToken(a.token, a.id, a.addr) in LastOf(Issued(es), 1000)
        && (Listed(s, a.infoHash, a.Source()) || Total(s.peers) < 1000)
  {
    hide TooFar, Total, LastOf, Listed;
    TokensAreLastIssued(selfId, es);
    RunKeepsStoreOk(selfId, es);
    NearMeansSamePrefix(a.infoHash, selfId);
  }

  /** An accepted announce is listed from then on, at its source, with the time it came;
      nobody else appears or disappears, and an announce that is refused changes nothing. */
  lemma AnnounceIsListed(s: Store, a: Announce, h: InfoHash, addr: SocketAddr)
    requires StoreOk(s)
    ensures var s1 := Announced(s, a);
      && (Listed(s1, h, addr) <==> Listed(s, h, addr) || (Accepts(s, a) && h == a.infoHash && addr == a.Source()))
      && (Accepts(s, a) ==>
            a.infoHash in s1.peers && StoredPeer(a.Source(), a.now) in s1.peers[a.infoHash])
      && (!Accepts(s, a) ==> s1 == s)
  {
    hide Accepts, TooFar, Total;
    assert a.Stored() == a.Source();
    if Accepts(s, a) {
      var s1, list := Announced(s, a), ListOf(s, a.infoHash);
      var i := IndexOf(list, a.Stored());
      var list1 := s1.peers[a.infoHash];
      assert list1[i] == StoredPeer(a.Source(), a.now);
      if h == a.infoHash {
        ListedAfter(list, list1, i, StoredPeer(a.Source(), a.now), addr);
      }
    }
  }

  ghost predicate InList(list: seq<StoredPeer>, addr: SocketAddr) {
    exists i :: 0 <= i < |list| && list[i].addr == addr
  }

  lemma ListedAfter(list: seq<StoredPeer>, list1: seq<StoredPeer>, i: nat, p: StoredPeer, addr: SocketAddr)
    requires (i < |list| && list[i].addr == p.addr && list1 == list[i := p]) || (i == |list| && list1 == list + [p])
    ensures InList(list1, addr) <==> InList(list, addr) || addr == p.addr
  {
    if InList(list, addr) {
      var k :| 0 <= k < |list| && list[k].addr == addr;
      assert list1[k].addr == addr;
    }
    assert list1[i].addr == p.addr;
    if InList(list1, addr) && addr != p.addr {
      var k :| 0 <= k < |list1| && list1[k].addr == addr;
      assert list[k].addr == addr;
    }
  }

  /** The event is an announce that is accepted where it comes in the run. */
  ghost predicate AcceptedAt(selfId: InfoHash, es: seq<Event>, k: nat)
    requires k < |es|
  {
    es[k].StorePeer? && Accepts(RunFrom(Empty(selfId), es[..k]), es[k].announce)
  }

  lemma EmptyListsNobody(selfId: InfoHash, h: InfoHash, addr: SocketAddr)
    ensures !Listed(Empty(selfId), h, addr)
  {
  }

  /** The event is an announce of this address for this hash, accepted where it comes. */
  ghost predicate ListsAt(selfId: InfoHash, es: seq<Event>, k: nat, h: InfoHash, addr: SocketAddr)
    requires k < |es|
  {
    AcceptedAt(selfId, es, k) && es[k].announce.infoHash == h && es[k].announce.Source() == addr
  }

  /** After any run an address is listed for a hash exactly if some announce of it was accepted. */
  lemma {:induction false} ListedExactly(selfId: InfoHash, es: seq<Event>, h: InfoHash, addr: SocketAddr)
    ensures Listed(RunFrom(Empty(selfId), es), h, addr) <==>
      exists k :: 0 <= k < |es| && ListsAt(selfId, es, k, h, addr)
    decreases |es|
  {
    hide Accepts, Listed;
    if es == [] {
      EmptyListsNobody(selfId, h, addr);
    } else {
      var n := |es| - 1;
      var before := es[..n];
      ListedExactly(selfId, before, h, addr);
      forall k: nat | k < n ensures ListsAt(selfId, before, k, h, addr) <==> ListsAt(selfId, es, k, h, addr) {
        assert before[..k] == es[..k] && before[k] == es[k];
      }
      EventLists(selfId, es, h, addr);
      if k :| 0 <= k < n && ListsAt(selfId, before, k, h, addr) {
        assert ListsAt(selfId, es, k, h, addr);
      }
    }
  }

  /** The last event lists the address, or it was listed before. */
  lemma EventLists(selfId: InfoHash, es: seq<Event>, h: InfoHash, addr: SocketAddr)
    requires es != []
    ensures var n := |es| - 1;
      Listed(RunFrom(Empty(selfId), es), h, addr) <==>
        Listed(RunFrom(Empty(selfId), es[..n]), h, addr) || ListsAt(selfId, es, n, h, addr)
  {
    hide Accepts, Announced;
    var n := |es| - 1;
    RunKeepsStoreOk(selfId, es[..n]);
    var s := RunFrom(Empty(selfId), es[..n]);
    if es[n].StorePeer? {
      AnnounceIsListed(s, es[n].announce, h, addr);
    }
  }
}
