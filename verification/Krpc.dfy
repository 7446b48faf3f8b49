/** KRPC messages of the DHT (src/dht/protocol.rs; BEP 5, section "KRPC Protocol"). */
module Krpc {
  import opened Bytes
  import opened Decimals
  import opened Bencode
  import opened InfoHashes
  import opened Addresses

  datatype Want = WantV4 | WantV6 | WantBoth | WantNone

  datatype Message =
    | PingRequest(tid: Bytes, id: InfoHash)
    | PingResponse(tid: Bytes, id: InfoHash, ip: Option<SocketAddr>)
    | FindNodeRequest(tid: Bytes, id: InfoHash, target: InfoHash, want: Want)
    | FindNodeResponse(tid: Bytes, id: InfoHash, nodes: Bytes, nodes6: Bytes, ip: Option<SocketAddr>)
    | GetPeersRequest(tid: Bytes, id: InfoHash, infoHash: InfoHash, want: Want)
    | GetPeersResponse(tid: Bytes, id: InfoHash, token: Bytes, values: seq<SocketAddr>, nodes: Bytes, nodes6: Bytes,
                       ip: Option<SocketAddr>)
    | AnnouncePeerRequest(tid: Bytes, id: InfoHash, infoHash: InfoHash, token: Bytes, port: Port, impliedPort: byte)
    | AnnouncePeerResponse(tid: Bytes, id: InfoHash, ip: Option<SocketAddr>)
    | Error(tid: Bytes, code: I32, message: Bytes)

  type I32 = i: int | -0x8000_0000 <= i < 0x8000_0000

  // ----- casts

  /** `i as u16`, `i as i32` */
  function AsU16(i: int): Port {
    i % 0x1_0000
  }

  function AsI32(i: int): I32 {
    (i + 0x8000_0000) % 0x1_0000_0000 - 0x8000_0000
  }

  // ----- compact addresses

  function PortBytes(port: Port): (b: Bytes)
    ensures |b| == 2
  {
    [port / 256, port % 256]
  }

  function PortOf(high: byte, low: byte): Port {
    256 * high + low
  }

  function BuildCompactPeerAddr(addr: SocketAddr): (b: Bytes)
    ensures |b| == if addr.V4? then 6 else 18
  {
    match addr
    case V4(ip, port) => ip + PortBytes(port)
    case V6(ip, port, _, _) => ip + PortBytes(port)
  }

  function ParseCompactPeerAddr(data: Bytes): Option<SocketAddr> {
    if |data| == 6 then Some(V4(data[..4], PortOf(data[4], data[5])))
    else if |data| == 18 then Some(V6(data[..16], PortOf(data[16], data[17]), 0, 0))
    else None
  }

  /** What survives of an address on the wire: an IPv6 flow label and scope do not. */
  function NormAddr(addr: SocketAddr): SocketAddr {
    match addr
    case V4(_, _) => addr
    case V6(ip, port, _, _) => V6(ip, port, 0, 0)
  }

  lemma CompactAddrRoundTrip(addr: SocketAddr)
    ensures ParseCompactPeerAddr(BuildCompactPeerAddr(addr)) == Some(NormAddr(addr))
  {
    var data := BuildCompactPeerAddr(addr);
    if addr.V4? {
      assert data[..4] == addr.ip4;
    } else {
      assert data[..16] == addr.ip6;
    }
  }

  // ----- dictionary keys

  datatype Key =
    | KeyA | KeyE | KeyId | KeyImpliedPort | KeyInfoHash | KeyIp | KeyNodes | KeyNodes6 | KeyPort
    | KeyQ | KeyR | KeyT | KeyTarget | KeyToken | KeyValues | KeyWant | KeyY

  function Spelling(k: Key): string {
    match k
    case KeyA => "a"
    case KeyE => "e"
    case KeyId => "id"
    case KeyImpliedPort => "implied_port"
    case KeyInfoHash => "info_hash"
    case KeyIp => "ip"
    case KeyNodes => "nodes"
    case KeyNodes6 => "nodes6"
    case KeyPort => "port"
    case KeyQ => "q"
    case KeyR => "r"
    case KeyT => "t"
    case KeyTarget => "target"
    case KeyToken => "token"
    case KeyValues => "values"
    case KeyWant => "want"
    case KeyY => "y"
  }

  function Name(k: Key): Bytes {
    Ascii(Spelling(k))
  }

  lemma SpellingShort(k: Key)
    ensures 0 < |Spelling(k)| < 100 && forall i :: 0 <= i < |Spelling(k)| ==> Spelling(k)[i] < 128 as char
  {
  }

  lemma SpellingsDiffer(a: Key, b: Key)
    requires |Spelling(a)| == |Spelling(b)| && Spelling(a)[0] == Spelling(b)[0]
    requires |Spelling(a)| > 1 ==> Spelling(a)[1] == Spelling(b)[1]
    ensures a == b
  {
  }

  lemma NamesDiffer(a: Key, b: Key)
    requires Name(a) == Name(b)
    ensures a == b
  {
    hide Spelling;
    SpellingShort(a);
    SpellingShort(b);
    assert Name(a)[0] == Spelling(a)[0] as int && Name(b)[0] == Spelling(b)[0] as int;
    if |Name(a)| > 1 {
      assert Name(a)[1] == Spelling(a)[1] as int && Name(b)[1] == Spelling(b)[1] as int;
    }
    SpellingsDiffer(a, b);
  }

  function With(d: seq<Entry>, k: Key, v: Value): seq<Entry> {
    Insert(d, Name(k), v)
  }

  function Lookup(d: seq<Entry>, k: Key): Option<Value> {
    Get(d, Name(k))
  }

  function BytesAt(d: seq<Entry>, k: Key): Option<Bytes> {
    match Lookup(d, k) case None => None case Some(v) => v.AsBytes()
  }

  function DictAt(d: seq<Entry>, k: Key): Option<seq<Entry>> {
    match Lookup(d, k) case None => None case Some(v) => v.AsDict()
  }

  function ListAt(d: seq<Entry>, k: Key): Option<seq<Value>> {
    match Lookup(d, k) case None => None case Some(v) => v.AsList()
  }

  function OrEmpty<T>(s: Option<seq<T>>): seq<T> {
    if s.Some? then s.value else []
  }

  function IntegerOr0(v: Value): int {
    if v.Integer? then v.i else 0
  }

  // ----- serialize

  function WantList(want: Want): Value {
    List(match want
      case WantV4 => [ByteString(Ascii("n4"))]
      case WantV6 => [ByteString(Ascii("n6"))]
      case WantBoth => [ByteString(Ascii("n4")), ByteString(Ascii("n6"))]
      case WantNone => [])
  }

  function AddrList(values: seq<SocketAddr>): Value {
    List(seq(|values|, i requires 0 <= i < |values| => ByteString(BuildCompactPeerAddr(values[i]))))
  }

  function WithNonEmpty(d: seq<Entry>, k: Key, data: Bytes): seq<Entry> {
    if data == [] then d else With(d, k, ByteString(data))
  }

  function WithWant(d: seq<Entry>, want: Want): seq<Entry> {
    if want == WantNone then d else With(d, KeyWant, WantList(want))
  }

  function WithIp(d: seq<Entry>, ip: Option<SocketAddr>): seq<Entry> {
    if ip.None? then d else With(d, KeyIp, ByteString(BuildCompactPeerAddr(ip.value)))
  }

  function QueryDict(tid: Bytes, method_: string, a: seq<Entry>): seq<Entry> {
    var d := With([], KeyT, ByteString(tid));
    var d := With(d, KeyY, ByteString(Ascii("q")));
    var d := With(d, KeyQ, ByteString(Ascii(method_)));
    With(d, KeyA, Dict(a))
  }

  function ReplyDict(tid: Bytes, r: seq<Entry>, ip: Option<SocketAddr>): seq<Entry> {
    var d := With([], KeyT, ByteString(tid));
    var d := With(d, KeyY, ByteString(Ascii("r")));
    var d := With(d, KeyR, Dict(r));
    WithIp(d, ip)
  }

  function ErrorDict(tid: Bytes, e: seq<Value>): seq<Entry> {
    var d := With([], KeyT, ByteString(tid));
    var d := With(d, KeyY, ByteString(Ascii("e")));
    With(d, KeyE, List(e))
  }

  function IdDict(id: InfoHash): seq<Entry> {
    With([], KeyId, ByteString(id))
  }

  function PeersDict(m: Message): seq<Entry>
    requires m.GetPeersResponse?
  {
    var r := With(IdDict(m.id), KeyToken, ByteString(m.token));
    var r := if m.values == [] then r else With(r, KeyValues, AddrList(m.values));
    var r := WithNonEmpty(r, KeyNodes, m.nodes);
    WithNonEmpty(r, KeyNodes6, m.nodes6)
  }

  function NodesDict(m: Message): seq<Entry>
    requires m.FindNodeResponse?
  {
    WithNonEmpty(WithNonEmpty(IdDict(m.id), KeyNodes, m.nodes), KeyNodes6, m.nodes6)
  }

  function AnnounceDict(id: InfoHash, infoHash: InfoHash, token: Bytes, port: int, impliedPort: int): seq<Entry> {
    var a := With(IdDict(id), KeyInfoHash, ByteString(infoHash));
    var a := With(a, KeyToken, ByteString(token));
    var a := With(a, KeyPort, Integer(port));
    With(a, KeyImpliedPort, Integer(impliedPort))
  }

  function MessageDict(m: Message): seq<Entry> {
    match m
    case PingRequest(tid, id) => QueryDict(tid, "ping", IdDict(id))
    case PingResponse(tid, id, ip) => ReplyDict(tid, IdDict(id), ip)
    case FindNodeRequest(tid, id, target, want) =>
      QueryDict(tid, "find_node", WithWant(With(IdDict(id), KeyTarget, ByteString(target)), want))
    case FindNodeResponse(tid, _, _, _, ip) => ReplyDict(tid, NodesDict(m), ip)
    case GetPeersRequest(tid, id, infoHash, want) =>
      QueryDict(tid, "get_peers", WithWant(With(IdDict(id), KeyInfoHash, ByteString(infoHash)), want))
    case GetPeersResponse(tid, _, _, _, _, _, ip) => ReplyDict(tid, PeersDict(m), ip)
    case AnnouncePeerRequest(tid, id, infoHash, token, port, impliedPort) =>
      QueryDict(tid, "announce_peer", AnnounceDict(id, infoHash, token, port, impliedPort))
    case AnnouncePeerResponse(tid, id, ip) => ReplyDict(tid, IdDict(id), ip)
    case Error(tid, code, message) => ErrorDict(tid, [Integer(code), ByteString(message)])
  }

  function Serialize(m: Message): Bytes {
    Encode(Dict(MessageDict(m)))
  }

  // ----- deserialize

  function WantFromList(items: seq<Value>): Want {
    var v4, v6 := ByteString(Ascii("n4")) in items, ByteString(Ascii("n6")) in items;
    if v4 && v6 then WantBoth else if v4 then WantV4 else if v6 then WantV6 else WantNone
  }

  function ParseAddrs(items: seq<Value>): seq<SocketAddr> {
    if items == [] then []
    else
      var rest := ParseAddrs(items[1..]);
      match items[0].AsBytes()
      case None => rest
      case Some(data) =>
        match ParseCompactPeerAddr(data)
        case None => rest
        case Some(addr) => [addr] + rest
  }

  function WantIn(a: seq<Entry>): Want {
    match ListAt(a, KeyWant) case None => WantNone case Some(items) => WantFromList(items)
  }

  function IdIn(d: seq<Entry>, k: Key): Option<InfoHash> {
    match BytesAt(d, k) case None => None case Some(data) => if |data| == 20 then Some(data) else None
  }

  function DeserializeQuery(tid: Bytes, d: seq<Entry>): Option<Message> {
    match BytesAt(d, KeyQ)
    case None => None
    case Some(q) =>
      match DictAt(d, KeyA)
      case None => None
      case Some(a) =>
        match IdIn(a, KeyId)
        case None => None
        case Some(id) =>
          if q == Ascii("ping") then Some(PingRequest(tid, id))
          else if q == Ascii("find_node") then
            match IdIn(a, KeyTarget)
            case None => None
            case Some(target) => Some(FindNodeRequest(tid, id, target, WantIn(a)))
          else if q == Ascii("get_peers") then
            match IdIn(a, KeyInfoHash)
            case None => None
            case Some(infoHash) => Some(GetPeersRequest(tid, id, infoHash, WantIn(a)))
          else if q == Ascii("announce_peer") then DeserializeAnnounce(tid, id, a)
          else None
  }

  function DeserializeAnnounce(tid: Bytes, id: InfoHash, a: seq<Entry>): Option<Message> {
    match IdIn(a, KeyInfoHash)
    case None => None
    case Some(infoHash) =>
      match BytesAt(a, KeyToken)
      case None => None
      case Some(token) =>
        match Lookup(a, KeyPort)
        case None => None
        case Some(port) =>
          match Lookup(a, KeyImpliedPort)
          case None => None
          case Some(implied) =>
            Some(AnnouncePeerRequest(tid, id, infoHash, token, AsU16(IntegerOr0(port)), IntegerOr0(implied) % 256))
  }

  function DeserializeReply(tid: Bytes, d: seq<Entry>): Option<Message> {
    match DictAt(d, KeyR)
    case None => None
    case Some(r) =>
      match IdIn(r, KeyId)
      case None => None
      case Some(id) =>
        var ip := match BytesAt(d, KeyIp) case None => None case Some(data) => ParseCompactPeerAddr(data);
        var nodes, nodes6 := OrEmpty(BytesAt(r, KeyNodes)), OrEmpty(BytesAt(r, KeyNodes6));
        if Lookup(r, KeyToken).Some? || Lookup(r, KeyValues).Some? then
          Some(GetPeersResponse(tid, id, OrEmpty(BytesAt(r, KeyToken)), ParseAddrs(OrEmpty(ListAt(r, KeyValues))),
            nodes, nodes6, ip))
        else if Lookup(r, KeyNodes).Some? then Some(FindNodeResponse(tid, id, nodes, nodes6, ip))
        else Some(PingResponse(tid, id, ip))
  }

  function DeserializeError(tid: Bytes, d: seq<Entry>): Option<Message> {
    match ListAt(d, KeyE)
    case None => None
    case Some(e) =>
      var code := if |e| > 0 then IntegerOr0(e[0]) else 0;
      var message := if |e| > 1 then OrEmpty(e[1].AsBytes()) else [];
      Some(Error(tid, AsI32(code), message))
  }

  function DeserializeDict(d: seq<Entry>): Option<Message> {
    match BytesAt(d, KeyY)
    case None => None
    case Some(y) =>
      match BytesAt(d, KeyT)
      case None => None
      case Some(tid) =>
        if y == Ascii("q") then DeserializeQuery(tid, d)
        else if y == Ascii("r") then DeserializeReply(tid, d)
        else if y == Ascii("e") then DeserializeError(tid, d)
        else None
  }

  function Deserialize(lossy: Bytes -> Bytes, data: Bytes): Option<Message> {
    match Parse(lossy, data)
    case None => None
    case Some(v) => match v.AsDict() case None => None case Some(d) => DeserializeDict(d)
  }

  // ----- dictionaries under construction

  /** A dictionary the printer and the parser agree on, nested at most `h` levels inside. */
  ghost predicate DictOk(lossy: Bytes -> Bytes, d: seq<Entry>, h: nat) {
    KeysSorted(d) && forall i :: 0 <= i < |d| ==> EntryOk(lossy, d[i]) && Height(d[i].value) <= h
  }

  ghost predicate ValueOk(lossy: Bytes -> Bytes, v: Value, h: nat) {
    WellFormed(lossy, v) && Height(v) <= h
  }

  lemma EmptyDict(lossy: Bytes -> Bytes, h: nat)
    ensures DictOk(lossy, [], h) && forall k :: Lookup([], k) == None
  {
  }

  lemma NameFits(lossy: Bytes -> Bytes, k: Key)
    requires Utf8Lossy(lossy)
    ensures lossy(Name(k)) == Name(k) && |Name(k)| <= USIZE_MAX
  {
    hide Spelling, Utf8Lossy;
    SpellingShort(k);
    AsciiKeyFits(lossy, Spelling(k));
  }

  lemma WithOk(lossy: Bytes -> Bytes, d: seq<Entry>, h: nat, k: Key, v: Value)
    requires Utf8Lossy(lossy) && DictOk(lossy, d, h) && ValueOk(lossy, v, h)
    ensures DictOk(lossy, With(d, k, v), h)
    ensures forall k2 :: Lookup(With(d, k, v), k2) == if k2 == k then Some(v) else Lookup(d, k2)
  {
    hide Name, WellFormed, Height, Utf8Lossy;
    NameFits(lossy, k);
    InsertSorted(d, Name(k), v);
    var more := With(d, k, v);
    forall i | 0 <= i < |more| ensures EntryOk(lossy, more[i]) && Height(more[i].value) <= h {
      assert more[i] in more;
    }
    forall k2 ensures Lookup(more, k2) == if k2 == k then Some(v) else Lookup(d, k2) {
      InsertGet(d, Name(k), v, Name(k2));
      if Name(k2) == Name(k) {
        NamesDiffer(k2, k);
      }
    }
  }

  lemma DictValueOk(lossy: Bytes -> Bytes, d: seq<Entry>, h: nat)
    requires DictOk(lossy, d, h)
    ensures ValueOk(lossy, Dict(d), h + 1)
  {
    EntriesHeightBound(d, h);
  }

  lemma StringValueOk(lossy: Bytes -> Bytes, s: Bytes, h: nat)
    requires |s| <= USIZE_MAX
    ensures ValueOk(lossy, ByteString(s), h)
  {
  }

  lemma FlatListOk(lossy: Bytes -> Bytes, items: seq<Value>)
    requires forall i :: 0 <= i < |items| ==> ValueOk(lossy, items[i], 0)
    ensures ValueOk(lossy, List(items), 1)
  {
    ItemsHeightBound(items, 0);
  }

  lemma QueryOk(lossy: Bytes -> Bytes, tid: Bytes, name: string, a: seq<Entry>, h: nat)
    requires Utf8Lossy(lossy) && |tid| <= USIZE_MAX && |name| < 100 && DictOk(lossy, a, h)
    ensures var d := QueryDict(tid, name, a);
      && DictOk(lossy, d, h + 1)
      && BytesAt(d, KeyT) == Some(tid) && BytesAt(d, KeyY) == Some(Ascii("q"))
      && BytesAt(d, KeyQ) == Some(Ascii(name)) && DictAt(d, KeyA) == Some(a)
  {
    hide DictOk, ValueOk, With, Lookup, Utf8Lossy;
    EmptyDict(lossy, h + 1);
    StringValueOk(lossy, tid, h + 1);
    StringValueOk(lossy, Ascii("q"), h + 1);
    StringValueOk(lossy, Ascii(name), h + 1);
    DictValueOk(lossy, a, h);
    var d1 := With([], KeyT, ByteString(tid));
    WithOk(lossy, [], h + 1, KeyT, ByteString(tid));
    var d2 := With(d1, KeyY, ByteString(Ascii("q")));
    WithOk(lossy, d1, h + 1, KeyY, ByteString(Ascii("q")));
    var d3 := With(d2, KeyQ, ByteString(Ascii(name)));
    WithOk(lossy, d2, h + 1, KeyQ, ByteString(Ascii(name)));
    WithOk(lossy, d3, h + 1, KeyA, Dict(a));
  }

  lemma ReplyOk(lossy: Bytes -> Bytes, tid: Bytes, r: seq<Entry>, h: nat, ip: Option<SocketAddr>)
    requires Utf8Lossy(lossy) && |tid| <= USIZE_MAX && DictOk(lossy, r, h)
    ensures var d := ReplyDict(tid, r, ip);
      && DictOk(lossy, d, h + 1)
      && BytesAt(d, KeyT) == Some(tid) && BytesAt(d, KeyY) == Some(Ascii("r")) && DictAt(d, KeyR) == Some(r)
      && BytesAt(d, KeyIp) == if ip.None? then None else Some(BuildCompactPeerAddr(ip.value))
  {
    hide DictOk, ValueOk, With, Lookup, Utf8Lossy, BuildCompactPeerAddr;
    EmptyDict(lossy, h + 1);
    StringValueOk(lossy, tid, h + 1);
    StringValueOk(lossy, Ascii("r"), h + 1);
    DictValueOk(lossy, r, h);
    var d1 := With([], KeyT, ByteString(tid));
    WithOk(lossy, [], h + 1, KeyT, ByteString(tid));
    var d2 := With(d1, KeyY, ByteString(Ascii("r")));
    WithOk(lossy, d1, h + 1, KeyY, ByteString(Ascii("r")));
    var d3 := With(d2, KeyR, Dict(r));
    WithOk(lossy, d2, h + 1, KeyR, Dict(r));
    if ip.Some? {
      StringValueOk(lossy, BuildCompactPeerAddr(ip.value), h + 1);
      WithOk(lossy, d3, h + 1, KeyIp, ByteString(BuildCompactPeerAddr(ip.value)));
    }
  }

  lemma IdOk(lossy: Bytes -> Bytes, id: InfoHash, h: nat)
    requires Utf8Lossy(lossy)
    ensures DictOk(lossy, IdDict(id), h)
    ensures forall k :: Lookup(IdDict(id), k) == if k == KeyId then Some(ByteString(id)) else None
  {
    hide DictOk, ValueOk, With, Lookup, Utf8Lossy;
    EmptyDict(lossy, h);
    StringValueOk(lossy, id, h);
    WithOk(lossy, [], h, KeyId, ByteString(id));
  }

  lemma StringWithOk(lossy: Bytes -> Bytes, d: seq<Entry>, h: nat, k: Key, s: Bytes)
    requires Utf8Lossy(lossy) && DictOk(lossy, d, h) && |s| <= USIZE_MAX
    ensures DictOk(lossy, With(d, k, ByteString(s)), h) && DictOk(lossy, WithNonEmpty(d, k, s), h)
    ensures forall k2 :: Lookup(With(d, k, ByteString(s)), k2) == if k2 == k then Some(ByteString(s)) else Lookup(d, k2)
    ensures forall k2 ::
      Lookup(WithNonEmpty(d, k, s), k2) == if k2 == k && s != [] then Some(ByteString(s)) else Lookup(d, k2)
  {
    hide DictOk, ValueOk, With, Lookup, Utf8Lossy;
    StringValueOk(lossy, s, h);
    WithOk(lossy, d, h, k, ByteString(s));
  }

  lemma WantRoundTrip(want: Want)
    ensures WantFromList(WantList(want).items) == want
  {
    assert Ascii("n4")[1] != Ascii("n6")[1];
  }

  lemma WantOk(lossy: Bytes -> Bytes, a: seq<Entry>, want: Want)
    requires Utf8Lossy(lossy) && DictOk(lossy, a, 1) && Lookup(a, KeyWant).None?
    ensures DictOk(lossy, WithWant(a, want), 1) && WantIn(WithWant(a, want)) == want
    ensures forall k :: k != KeyWant ==> Lookup(WithWant(a, want), k) == Lookup(a, k)
  {
    hide DictOk, With, Lookup, Utf8Lossy;
    if want != WantNone {
      FlatListOk(lossy, WantList(want).items);
      WithOk(lossy, a, 1, KeyWant, WantList(want));
      WantRoundTrip(want);
    }
  }

  lemma {:induction false} AddrsRoundTrip(values: seq<SocketAddr>)
    ensures ParseAddrs(AddrList(values).items) == seq(|values|, i requires 0 <= i < |values| => NormAddr(values[i]))
  {
    hide BuildCompactPeerAddr, ParseCompactPeerAddr;
    if values != [] {
      CompactAddrRoundTrip(values[0]);
      AddrsRoundTrip(values[1..]);
      assert AddrList(values).items[1..] == AddrList(values[1..]).items;
    }
  }

  /** Items that are no compact addresses are passed over. */
  lemma {:induction false} JunkIsSkipped(before: seq<Value>, junk: Value, after: seq<Value>)
    requires junk.ByteString? ==> |junk.s| != 6 && |junk.s| != 18
    ensures ParseAddrs(before + [junk] + after) == ParseAddrs(before) + ParseAddrs(after)
  {
    hide ParseCompactPeerAddr;
    if before == [] {
      assert (before + [junk] + after)[1..] == after;
      assert junk.ByteString? ==> ParseCompactPeerAddr(junk.s) == None by {
        JunkDoesNotParse(junk);
      }
    } else {
      assert (before + [junk] + after)[1..] == before[1..] + [junk] + after;
      JunkIsSkipped(before[1..], junk, after);
    }
  }

  lemma JunkDoesNotParse(junk: Value)
    requires junk.ByteString? ==> |junk.s| != 6 && |junk.s| != 18
    ensures junk.ByteString? ==> ParseCompactPeerAddr(junk.s) == None
  {
  }

  // ----- what comes back

  function NormIp(ip: Option<SocketAddr>): Option<SocketAddr> {
    if ip.None? then None else Some(NormAddr(ip.value))
  }

  /** An announce reply cannot be told from a ping reply, nor can a node list without
      IPv4 nodes, which loses its IPv6 nodes too. */
  function Norm(m: Message): Message {
    match m
    case PingResponse(tid, id, ip) => PingResponse(tid, id, NormIp(ip))
    case FindNodeResponse(tid, id, nodes, nodes6, ip) =>
      if nodes == [] then PingResponse(tid, id, NormIp(ip)) else FindNodeResponse(tid, id, nodes, nodes6, NormIp(ip))
    case GetPeersResponse(tid, id, token, values, nodes, nodes6, ip) =>
      GetPeersResponse(tid, id, token, seq(|values|, i requires 0 <= i < |values| => NormAddr(values[i])), nodes,
        nodes6, NormIp(ip))
    case AnnouncePeerResponse(tid, id, ip) => PingResponse(tid, id, NormIp(ip))
    case _ => m
  }

  /** Every byte string has a length the machine can count. */
  ghost predicate Fits(m: Message) {
    && |m.tid| <= USIZE_MAX
    && (m.FindNodeResponse? || m.GetPeersResponse? ==> |m.nodes| <= USIZE_MAX && |m.nodes6| <= USIZE_MAX)
    && (m.GetPeersResponse? || m.AnnouncePeerRequest? ==> |m.token| <= USIZE_MAX)
    && (m.Error? ==> |m.message| <= USIZE_MAX)
  }

  ghost predicate Decodes(lossy: Bytes -> Bytes, m: Message) {
    DictOk(lossy, MessageDict(m), 2) && DeserializeDict(MessageDict(m)) == Some(Norm(m))
  }

  lemma YsDiffer()
    ensures Ascii("q") != Ascii("r") && Ascii("q") != Ascii("e") && Ascii("r") != Ascii("e")
  {
    assert Ascii("q")[0] != Ascii("r")[0] && Ascii("q")[0] != Ascii("e")[0] && Ascii("r")[0] != Ascii("e")[0];
  }

  lemma MethodsDiffer()
    ensures Ascii("ping") != Ascii("find_node") && Ascii("ping") != Ascii("get_peers")
      && Ascii("ping") != Ascii("announce_peer")
    ensures Ascii("find_node") != Ascii("get_peers") && Ascii("find_node") != Ascii("announce_peer")
    ensures Ascii("get_peers") != Ascii("announce_peer")
  {
    assert Ascii("find_node")[0] != Ascii("get_peers")[0];
  }

  lemma PlainReplyDecodes(lossy: Bytes -> Bytes, m: Message)
    requires Utf8Lossy(lossy) && Fits(m) && (m.PingResponse? || m.AnnouncePeerResponse?)
    ensures Decodes(lossy, m)
  {
    hide DictOk, With, IdDict, Lookup, Utf8Lossy, ReplyDict;
    YsDiffer();
    IdOk(lossy, m.id, 1);
    ReplyOk(lossy, m.tid, IdDict(m.id), 1, m.ip);
    IpDecodes(m.ip);
  }

  lemma IpDecodes(ip: Option<SocketAddr>)
    ensures ip.Some? ==> ParseCompactPeerAddr(BuildCompactPeerAddr(ip.value)) == NormIp(ip)
  {
    if ip.Some? {
      CompactAddrRoundTrip(ip.value);
    }
  }

  lemma NodesReplyDecodes(lossy: Bytes -> Bytes, m: Message)
    requires Utf8Lossy(lossy) && Fits(m) && m.FindNodeResponse?
    ensures Decodes(lossy, m)
  {
    hide DictOk, With, IdDict, Lookup, Utf8Lossy, ReplyDict, WithNonEmpty, ParseCompactPeerAddr, BuildCompactPeerAddr;
    YsDiffer();
    IdOk(lossy, m.id, 1);
    StringWithOk(lossy, IdDict(m.id), 1, KeyNodes, m.nodes);
    StringWithOk(lossy, WithNonEmpty(IdDict(m.id), KeyNodes, m.nodes), 1, KeyNodes6, m.nodes6);
    ReplyOk(lossy, m.tid, NodesDict(m), 1, m.ip);
    IpDecodes(m.ip);
  }

  lemma PeersReplyDecodes(lossy: Bytes -> Bytes, m: Message)
    requires Utf8Lossy(lossy) && Fits(m) && m.GetPeersResponse?
    ensures Decodes(lossy, m)
  {
    hide DictOk, With, IdDict, Lookup, Utf8Lossy, ReplyDict, PeersDict;
    hide ParseCompactPeerAddr, BuildCompactPeerAddr, ParseAddrs;
    YsDiffer();
    PeersOk(lossy, m);
    ReplyOk(lossy, m.tid, PeersDict(m), 1, m.ip);
    IpDecodes(m.ip);
    AddrsRoundTrip(m.values);
  }

  lemma PeersOk(lossy: Bytes -> Bytes, m: Message)
    requires Utf8Lossy(lossy) && Fits(m) && m.GetPeersResponse?
    ensures DictOk(lossy, PeersDict(m), 1)
    ensures IdIn(PeersDict(m), KeyId) == Some(m.id) && BytesAt(PeersDict(m), KeyToken) == Some(m.token)
    ensures OrEmpty(ListAt(PeersDict(m), KeyValues)) == AddrList(m.values).items
    ensures OrEmpty(BytesAt(PeersDict(m), KeyNodes)) == m.nodes && OrEmpty(BytesAt(PeersDict(m), KeyNodes6)) == m.nodes6
  {
    hide DictOk, With, IdDict, Lookup, Utf8Lossy, WithNonEmpty, BuildCompactPeerAddr;
    IdOk(lossy, m.id, 1);
    StringWithOk(lossy, IdDict(m.id), 1, KeyToken, m.token);
    var r1 := With(IdDict(m.id), KeyToken, ByteString(m.token));
    FlatListOk(lossy, AddrList(m.values).items);
    WithOk(lossy, r1, 1, KeyValues, AddrList(m.values));
    var r2 := if m.values == [] then r1 else With(r1, KeyValues, AddrList(m.values));
    StringWithOk(lossy, r2, 1, KeyNodes, m.nodes);
    StringWithOk(lossy, WithNonEmpty(r2, KeyNodes, m.nodes), 1, KeyNodes6, m.nodes6);
  }

  lemma QueryDecodes(lossy: Bytes -> Bytes, m: Message)
    requires Utf8Lossy(lossy) && Fits(m) && (m.PingRequest? || m.FindNodeRequest? || m.GetPeersRequest?)
    ensures Decodes(lossy, m)
  {
    hide DictOk, With, IdDict, Lookup, Utf8Lossy, QueryDict, WithWant, WantIn;
    YsDiffer();
    MethodsDiffer();
    IdOk(lossy, m.id, 1);
    match m
    case PingRequest(tid, id) =>
      QueryOk(lossy, tid, "ping", IdDict(id), 1);
    case FindNodeRequest(tid, id, target, want) =>
      StringWithOk(lossy, IdDict(id), 1, KeyTarget, target);
      WantOk(lossy, With(IdDict(id), KeyTarget, ByteString(target)), want);
      QueryOk(lossy, tid, "find_node", WithWant(With(IdDict(id), KeyTarget, ByteString(target)), want), 1);
    case GetPeersRequest(tid, id, infoHash, want) =>
      StringWithOk(lossy, IdDict(id), 1, KeyInfoHash, infoHash);
      WantOk(lossy, With(IdDict(id), KeyInfoHash, ByteString(infoHash)), want);
      QueryOk(lossy, tid, "get_peers", WithWant(With(IdDict(id), KeyInfoHash, ByteString(infoHash)), want), 1);
  }

  lemma AnnounceOk(lossy: Bytes -> Bytes, id: InfoHash, infoHash: InfoHash, token: Bytes, port: int, impliedPort: int)
    requires Utf8Lossy(lossy) && |token| <= USIZE_MAX
    requires I64_MIN <= port <= I64_MAX && I64_MIN <= impliedPort <= I64_MAX
    ensures var a := AnnounceDict(id, infoHash, token, port, impliedPort);
      && DictOk(lossy, a, 1)
      && IdIn(a, KeyId) == Some(id) && IdIn(a, KeyInfoHash) == Some(infoHash) && BytesAt(a, KeyToken) == Some(token)
      && Lookup(a, KeyPort) == Some(Integer(port)) && Lookup(a, KeyImpliedPort) == Some(Integer(impliedPort))
  {
    hide DictOk, ValueOk, With, IdDict, Lookup, Utf8Lossy;
    IdOk(lossy, id, 1);
    var a0 := IdDict(id);
    StringWithOk(lossy, a0, 1, KeyInfoHash, infoHash);
    var a1 := With(a0, KeyInfoHash, ByteString(infoHash));
    StringWithOk(lossy, a1, 1, KeyToken, token);
    var a2 := With(a1, KeyToken, ByteString(token));
    IntegerValueOk(lossy, port, 1);
    WithOk(lossy, a2, 1, KeyPort, Integer(port));
    var a3 := With(a2, KeyPort, Integer(port));
    IntegerValueOk(lossy, impliedPort, 1);
    WithOk(lossy, a3, 1, KeyImpliedPort, Integer(impliedPort));
  }

  /** Announced numbers of 64 bits are cut to 16 and 8. */
  lemma NumbersAreCut(lossy: Bytes -> Bytes, tid: Bytes, id: InfoHash, infoHash: InfoHash, token: Bytes, port: int,
          impliedPort: int)
    requires Utf8Lossy(lossy) && |tid| <= USIZE_MAX && |token| <= USIZE_MAX
    requires I64_MIN <= port <= I64_MAX && I64_MIN <= impliedPort <= I64_MAX
    ensures var d := QueryDict(tid, "announce_peer", AnnounceDict(id, infoHash, token, port, impliedPort));
      && DictOk(lossy, d, 2)
      && DeserializeDict(d)
         == Some(AnnouncePeerRequest(tid, id, infoHash, token, port % 65536, impliedPort % 256))
  {
    hide DictOk, Lookup, Utf8Lossy, QueryDict, AnnounceDict, IdIn;
    YsDiffer();
    MethodsDiffer();
    AnnounceOk(lossy, id, infoHash, token, port, impliedPort);
    QueryOk(lossy, tid, "announce_peer", AnnounceDict(id, infoHash, token, port, impliedPort), 1);
  }

  lemma AnnounceDecodes(lossy: Bytes -> Bytes, m: Message)
    requires Utf8Lossy(lossy) && Fits(m) && m.AnnouncePeerRequest?
    ensures Decodes(lossy, m)
  {
    hide DictOk, Utf8Lossy, QueryDict, AnnounceDict, DeserializeDict;
    NumbersAreCut(lossy, m.tid, m.id, m.infoHash, m.token, m.port, m.impliedPort);
  }

  lemma IntegerValueOk(lossy: Bytes -> Bytes, i: int, h: nat)
    requires I64_MIN <= i <= I64_MAX
    ensures ValueOk(lossy, Integer(i), h)
  {
  }

  lemma ErrorDecodes(lossy: Bytes -> Bytes, m: Message)
    requires Utf8Lossy(lossy) && Fits(m) && m.Error?
    ensures Decodes(lossy, m)
  {
    hide DictOk, ValueOk, With, Lookup, Utf8Lossy;
    YsDiffer();
    var e := [Integer(m.code), ByteString(m.message)];
    EmptyDict(lossy, 2);
    StringValueOk(lossy, m.tid, 2);
    StringValueOk(lossy, Ascii("e"), 2);
    IntegerValueOk(lossy, m.code, 0);
    StringValueOk(lossy, m.message, 0);
    FlatListOk(lossy, e);
    Looser(lossy, List(e), 1, 2);
    WithOk(lossy, [], 2, KeyT, ByteString(m.tid));
    var d1 := With([], KeyT, ByteString(m.tid));
    WithOk(lossy, d1, 2, KeyY, ByteString(Ascii("e")));
    WithOk(lossy, With(d1, KeyY, ByteString(Ascii("e"))), 2, KeyE, List(e));
  }

  lemma Looser(lossy: Bytes -> Bytes, v: Value, h1: nat, h2: nat)
    requires ValueOk(lossy, v, h1) && h1 <= h2
    ensures ValueOk(lossy, v, h2)
  {
  }

  /** Every message comes back as its norm. */
  lemma KrpcRoundTrip(lossy: Bytes -> Bytes, m: Message)
    requires Utf8Lossy(lossy) && Fits(m)
    ensures Deserialize(lossy, Serialize(m)) == Some(Norm(m))
  {
    hide MessageDict, DeserializeDict, Norm, Utf8Lossy, DictOk, Encode, WellFormed, Height;
    if m.PingResponse? || m.AnnouncePeerResponse? {
      PlainReplyDecodes(lossy, m);
    } else if m.FindNodeResponse? {
      NodesReplyDecodes(lossy, m);
    } else if m.GetPeersResponse? {
      PeersReplyDecodes(lossy, m);
    } else if m.AnnouncePeerRequest? {
      AnnounceDecodes(lossy, m);
    } else if m.Error? {
      ErrorDecodes(lossy, m);
    } else {
      QueryDecodes(lossy, m);
    }
    DictValueOk(lossy, MessageDict(m), 2);
    RoundTrip(lossy, Dict(MessageDict(m)), []);
    assert Serialize(m) + [] == Serialize(m);
  }

  predicate PlainAddr(addr: SocketAddr) {
    addr.V6? ==> addr.flow == 0 && addr.scope == 0
  }

  /** What a message must be to come back unchanged. */
  predicate IsNormal(m: Message) {
    && !m.AnnouncePeerResponse?
    && (m.FindNodeResponse? ==> m.nodes != [])
    && ((m.PingResponse? || m.FindNodeResponse? || m.GetPeersResponse?) && m.ip.Some? ==> PlainAddr(m.ip.value))
    && (m.GetPeersResponse? ==> forall i :: 0 <= i < |m.values| ==> PlainAddr(m.values[i]))
  }

  /** A message comes back unchanged exactly when it is normal. */
  lemma UnchangedIffNormal(lossy: Bytes -> Bytes, m: Message)
    requires Utf8Lossy(lossy) && Fits(m)
    ensures Deserialize(lossy, Serialize(m)) == Some(m) <==> IsNormal(m)
  {
    hide Deserialize, Serialize, Utf8Lossy;
    KrpcRoundTrip(lossy, m);
    if m.GetPeersResponse? {
      if IsNormal(m) {
        assert Norm(m).values == m.values;
      } else if Norm(m) == m {
        forall i | 0 <= i < |m.values| ensures PlainAddr(m.values[i]) {
          assert m.values[i] == Norm(m).values[i];
        }
      }
    }
  }

  /** IPv6 nodes found, or an announce accepted: both replies come back as an answered ping. */
  lemma RepliesComeBackAsPings(lossy: Bytes -> Bytes, tid: Bytes, id: InfoHash, nodes6: Bytes)
    requires Utf8Lossy(lossy) && |tid| <= USIZE_MAX && |nodes6| <= USIZE_MAX
    ensures var ping := Some(PingResponse(tid, id, None));
      && Deserialize(lossy, Serialize(FindNodeResponse(tid, id, [], nodes6, None))) == ping
      && Deserialize(lossy, Serialize(AnnouncePeerResponse(tid, id, None))) == ping
  {
    hide Deserialize, Serialize, Utf8Lossy;
    KrpcRoundTrip(lossy, FindNodeResponse(tid, id, [], nodes6, None));
    KrpcRoundTrip(lossy, AnnouncePeerResponse(tid, id, None));
  }

  // ----- node lists

  datatype Node = Node(id: InfoHash, addr: SocketAddr)

  const V4_NODE := 26
  const V6_NODE := 38

  function BuildCompactNodeInfo(n: Node): (b: Bytes)
    ensures |b| == if n.addr.V4? then V4_NODE else V6_NODE
  {
    n.id + BuildCompactPeerAddr(n.addr)
  }

  function ParseCompactNodeInfoV4(data: Bytes): Option<Node> {
    if |data| < V4_NODE then None else Some(Node(data[..20], V4(data[20..24], PortOf(data[24], data[25]))))
  }

  function ParseCompactNodeInfoV6(data: Bytes): Option<Node> {
    if |data| < V6_NODE then None else Some(Node(data[..20], V6(data[20..36], PortOf(data[36], data[37]), 0, 0)))
  }

  /** All nodes of one family laid end to end. */
  ghost function BuildAll(nodes: seq<Node>): Bytes {
    if nodes == [] then [] else BuildAll(nodes[..|nodes| - 1]) + BuildCompactNodeInfo(nodes[|nodes| - 1])
  }

  lemma NodeRebuilds(data: Bytes)
    ensures |data| >= V4_NODE ==> BuildCompactNodeInfo(ParseCompactNodeInfoV4(data).value) == data[..V4_NODE]
    ensures |data| >= V6_NODE ==> BuildCompactNodeInfo(ParseCompactNodeInfoV6(data).value) == data[..V6_NODE]
  {
    if |data| >= V4_NODE {
      var port := PortOf(data[24], data[25]);
      assert port / 256 == data[24] && port % 256 == data[25];
    }
    if |data| >= V6_NODE {
      var port := PortOf(data[36], data[37]);
      assert port / 256 == data[36] && port % 256 == data[37];
    }
  }

  /** The nodes are exactly those whose encodings, end to end, make up the data up to an
      incomplete rest. */
  method ParseCompactNodes(data: Bytes) returns (nodes: seq<Node>)
    ensures |nodes| == |data| / V4_NODE
    ensures forall i :: 0 <= i < |nodes| ==> nodes[i].addr.V4?
    ensures BuildAll(nodes) == data[..V4_NODE * |nodes|]
  {
    nodes := [];
    var offset := 0;
    while offset + V4_NODE <= |data|
      invariant offset == V4_NODE * |nodes| <= |data|
      invariant forall i :: 0 <= i < |nodes| ==> nodes[i].addr.V4?
      invariant BuildAll(nodes) == data[..offset]
    {
      NodeRebuilds(data[offset..]);
      BuildOneMore(nodes, ParseCompactNodeInfoV4(data[offset..]).value, data, offset);
      nodes := nodes + [ParseCompactNodeInfoV4(data[offset..]).value];
      offset := offset + V4_NODE;
    }
  }

  method ParseCompactNodesV6(data: Bytes) returns (nodes: seq<Node>)
    ensures |nodes| == |data| / V6_NODE
    ensures forall i :: 0 <= i < |nodes| ==> nodes[i].addr.V6? && PlainAddr(nodes[i].addr)
    ensures BuildAll(nodes) == data[..V6_NODE * |nodes|]
  {
    nodes := [];
    var offset := 0;
    while offset + V6_NODE <= |data|
      invariant offset == V6_NODE * |nodes| <= |data|
      invariant forall i :: 0 <= i < |nodes| ==> nodes[i].addr.V6? && PlainAddr(nodes[i].addr)
      invariant BuildAll(nodes) == data[..offset]
    {
      NodeRebuilds(data[offset..]);
      BuildOneMore(nodes, ParseCompactNodeInfoV6(data[offset..]).value, data, offset);
      nodes := nodes + [ParseCompactNodeInfoV6(data[offset..]).value];
      offset := offset + V6_NODE;
    }
  }

  lemma BuildOneMore(nodes: seq<Node>, n: Node, data: Bytes, offset: nat)
    requires offset <= |data| && BuildAll(nodes) == data[..offset]
    requires BuildCompactNodeInfo(n) <= data[offset..]
    ensures BuildAll(nodes + [n]) == data[..offset + |BuildCompactNodeInfo(n)|]
  {
    hide BuildCompactNodeInfo;
    assert (nodes + [n])[..|nodes|] == nodes;
  }

  ghost predicate OneFamily(nodes: seq<Node>, v4: bool) {
    forall i :: 0 <= i < |nodes| ==> nodes[i].addr.V4? == v4 && PlainAddr(nodes[i].addr)
  }

  /** Lists of one family with the same encoding are the same, so a list that was built is
      the list that is parsed. */
  lemma {:induction false} BuildAllInjective(a: seq<Node>, b: seq<Node>, v4: bool)
    requires OneFamily(a, v4) && OneFamily(b, v4) && BuildAll(a) == BuildAll(b)
    ensures a == b
    decreases |a|
  {
    hide BuildCompactNodeInfo;
    BuildAllLength(a, v4);
    BuildAllLength(b, v4);
    if a != [] {
      var n := |a| - 1;
      BuildAllLength(a[..n], v4);
      BuildAllLength(b[..n], v4);
      SplitEnd(BuildAll(a[..n]), BuildCompactNodeInfo(a[n]), BuildAll(b[..n]), BuildCompactNodeInfo(b[n]));
      BuildAllInjective(a[..n], b[..n], v4);
      NodeInjective(a[n], b[n]);
      assert a == a[..n] + [a[n]] && b == b[..n] + [b[n]];
    }
  }

  lemma SplitEnd(a1: Bytes, a2: Bytes, b1: Bytes, b2: Bytes)
    requires a1 + a2 == b1 + b2 && |a1| == |b1|
    ensures a1 == b1 && a2 == b2
  {
    assert a1 == (a1 + a2)[..|a1|] && b1 == (b1 + b2)[..|b1|];
    assert a2 == (a1 + a2)[|a1|..] && b2 == (b1 + b2)[|b1|..];
  }

  lemma {:induction false} BuildAllLength(nodes: seq<Node>, v4: bool)
    requires OneFamily(nodes, v4)
    ensures |BuildAll(nodes)| == |nodes| * if v4 then V4_NODE else V6_NODE
  {
    if nodes != [] {
      BuildAllLength(nodes[..|nodes| - 1], v4);
    }
  }

  lemma NodeInjective(a: Node, b: Node)
    requires BuildCompactNodeInfo(a) == BuildCompactNodeInfo(b)
    requires a.addr.V4? == b.addr.V4? && PlainAddr(a.addr) && PlainAddr(b.addr)
    ensures a == b
  {
    SplitEnd(a.id, BuildCompactPeerAddr(a.addr), b.id, BuildCompactPeerAddr(b.addr));
    CompactAddrRoundTrip(a.addr);
    CompactAddrRoundTrip(b.addr);
  }
}
