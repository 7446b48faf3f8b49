/** KRPC messages byte for byte (src/dht/protocol.rs; BEP 5, section "KRPC Protocol", and
    BEP 32 for the IPv6 fields): what each one looks like on the wire. */
module KrpcWire {
  import opened Bytes
  import opened Decimals
  import opened Bencode
  import opened BencodeBytes
  import opened InfoHashes
  import opened Addresses
  import opened Krpc

  // ----- the bytes

  ghost function AddrBytes(addr: SocketAddr): Bytes {
    match addr
    case V4(ip, port) => ip + [port / 256, port % 256]
    case V6(ip, port, _, _) => ip + [port / 256, port % 256]
  }

  ghost function QueryBytes(tid: Bytes, name: string, arguments: Bytes): Bytes {
    Ascii("d1:ad") + arguments + Ascii("e1:q") + Ascii(name) + Ascii("1:t") + Sized(tid) + Ascii("1:y1:qe")
  }

  ghost function ReplyBytes(tid: Bytes, result: Bytes, ip: Option<SocketAddr>): Bytes {
    Ascii("d") + IpBytes(ip) + Ascii("1:rd") + result + Ascii("e1:t") + Sized(tid) + Ascii("1:y1:re")
  }

  ghost function IpBytes(ip: Option<SocketAddr>): Bytes {
    match ip
    case None => []
    case Some(V4(_, _)) => Ascii("2:ip6:") + AddrBytes(ip.value)
    case Some(V6(_, _, _, _)) => Ascii("2:ip18:") + AddrBytes(ip.value)
  }

  ghost function IdBytes(id: InfoHash): Bytes {
    Ascii("2:id20:") + id
  }

  ghost function WantBytes(want: Want): Bytes {
    match want
    case WantV4 => Ascii("4:wantl2:n4e")
    case WantV6 => Ascii("4:wantl2:n6e")
    case WantBoth => Ascii("4:wantl2:n42:n6e")
    case WantNone => []
  }

  ghost function NodesBytes(nodes: Bytes, nodes6: Bytes): Bytes {
    (if nodes == [] then [] else Ascii("5:nodes") + Sized(nodes)) +
    if nodes6 == [] then [] else Ascii("6:nodes6") + Sized(nodes6)
  }

  ghost function ValuesBytes(values: seq<SocketAddr>): Bytes {
    if values == [] then [] else Ascii("6:valuesl") + PeersBytes(values) + Ascii("e")
  }

  ghost function PeersBytes(values: seq<SocketAddr>): Bytes {
    if values == [] then []
    else
      var n := |values| - 1;
      PeersBytes(values[..n]) + Ascii(if values[n].V4? then "6:" else "18:") + AddrBytes(values[n])
  }

  ghost function AnnounceBytes(id: InfoHash, infoHash: InfoHash, token: Bytes, port: int, impliedPort: int): Bytes {
    IdBytes(id) + Ascii("12:implied_porti") + PrintInt(impliedPort) + Ascii("e9:info_hash20:") + infoHash
    + Ascii("4:porti") + PrintInt(port) + Ascii("e5:token") + Sized(token)
  }

  /** The whole message, its keys in their order. */
  ghost function Wire(m: Message): Bytes {
    match m
    case PingRequest(tid, id) => QueryBytes(tid, "4:ping", IdBytes(id))
    case PingResponse(tid, id, ip) => ReplyBytes(tid, IdBytes(id), ip)
    case FindNodeRequest(tid, id, target, want) =>
      QueryBytes(tid, "9:find_node", IdBytes(id) + Ascii("6:target20:") + target + WantBytes(want))
    case FindNodeResponse(tid, id, nodes, nodes6, ip) =>
      ReplyBytes(tid, IdBytes(id) + NodesBytes(nodes, nodes6), ip)
    case GetPeersRequest(tid, id, infoHash, want) =>
      QueryBytes(tid, "9:get_peers", IdBytes(id) + Ascii("9:info_hash20:") + infoHash + WantBytes(want))
    case GetPeersResponse(tid, id, token, values, nodes, nodes6, ip) =>
      ReplyBytes(tid, IdBytes(id) + NodesBytes(nodes, nodes6) + Ascii("5:token") + Sized(token) + ValuesBytes(values),
                 ip)
    case AnnouncePeerRequest(tid, id, infoHash, token, port, impliedPort) =>
      QueryBytes(tid, "13:announce_peer", AnnounceBytes(id, infoHash, token, port, impliedPort))
    case AnnouncePeerResponse(tid, id, ip) => ReplyBytes(tid, IdBytes(id), ip)
    case Error(tid, code, message) =>
      Ascii("d1:eli") + PrintInt(code) + Ascii("e") + Sized(message) + Ascii("e1:t") + Sized(tid) + Ascii("1:y1:ee")
  }

  // ----- the order of the keys

  /** The place of a key in their order. */
  ghost function Rank(k: Key): nat {
    match k
    case KeyA => 0
    case KeyE => 1
    case KeyId => 2
    case KeyImpliedPort => 3
    case KeyInfoHash => 4
    case KeyIp => 5
    case KeyNodes => 6
    case KeyNodes6 => 7
    case KeyPort => 8
    case KeyQ => 9
    case KeyR => 10
    case KeyT => 11
    case KeyTarget => 12
    case KeyToken => 13
    case KeyValues => 14
    case KeyWant => 15
    case KeyY => 16
  }

  ghost function Next(k: Key): Key {
    match k
    case KeyA => KeyE
    case KeyE => KeyId
    case KeyId => KeyImpliedPort
    case KeyImpliedPort => KeyInfoHash
    case KeyInfoHash => KeyIp
    case KeyIp => KeyNodes
    case KeyNodes => KeyNodes6
    case KeyNodes6 => KeyPort
    case KeyPort => KeyQ
    case KeyQ => KeyR
    case KeyR => KeyT
    case KeyT => KeyTarget
    case KeyTarget => KeyToken
    case KeyToken => KeyValues
    case KeyValues => KeyWant
    case KeyWant => KeyY
    case KeyY => KeyY
  }

  lemma NextInOrderEarly(k: Key)
    requires Rank(k) < 6
    ensures KeyLess(Name(k), Name(Next(k)))
  {
    hide KeyLess;
    match k
    case KeyA => StringsInOrder("a", "e", 0);
    case KeyE => StringsInOrder("e", "id", 0);
    case KeyId => StringsInOrder("id", "implied_port", 1);
    case KeyImpliedPort => StringsInOrder("implied_port", "info_hash", 1);
    case KeyInfoHash => StringsInOrder("info_hash", "ip", 1);
    case KeyIp => StringsInOrder("ip", "nodes", 0);
  }

  lemma NextInOrderMiddle(k: Key)
    requires 6 <= Rank(k) < 11
    ensures KeyLess(Name(k), Name(Next(k)))
  {
    hide KeyLess;
    match k
    case KeyNodes => StringsInOrder("nodes", "nodes6", 5);
    case KeyNodes6 => StringsInOrder("nodes6", "port", 0);
    case KeyPort => StringsInOrder("port", "q", 0);
    case KeyQ => StringsInOrder("q", "r", 0);
    case KeyR => StringsInOrder("r", "t", 0);
  }

  lemma NextInOrderLate(k: Key)
    requires 11 <= Rank(k) < 16
    ensures KeyLess(Name(k), Name(Next(k)))
  {
    hide KeyLess;
    match k
    case KeyT => StringsInOrder("t", "target", 1);
    case KeyTarget => StringsInOrder("target", "token", 1);
    case KeyToken => StringsInOrder("token", "values", 0);
    case KeyValues => StringsInOrder("values", "want", 0);
    case KeyWant => StringsInOrder("want", "y", 0);
  }

  lemma NextInOrder(k: Key)
    requires Rank(k) < 16
    ensures KeyLess(Name(k), Name(Next(k)))
  {
    hide Rank, Next, Name, KeyLess;
    if Rank(k) < 6 {
      NextInOrderEarly(k);
    } else if Rank(k) < 11 {
      NextInOrderMiddle(k);
    } else {
      NextInOrderLate(k);
    }
  }

  lemma NextRank(k: Key, b: Key)
    ensures Rank(k) < Rank(b) ==> Rank(k) < 16 && Rank(Next(k)) <= Rank(b)
    ensures Rank(k) < 16 ==> Rank(Next(k)) == Rank(k) + 1
    ensures Rank(k) == Rank(b) ==> k == b
  {
  }

  lemma {:induction false} KeysInOrder(a: Key, b: Key)
    requires Rank(a) < Rank(b)
    ensures KeyLess(Name(a), Name(b))
    decreases Rank(b) - Rank(a)
  {
    hide Rank, Next, Name, KeyLess;
    NextRank(a, b);
    NextInOrder(a);
    NextRank(Next(a), b);
    if Rank(Next(a)) < Rank(b) {
      KeysInOrder(Next(a), b);
      KeyLessTransitive(Name(a), Name(Next(a)), Name(b));
    }
  }

  // ----- dictionaries laid out

  datatype Field = Field(key: Key, value: Value)

  ghost function Named(fields: seq<Field>): (r: seq<Entry>)
    ensures |r| == |fields|
  {
    seq(|fields|, i requires 0 <= i < |fields| => Entry(Name(fields[i].key), fields[i].value))
  }

  /** A key that belongs between two groups of fields is put there. */
  lemma Placed(before: seq<Field>, k: Key, v: Value, after: seq<Field>)
    requires forall i :: 0 <= i < |before| ==> Rank(before[i].key) < Rank(k)
    requires forall i :: 0 <= i < |after| ==> Rank(k) < Rank(after[i].key)
    ensures With(Named(before + after), k, v) == Named(before + [Field(k, v)] + after)
  {
    hide Name, Rank, KeyLess;
    forall i | 0 <= i < |before| ensures KeyLess(Named(before)[i].key, Name(k)) {
      KeysInOrder(before[i].key, k);
    }
    forall i | 0 <= i < |after| ensures KeyLess(Name(k), Named(after)[i].key) {
      KeysInOrder(k, after[i].key);
    }
    assert Named(before + after) == Named(before) + Named(after);
    InsertBetween(Named(before), Name(k), v, Named(after));
    assert Named(before + [Field(k, v)] + after) == Named(before) + [Entry(Name(k), v)] + Named(after);
  }

  lemma PlacedFirst(k: Key, v: Value, after: seq<Field>)
    requires forall i :: 0 <= i < |after| ==> Rank(k) < Rank(after[i].key)
    ensures With(Named(after), k, v) == Named([Field(k, v)] + after)
  {
    hide Name, Rank, With;
    assert [] + after == after && [] + [Field(k, v)] + after == [Field(k, v)] + after;
    Placed([], k, v, after);
  }

  lemma PlacedLast(before: seq<Field>, k: Key, v: Value)
    requires forall i :: 0 <= i < |before| ==> Rank(before[i].key) < Rank(k)
    ensures With(Named(before), k, v) == Named(before + [Field(k, v)])
  {
    hide Name, Rank, With;
    assert before + [] == before && before + [Field(k, v)] + [] == before + [Field(k, v)];
    Placed(before, k, v, []);
  }

  /** A key on the wire, its length in front. */
  ghost function Printed(k: Key): string {
    match k
    case KeyA => "1:a"
    case KeyE => "1:e"
    case KeyId => "2:id"
    case KeyImpliedPort => "12:implied_port"
    case KeyInfoHash => "9:info_hash"
    case KeyIp => "2:ip"
    case KeyNodes => "5:nodes"
    case KeyNodes6 => "6:nodes6"
    case KeyPort => "4:port"
    case KeyQ => "1:q"
    case KeyR => "1:r"
    case KeyT => "1:t"
    case KeyTarget => "6:target"
    case KeyToken => "5:token"
    case KeyValues => "6:values"
    case KeyWant => "4:want"
    case KeyY => "1:y"
  }

  lemma PrintedIs(k: Key)
    requires k != KeyImpliedPort
    ensures |Spelling(k)| < 10 && [(48 + |Spelling(k)|) as char] + ":" + Spelling(k) == Printed(k)
  {
    assert 49 as char == '1' && 50 as char == '2' && 52 as char == '4' && 53 as char == '5';
    assert 54 as char == '6' && 57 as char == '9';
  }

  lemma ImpliedPortPrinted()
    ensures EncodeString(Ascii("implied_port")) == Ascii("12:implied_port")
  {
    assert Print(12) == Ascii("12");
    assert Ascii("12") + [COLON] + Ascii("implied_port") == Ascii("12:implied_port");
  }

  lemma KeyPrinted(k: Key)
    ensures EncodeString(Name(k)) == Ascii(Printed(k))
  {
    if k == KeyImpliedPort {
      ImpliedPortPrinted();
    } else {
      hide Spelling, Printed;
      PrintedIs(k);
      ShortString(Spelling(k));
    }
  }

  ghost function FieldsBytes(fields: seq<Field>): Bytes {
    if fields == [] then [] else Ascii(Printed(fields[0].key)) + Encode(fields[0].value) + FieldsBytes(fields[1..])
  }

  lemma {:induction false} FieldsEncode(fields: seq<Field>)
    ensures EncodeEntries(Named(fields)) == FieldsBytes(fields)
  {
    hide Name, Printed, Encode, EncodeString;
    if fields != [] {
      KeyPrinted(fields[0].key);
      FieldsEncode(fields[1..]);
      assert Named(fields)[1..] == Named(fields[1..]);
    }
  }

  lemma SizedIs(s: Bytes)
    ensures Sized(s) == EncodeString(s)
    ensures |s| == 20 ==> Sized(s) == Ascii("20:") + s
    ensures |s| == 6 ==> Sized(s) == Ascii("6:") + s
    ensures |s| == 18 ==> Sized(s) == Ascii("18:") + s
  {
    assert Ascii(":") == [COLON];
    assert Print(20) == Ascii("20") && Print(18) == Ascii("18") && Print(6) == Ascii("6");
    AsciiJoins("20", ":");
    AsciiJoins("18", ":");
    AsciiJoins("6", ":");
    assert "20" + ":" == "20:" && "18" + ":" == "18:" && "6" + ":" == "6:";
  }

  ghost function OneField(f: Field): Bytes {
    Ascii(Printed(f.key)) + Encode(f.value)
  }

  lemma TwoFields(a: Field, b: Field)
    ensures FieldsBytes([a, b]) == OneField(a) + OneField(b)
  {
    hide Printed, Encode;
    assert [a, b][1..] == [b] && [b][1..] == [];
    assert FieldsBytes([b]) == OneField(b) + FieldsBytes([]);
  }

  lemma ThreeFields(a: Field, b: Field, c: Field)
    ensures FieldsBytes([a, b, c]) == OneField(a) + OneField(b) + OneField(c)
  {
    hide Printed, Encode;
    TwoFields(b, c);
    assert [a, b, c][1..] == [b, c];
  }

  lemma FourFields(a: Field, b: Field, c: Field, d: Field)
    ensures FieldsBytes([a, b, c, d]) == OneField(a) + OneField(b) + OneField(c) + OneField(d)
  {
    hide Printed, Encode;
    ThreeFields(b, c, d);
    assert [a, b, c, d][1..] == [b, c, d];
  }

  // ----- the outer dictionaries

  ghost function Text(s: string): Value {
    ByteString(Ascii(s))
  }

  lemma TagLaid(tid: Bytes)
    ensures With([], KeyT, ByteString(tid)) == Named([Field(KeyT, ByteString(tid))])
  {
    assert Named([]) == [];
  }

  lemma QueryLaid(tid: Bytes, name: string, a: seq<Entry>)
    ensures QueryDict(tid, name, a)
      == Named([Field(KeyA, Dict(a)), Field(KeyQ, Text(name)), Field(KeyT, ByteString(tid)), Field(KeyY, Text("q"))])
  {
    hide With, Name;
    var fa, fq, ft, fy := Field(KeyA, Dict(a)), Field(KeyQ, Text(name)), Field(KeyT, ByteString(tid)),
                          Field(KeyY, Text("q"));
    TagLaid(tid);
    PlacedLast([ft], KeyY, Text("q"));
    assert [ft] + [fy] == [ft, fy];
    PlacedFirst(KeyQ, Text(name), [ft, fy]);
    assert [fq] + [ft, fy] == [fq, ft, fy];
    PlacedFirst(KeyA, Dict(a), [fq, ft, fy]);
    assert [fa] + [fq, ft, fy] == [fa, fq, ft, fy];
  }

  lemma ReplyLaid(tid: Bytes, r: seq<Entry>, ip: Option<SocketAddr>)
    ensures ip.None? ==>
      ReplyDict(tid, r, ip) ==
      Named([Field(KeyR, Dict(r)), Field(KeyT, ByteString(tid)), Field(KeyY, Text("r"))])
    ensures ip.Some? ==>
      ReplyDict(tid, r, ip) ==
      Named([Field(KeyIp, ByteString(BuildCompactPeerAddr(ip.value))), Field(KeyR, Dict(r)),
             Field(KeyT, ByteString(tid)), Field(KeyY, Text("r"))])
  {
    hide With, Name, BuildCompactPeerAddr;
    var fr, ft, fy := Field(KeyR, Dict(r)), Field(KeyT, ByteString(tid)), Field(KeyY, Text("r"));
    TagLaid(tid);
    PlacedLast([ft], KeyY, Text("r"));
    assert [ft] + [fy] == [ft, fy];
    PlacedFirst(KeyR, Dict(r), [ft, fy]);
    assert [fr] + [ft, fy] == [fr, ft, fy];
    if ip.Some? {
      var v := ByteString(BuildCompactPeerAddr(ip.value));
      PlacedFirst(KeyIp, v, [fr, ft, fy]);
      assert [Field(KeyIp, v)] + [fr, ft, fy] == [Field(KeyIp, v), fr, ft, fy];
    }
  }

  lemma ErrorLaid(tid: Bytes, e: seq<Value>)
    ensures ErrorDict(tid, e) == Named([Field(KeyE, List(e)), Field(KeyT, ByteString(tid)), Field(KeyY, Text("e"))])
  {
    hide With, Name;
    var fe, ft, fy := Field(KeyE, List(e)), Field(KeyT, ByteString(tid)), Field(KeyY, Text("e"));
    TagLaid(tid);
    PlacedLast([ft], KeyY, Text("e"));
    assert [ft] + [fy] == [ft, fy];
    PlacedFirst(KeyE, List(e), [ft, fy]);
    assert [fe] + [ft, fy] == [fe, ft, fy];
  }

  /** Where the fixed parts of a query meet. */
  lemma QueryParts(name: Bytes, tid: Bytes, arguments: Bytes)
    ensures [B_D] + (Ascii("1:a") + ([B_D] + arguments + [B_E]) + (Ascii("1:q") + name) + (Ascii("1:t") + tid)
                     + (Ascii("1:y") + Ascii("1:q"))) + [B_E]
      == Ascii("d1:ad") + arguments + Ascii("e1:q") + name + Ascii("1:t") + tid + Ascii("1:y1:qe")
  {
    QueryLiterals();
    hide Ascii;
    assert [B_D] + (Ascii("1:a") + ([B_D] + arguments + [B_E]) + (Ascii("1:q") + name))
      == Ascii("d1:ad") + arguments + Ascii("e1:q") + name;
  }

  lemma QueryLiterals()
    ensures Ascii("d1:ad") == [B_D] + Ascii("1:a") + [B_D] && Ascii("e1:q") == [B_E] + Ascii("1:q")
    ensures Ascii("1:y1:qe") == Ascii("1:y") + Ascii("1:q") + [B_E]
  {
  }

  lemma QueryEncodes(tid: Bytes, name: string, sizedName: string, fields: seq<Field>)
    requires EncodeString(Ascii(name)) == Ascii(sizedName)
    ensures Encode(Dict(QueryDict(tid, name, Named(fields)))) == QueryBytes(tid, sizedName, FieldsBytes(fields))
  {
    hide Ascii, FieldsBytes, Named, EncodeString, Sized, QueryDict;
    var a := Named(fields);
    var fa, fq, ft, fy := Field(KeyA, Dict(a)), Field(KeyQ, Text(name)), Field(KeyT, ByteString(tid)),
                          Field(KeyY, Text("q"));
    QueryLaid(tid, name, a);
    FieldsEncode([fa, fq, ft, fy]);
    FourFields(fa, fq, ft, fy);
    FieldsEncode(fields);
    SizedIs(tid);
    LettersPrinted();
    QueryParts(Ascii(sizedName), Sized(tid), FieldsBytes(fields));
  }

  lemma LettersPrinted()
    ensures EncodeString(Ascii("q")) == Ascii("1:q") && EncodeString(Ascii("r")) == Ascii("1:r")
    ensures EncodeString(Ascii("e")) == Ascii("1:e")
  {
    ShortString("q");
    ShortString("r");
    ShortString("e");
    assert [49 as char] + ":" + "q" == "1:q" && [49 as char] + ":" + "r" == "1:r" && [49 as char] + ":" + "e" == "1:e";
  }

  lemma ReplyParts(ip: Bytes, tid: Bytes, result: Bytes)
    ensures [B_D] + (ip + (Ascii("1:r") + ([B_D] + result + [B_E])) + (Ascii("1:t") + tid)
                     + (Ascii("1:y") + Ascii("1:r"))) + [B_E]
      == Ascii("d") + ip + Ascii("1:rd") + result + Ascii("e1:t") + tid + Ascii("1:y1:re")
  {
    assert Ascii("d") == [B_D];
    assert Ascii("1:rd") == Ascii("1:r") + [B_D];
    assert Ascii("e1:t") == [B_E] + Ascii("1:t");
    assert Ascii("1:y1:re") == Ascii("1:y") + Ascii("1:r") + [B_E];
  }

  lemma IpLiterals()
    ensures Ascii("2:ip6:") == Ascii("2:ip") + Ascii("6:") && Ascii("2:ip18:") == Ascii("2:ip") + Ascii("18:")
  {
    AsciiJoins("2:ip", "6:");
    AsciiJoins("2:ip", "18:");
    assert "2:ip" + "6:" == "2:ip6:" && "2:ip" + "18:" == "2:ip18:";
  }

  lemma CompactIs(addr: SocketAddr)
    ensures BuildCompactPeerAddr(addr) == AddrBytes(addr)
  {
  }

  lemma IpPrinted(addr: SocketAddr)
    ensures Ascii("2:ip") + EncodeString(BuildCompactPeerAddr(addr)) == IpBytes(Some(addr))
    ensures EncodeString(BuildCompactPeerAddr(addr)) == Ascii(if addr.V4? then "6:" else "18:") + AddrBytes(addr)
  {
    hide Ascii, AddrBytes, EncodeString;
    SizedIs(BuildCompactPeerAddr(addr));
    CompactIs(addr);
    IpLiterals();
    hide BuildCompactPeerAddr, Sized;
    if addr.V4? {
      assert Ascii("2:ip") + (Ascii("6:") + AddrBytes(addr)) == Ascii("2:ip6:") + AddrBytes(addr);
    } else {
      assert Ascii("2:ip") + (Ascii("18:") + AddrBytes(addr)) == Ascii("2:ip18:") + AddrBytes(addr);
    }
  }

  lemma ReplyEncodes(tid: Bytes, fields: seq<Field>, ip: Option<SocketAddr>)
    ensures Encode(Dict(ReplyDict(tid, Named(fields), ip))) == ReplyBytes(tid, FieldsBytes(fields), ip)
  {
    hide FieldsBytes, Named, Encode, ReplyDict, IpBytes, AddrBytes, BuildCompactPeerAddr;
    var r := Named(fields);
    var fr, ft, fy := Field(KeyR, Dict(r)), Field(KeyT, ByteString(tid)), Field(KeyY, Text("r"));
    ReplyLaid(tid, r, ip);
    ReplyFieldsEncode(tid, fields);
    if ip.Some? {
      var fip := Field(KeyIp, ByteString(BuildCompactPeerAddr(ip.value)));
      IpFieldEncodes(ip.value);
      FourFields(fip, fr, ft, fy);
      ReplyCloses([fip, fr, ft, fy], IpBytes(ip), tid, FieldsBytes(fields));
    } else {
      ThreeFields(fr, ft, fy);
      NoIp();
      ReplyCloses([fr, ft, fy], IpBytes(ip), tid, FieldsBytes(fields));
    }
  }

  lemma NoIp()
    ensures IpBytes(None) == []
  {
  }

  lemma IpFieldEncodes(addr: SocketAddr)
    ensures OneField(Field(KeyIp, ByteString(BuildCompactPeerAddr(addr)))) == IpBytes(Some(addr))
  {
    hide Ascii, EncodeString, AddrBytes, BuildCompactPeerAddr;
    IpPrinted(addr);
  }

  lemma ReplyFieldsEncode(tid: Bytes, fields: seq<Field>)
    ensures OneField(Field(KeyR, Dict(Named(fields)))) == Ascii("1:r") + ([B_D] + FieldsBytes(fields) + [B_E])
    ensures OneField(Field(KeyT, ByteString(tid))) == Ascii("1:t") + Sized(tid)
    ensures OneField(Field(KeyY, Text("r"))) == Ascii("1:y") + Ascii("1:r")
  {
    hide Ascii, FieldsBytes, Named, EncodeString, Sized;
    FieldsEncode(fields);
    SizedIs(tid);
    LettersPrinted();
  }

  lemma ReplyCloses(fs: seq<Field>, ip: Bytes, tid: Bytes, result: Bytes)
    requires FieldsBytes(fs) == ip + (Ascii("1:r") + ([B_D] + result + [B_E])) + (Ascii("1:t") + Sized(tid))
                                + (Ascii("1:y") + Ascii("1:r"))
    ensures Encode(Dict(Named(fs)))
      == Ascii("d") + ip + Ascii("1:rd") + result + Ascii("e1:t") + Sized(tid) + Ascii("1:y1:re")
  {
    hide Ascii, FieldsBytes, Named, Sized;
    FieldsEncode(fs);
    ReplyParts(ip, Sized(tid), result);
  }

  lemma ErrorLiterals()
    ensures Ascii("d1:eli") == [B_D] + Ascii("1:e") + [B_L] + [B_I] && Ascii("e") == [B_E]
    ensures Ascii("e1:t") == [B_E] + Ascii("1:t") && Ascii("1:y1:ee") == Ascii("1:y") + Ascii("1:e") + [B_E]
  {
  }

  lemma ErrorParts(code: Bytes, message: Bytes, tid: Bytes)
    ensures [B_D] + ((Ascii("1:e") + ([B_L] + ([B_I] + code + [B_E] + message) + [B_E])) + (Ascii("1:t") + tid)
                     + (Ascii("1:y") + Ascii("1:e"))) + [B_E]
      == Ascii("d1:eli") + code + Ascii("e") + message + Ascii("e1:t") + tid + Ascii("1:y1:ee")
  {
    hide Ascii;
    ErrorLiterals();
    var e := Ascii("1:e");
    assert [B_L] + ([B_I] + code + [B_E] + message) == [B_L] + [B_I] + code + [B_E] + message;
    assert [B_D] + (e + ([B_L] + [B_I] + code + [B_E] + message)) == Ascii("d1:eli") + code + [B_E] + message;
  }

  lemma ErrorEncodes(tid: Bytes, code: int, message: Bytes)
    ensures Encode(Dict(ErrorDict(tid, [Integer(code), ByteString(message)])))
      == Ascii("d1:eli") + PrintInt(code) + Ascii("e") + Sized(message) + Ascii("e1:t") + Sized(tid) + Ascii("1:y1:ee")
  {
    hide Ascii, FieldsBytes, Named, EncodeString, Sized, ErrorDict, PrintInt;
    var e := [Integer(code), ByteString(message)];
    var fe, ft, fy := Field(KeyE, List(e)), Field(KeyT, ByteString(tid)), Field(KeyY, Text("e"));
    ErrorLaid(tid, e);
    FieldsEncode([fe, ft, fy]);
    ThreeFields(fe, ft, fy);
    TwoItems(Integer(code), ByteString(message));
    SizedIs(tid);
    SizedIs(message);
    LettersPrinted();
    ErrorParts(PrintInt(code), Sized(message), Sized(tid));
  }

  // ----- the inner dictionaries

  lemma {:induction false} FieldsJoin(a: seq<Field>, b: seq<Field>)
    ensures FieldsBytes(a + b) == FieldsBytes(a) + FieldsBytes(b)
  {
    hide Ascii, Printed, Encode;
    if a == [] {
      assert a + b == b;
    } else {
      assert (a + b)[1..] == a[1..] + b;
      FieldsJoin(a[1..], b);
    }
  }

  lemma SingleField(f: Field)
    ensures FieldsBytes([f]) == OneField(f) && FieldsBytes([]) == []
  {
    hide Ascii, Printed, Encode;
    assert [f][1..] == [];
  }

  /** The field is left out if there is nothing to say. */
  ghost function IfAny(k: Key, data: Bytes): seq<Field> {
    if data == [] then [] else [Field(k, ByteString(data))]
  }

  ghost function IdField(id: InfoHash): Field {
    Field(KeyId, ByteString(id))
  }

  lemma IdLaid(id: InfoHash)
    ensures IdDict(id) == Named([IdField(id)])
  {
    assert Named([]) == [];
  }

  lemma WantFieldPrinted(want: Want)
    requires want != WantNone
    ensures OneField(Field(KeyWant, WantList(want))) == WantBytes(want)
  {
    NamesOfFamilies();
    var v4, v6 := Text("n4"), Text("n6");
    hide EncodeString;
    TwoItems(v4, v6);
    SingleItem(v4);
    SingleItem(v6);
    match want
    case WantV4 => assert Ascii("4:wantl2:n4e") == Ascii("4:want") + ([B_L] + Ascii("2:n4") + [B_E]);
    case WantV6 => assert Ascii("4:wantl2:n6e") == Ascii("4:want") + ([B_L] + Ascii("2:n6") + [B_E]);
    case WantBoth =>
      assert Ascii("4:wantl2:n42:n6e") == Ascii("4:want") + ([B_L] + (Ascii("2:n4") + Ascii("2:n6")) + [B_E]);
  }

  lemma NamesOfFamilies()
    ensures EncodeString(Ascii("n4")) == Ascii("2:n4") && EncodeString(Ascii("n6")) == Ascii("2:n6")
  {
    ShortString("n4");
    ShortString("n6");
    assert [50 as char] + ":" + "n4" == "2:n4" && [50 as char] + ":" + "n6" == "2:n6";
  }

  lemma HashFieldsPrinted(id: InfoHash)
    ensures OneField(IdField(id)) == IdBytes(id)
    ensures OneField(Field(KeyTarget, ByteString(id))) == Ascii("6:target20:") + id
    ensures OneField(Field(KeyInfoHash, ByteString(id))) == Ascii("9:info_hash20:") + id
  {
    SizedIs(id);
    assert Ascii("2:id") + Ascii("20:") == Ascii("2:id20:");
    assert Ascii("6:target") + Ascii("20:") == Ascii("6:target20:");
    assert Ascii("9:info_hash") + Ascii("20:") == Ascii("9:info_hash20:");
    hide Ascii, EncodeString;
  }

  lemma StringFieldPrinted(k: Key, data: Bytes)
    ensures OneField(Field(k, ByteString(data))) == Ascii(Printed(k)) + Sized(data)
  {
    SizedIs(data);
  }

  /** A query about one hash, asking for nodes of some families. */
  lemma HashQueryLaid(id: InfoHash, k: Key, hash: InfoHash, want: Want)
    requires k == KeyTarget || k == KeyInfoHash
    ensures WithWant(With(IdDict(id), k, ByteString(hash)), want)
      == Named([IdField(id), Field(k, ByteString(hash))]
               + if want == WantNone then [] else [Field(KeyWant, WantList(want))])
  {
    hide With, IdDict, Name;
    IdLaid(id);
    var fields := [IdField(id), Field(k, ByteString(hash))];
    PlacedLast([IdField(id)], k, ByteString(hash));
    assert [IdField(id)] + [Field(k, ByteString(hash))] == fields && fields + [] == fields;
    PlacedLast(fields, KeyWant, WantList(want));
  }

  lemma HashQueryPrinted(id: InfoHash, k: Key, hash: InfoHash, want: Want)
    ensures FieldsBytes([IdField(id), Field(k, ByteString(hash))]
                        + if want == WantNone then [] else [Field(KeyWant, WantList(want))])
      == IdBytes(id) + OneField(Field(k, ByteString(hash))) + WantBytes(want)
  {
    hide FieldsBytes, OneField, IdBytes, Ascii, WantList;
    var fields := [IdField(id), Field(k, ByteString(hash))];
    var asked := if want == WantNone then [] else [Field(KeyWant, WantList(want))];
    FieldsJoin(fields, asked);
    TwoFields(IdField(id), Field(k, ByteString(hash)));
    HashFieldsPrinted(id);
    SingleField(Field(KeyWant, WantList(want)));
    if want != WantNone {
      WantFieldPrinted(want);
    }
  }

  ghost function AnnounceFields(id: InfoHash, infoHash: InfoHash, token: Bytes, port: int, implied: int): seq<Field> {
    [IdField(id), Field(KeyImpliedPort, Integer(implied)), Field(KeyInfoHash, ByteString(infoHash)),
     Field(KeyPort, Integer(port)), Field(KeyToken, ByteString(token))]
  }

  lemma AnnounceLaid(id: InfoHash, infoHash: InfoHash, token: Bytes, port: int, implied: int)
    ensures AnnounceDict(id, infoHash, token, port, implied)
      == Named(AnnounceFields(id, infoHash, token, port, implied))
  {
    hide With, IdDict, Name;
    var fid, fh, ft := IdField(id), Field(KeyInfoHash, ByteString(infoHash)), Field(KeyToken, ByteString(token));
    var fp, fi := Field(KeyPort, Integer(port)), Field(KeyImpliedPort, Integer(implied));
    IdLaid(id);
    PlacedLast([fid], KeyInfoHash, fh.value);
    assert [fid] + [fh] == [fid, fh];
    PlacedLast([fid, fh], KeyToken, ft.value);
    assert [fid, fh] + [ft] == [fid, fh, ft];
    Placed([fid, fh], KeyPort, fp.value, [ft]);
    assert [fid, fh] + [fp] + [ft] == [fid, fh, fp, ft] == [fid] + [fh, fp, ft];
    Placed([fid], KeyImpliedPort, fi.value, [fh, fp, ft]);
    assert [fid] + [fi] + [fh, fp, ft] == [fid, fi, fh, fp, ft];
  }

  lemma IntegerFieldsPrinted(i: int)
    ensures OneField(Field(KeyPort, Integer(i))) == Ascii("4:porti") + PrintInt(i) + Ascii("e")
    ensures OneField(Field(KeyImpliedPort, Integer(i))) == Ascii("12:implied_porti") + PrintInt(i) + Ascii("e")
  {
    assert Ascii("4:porti") == Ascii("4:port") + [B_I] && Ascii("e") == [B_E];
    assert Ascii("12:implied_porti") == Ascii("12:implied_port") + [B_I];
    hide Ascii, PrintInt;
  }

  lemma AnnounceParts(id: Bytes, implied: Bytes, infoHash: Bytes, port: Bytes, token: Bytes)
    ensures id + (Ascii("12:implied_porti") + implied + Ascii("e"))
            + (Ascii("9:info_hash20:") + infoHash + (Ascii("4:porti") + port + Ascii("e")) + (Ascii("5:token") + token))
      == id + Ascii("12:implied_porti") + implied + Ascii("e9:info_hash20:") + infoHash
         + Ascii("4:porti") + port + Ascii("e5:token") + token
  {
    AnnounceLiterals();
    hide Ascii;
    var first := id + Ascii("12:implied_porti") + implied;
    var second := infoHash + Ascii("4:porti") + port;
    assert id + (Ascii("12:implied_porti") + implied + Ascii("e")) == first + Ascii("e");
    assert first + Ascii("e") + Ascii("9:info_hash20:") == first + Ascii("e9:info_hash20:");
    assert second + Ascii("e") + (Ascii("5:token") + token) == second + Ascii("e5:token") + token;
  }

  lemma AnnounceLiterals()
    ensures Ascii("e9:info_hash20:") == Ascii("e") + Ascii("9:info_hash20:")
    ensures Ascii("e5:token") == Ascii("e") + Ascii("5:token")
  {
  }

  lemma AnnouncePrinted(id: InfoHash, infoHash: InfoHash, token: Bytes, port: int, implied: int)
    ensures FieldsBytes(AnnounceFields(id, infoHash, token, port, implied))
      == IdBytes(id) + Ascii("12:implied_porti") + PrintInt(implied) + Ascii("e9:info_hash20:") + infoHash
         + Ascii("4:porti") + PrintInt(port) + Ascii("e5:token") + Sized(token)
  {
    hide Ascii, FieldsBytes, OneField, IdBytes, PrintInt, Sized;
    var fid, fh, ft := IdField(id), Field(KeyInfoHash, ByteString(infoHash)), Field(KeyToken, ByteString(token));
    var fp, fi := Field(KeyPort, Integer(port)), Field(KeyImpliedPort, Integer(implied));
    assert AnnounceFields(id, infoHash, token, port, implied) == [fid, fi] + [fh, fp, ft];
    FieldsJoin([fid, fi], [fh, fp, ft]);
    TwoFields(fid, fi);
    ThreeFields(fh, fp, ft);
    HashFieldsPrinted(id);
    HashFieldsPrinted(infoHash);
    IntegerFieldsPrinted(port);
    IntegerFieldsPrinted(implied);
    StringFieldPrinted(KeyToken, token);
    AnnounceParts(IdBytes(id), PrintInt(implied), infoHash, PrintInt(port), Sized(token));
  }

  lemma NodesLaid(m: Message)
    requires m.FindNodeResponse?
    ensures NodesDict(m) == Named([IdField(m.id)] + IfAny(KeyNodes, m.nodes) + IfAny(KeyNodes6, m.nodes6))
  {
    hide With, IdDict, Name;
    var fid := [IdField(m.id)];
    IdLaid(m.id);
    PlacedLast(fid, KeyNodes, ByteString(m.nodes));
    assert fid + [] == fid;
    var more := fid + IfAny(KeyNodes, m.nodes);
    assert more + [] == more;
    PlacedLast(more, KeyNodes6, ByteString(m.nodes6));
  }

  lemma NodesPrinted(id: InfoHash, nodes: Bytes, nodes6: Bytes)
    ensures FieldsBytes([IdField(id)] + IfAny(KeyNodes, nodes) + IfAny(KeyNodes6, nodes6))
      == IdBytes(id) + NodesBytes(nodes, nodes6)
  {
    hide Ascii, FieldsBytes, OneField, IdBytes, Sized;
    FieldsJoin([IdField(id)] + IfAny(KeyNodes, nodes), IfAny(KeyNodes6, nodes6));
    FieldsJoin([IdField(id)], IfAny(KeyNodes, nodes));
    SingleField(IdField(id));
    HashFieldsPrinted(id);
    SingleField(Field(KeyNodes, ByteString(nodes)));
    SingleField(Field(KeyNodes6, ByteString(nodes6)));
    StringFieldPrinted(KeyNodes, nodes);
    StringFieldPrinted(KeyNodes6, nodes6);
  }

  ghost function TokenFields(token: Bytes, values: seq<SocketAddr>): seq<Field> {
    [Field(KeyToken, ByteString(token))] + if values == [] then [] else [Field(KeyValues, AddrList(values))]
  }

  lemma PeersLaid(m: Message)
    requires m.GetPeersResponse?
    ensures PeersDict(m) == Named([IdField(m.id)] + IfAny(KeyNodes, m.nodes) + IfAny(KeyNodes6, m.nodes6)
                                  + TokenFields(m.token, m.values))
  {
    hide With, IdDict, Name, AddrList;
    var fid, ft := [IdField(m.id)], Field(KeyToken, ByteString(m.token));
    var after := TokenFields(m.token, m.values);
    IdLaid(m.id);
    PlacedLast(fid, KeyToken, ft.value);
    PlacedLast(fid + [ft], KeyValues, AddrList(m.values));
    assert fid + [ft] + [Field(KeyValues, AddrList(m.values))] == fid + ([ft] + [Field(KeyValues, AddrList(m.values))]);
    assert [ft] + [] == [ft] && fid + [] == fid;
    Placed(fid, KeyNodes, ByteString(m.nodes), after);
    var more := fid + IfAny(KeyNodes, m.nodes);
    assert more + [] == more;
    Placed(more, KeyNodes6, ByteString(m.nodes6), after);
  }

  lemma {:induction false} AddrsPrinted(values: seq<SocketAddr>)
    ensures EncodeItems(AddrList(values).items) == PeersBytes(values)
  {
    hide Ascii, AddrBytes, BuildCompactPeerAddr, Encode;
    if values != [] {
      var n := |values| - 1;
      var last := ByteString(BuildCompactPeerAddr(values[n]));
      AddrsPrinted(values[..n]);
      assert AddrList(values).items == AddrList(values[..n]).items + [last];
      ItemsJoin(AddrList(values[..n]).items, [last]);
      SingleItem(last);
      AddrPrinted(values[n]);
    }
  }

  lemma AddrPrinted(addr: SocketAddr)
    ensures Encode(ByteString(BuildCompactPeerAddr(addr))) == Ascii(if addr.V4? then "6:" else "18:") + AddrBytes(addr)
  {
    hide Ascii, AddrBytes, BuildCompactPeerAddr, EncodeString;
    IpPrinted(addr);
  }

  lemma ListFieldPrinted(items: seq<Value>)
    ensures OneField(Field(KeyValues, List(items))) == Ascii("6:valuesl") + EncodeItems(items) + Ascii("e")
  {
    hide Ascii, EncodeItems, Encode;
    GrammarIs(0, [], items, []);
    AsciiJoins("6:values", "l");
    assert "6:values" + "l" == "6:valuesl";
    var printed := EncodeItems(items);
    assert Ascii("6:values") + (Ascii("l") + printed + Ascii("e"))
      == Ascii("6:values") + Ascii("l") + printed + Ascii("e");
  }

  lemma ValuesPrinted(values: seq<SocketAddr>)
    ensures OneField(Field(KeyValues, AddrList(values))) == Ascii("6:valuesl") + PeersBytes(values) + Ascii("e")
  {
    var items := AddrList(values).items;
    assert AddrList(values) == List(items);
    hide *;
    ListFieldPrinted(items);
    AddrsPrinted(values);
  }

  lemma TokenPrinted(token: Bytes, values: seq<SocketAddr>)
    ensures FieldsBytes(TokenFields(token, values)) == Ascii("5:token") + Sized(token) + ValuesBytes(values)
  {
    hide Ascii, FieldsBytes, OneField, Sized, PeersBytes, AddrList;
    var ft, fv := Field(KeyToken, ByteString(token)), Field(KeyValues, AddrList(values));
    StringFieldPrinted(KeyToken, token);
    if values == [] {
      assert [ft] + [] == [ft];
      SingleField(ft);
    } else {
      assert [ft] + [fv] == [ft, fv];
      TwoFields(ft, fv);
      ValuesPrinted(values);
    }
  }

  // ----- whole messages

  lemma QueriesAreWire(m: Message)
    requires m.PingRequest? || m.FindNodeRequest? || m.GetPeersRequest? || m.AnnouncePeerRequest?
    ensures Serialize(m) == Wire(m)
  {
    hide Wire, Serialize;
    match m
    case PingRequest(_, _) => PingIsWire(m);
    case FindNodeRequest(_, _, _, _) => FindNodeIsWire(m);
    case GetPeersRequest(_, _, _, _) => GetPeersIsWire(m);
    case AnnouncePeerRequest(_, _, _, _, _, _) => AnnounceIsWire(m);
  }

  lemma PingIsWire(m: Message)
    requires m.PingRequest?
    ensures Serialize(m) == Wire(m)
  {
    hide Ascii, FieldsBytes, Named, OneField, IdBytes, WantBytes, Encode, EncodeString, QueryDict, IdDict, WithWant;
    hide With, Sized, AnnounceDict, AnnounceFields, IdField, QueryBytes;
    NamesOfMethods();
    IdLaid(m.id);
    SingleField(IdField(m.id));
    HashFieldsPrinted(m.id);
    QueryEncodes(m.tid, "ping", "4:ping", [IdField(m.id)]);
  }

  lemma FindNodeIsWire(m: Message)
    requires m.FindNodeRequest?
    ensures Serialize(m) == Wire(m)
  {
    hide Ascii, FieldsBytes, Named, OneField, IdBytes, WantBytes, Encode, EncodeString, QueryDict, IdDict, WithWant;
    hide With, Sized, AnnounceDict, AnnounceFields, IdField, QueryBytes;
    NamesOfMethods();
    HashQueryLaid(m.id, KeyTarget, m.target, m.want);
    HashQueryPrinted(m.id, KeyTarget, m.target, m.want);
    HashFieldsPrinted(m.target);
    QueryEncodes(m.tid, "find_node", "9:find_node",
                 [IdField(m.id), Field(KeyTarget, ByteString(m.target))]
                 + if m.want == WantNone then [] else [Field(KeyWant, WantList(m.want))]);
    assert IdBytes(m.id) + (Ascii("6:target20:") + m.target) == IdBytes(m.id) + Ascii("6:target20:") + m.target;
  }

  lemma GetPeersIsWire(m: Message)
    requires m.GetPeersRequest?
    ensures Serialize(m) == Wire(m)
  {
    hide Ascii, FieldsBytes, Named, OneField, IdBytes, WantBytes, Encode, EncodeString, QueryDict, IdDict, WithWant;
    hide With, Sized, AnnounceDict, AnnounceFields, IdField, QueryBytes;
    NamesOfMethods();
    HashQueryLaid(m.id, KeyInfoHash, m.infoHash, m.want);
    HashQueryPrinted(m.id, KeyInfoHash, m.infoHash, m.want);
    HashFieldsPrinted(m.infoHash);
    QueryEncodes(m.tid, "get_peers", "9:get_peers",
                 [IdField(m.id), Field(KeyInfoHash, ByteString(m.infoHash))]
                 + if m.want == WantNone then [] else [Field(KeyWant, WantList(m.want))]);
    assert IdBytes(m.id) + (Ascii("9:info_hash20:") + m.infoHash)
      == IdBytes(m.id) + Ascii("9:info_hash20:") + m.infoHash;
  }

  lemma AnnounceIsWire(m: Message)
    requires m.AnnouncePeerRequest?
    ensures Serialize(m) == Wire(m)
  {
    hide Encode, QueryDict, QueryBytes, AnnounceBytes, AnnounceDict;
    AnyAnnounceIsWire(m.tid, m.id, m.infoHash, m.token, m.port, m.impliedPort);
  }

  lemma AnyAnnounceIsWire(tid: Bytes, id: InfoHash, infoHash: InfoHash, token: Bytes, port: int, implied: int)
    ensures Encode(Dict(QueryDict(tid, "announce_peer", AnnounceDict(id, infoHash, token, port, implied))))
      == QueryBytes(tid, "13:announce_peer", AnnounceBytes(id, infoHash, token, port, implied))
  {
    hide Ascii, FieldsBytes, Named, Encode, EncodeString, QueryDict, AnnounceDict, AnnounceFields, QueryBytes;
    NamesOfMethods();
    AnnounceLaid(id, infoHash, token, port, implied);
    AnnouncePrinted(id, infoHash, token, port, implied);
    QueryEncodes(tid, "announce_peer", "13:announce_peer", AnnounceFields(id, infoHash, token, port, implied));
  }

  /** An announce with any numbers of 64 bits is understood, the numbers cut to their width. */
  lemma AnyAnnounceIsUnderstood(lossy: Bytes -> Bytes, tid: Bytes, id: InfoHash, infoHash: InfoHash, token: Bytes,
          port: int, implied: int)
    requires Utf8Lossy(lossy) && |tid| <= USIZE_MAX && |token| <= USIZE_MAX
    requires I64_MIN <= port <= I64_MAX && I64_MIN <= implied <= I64_MAX
    ensures Deserialize(lossy, QueryBytes(tid, "13:announce_peer", AnnounceBytes(id, infoHash, token, port, implied)))
      == Some(AnnouncePeerRequest(tid, id, infoHash, token, port % 65536, implied % 256))
  {
    hide Utf8Lossy, Encode, QueryDict, QueryBytes, AnnounceBytes, AnnounceDict, DeserializeDict, DictOk, WellFormed;
    hide Height;
    AnyAnnounceIsWire(tid, id, infoHash, token, port, implied);
    NumbersAreCut(lossy, tid, id, infoHash, token, port, implied);
    var d := QueryDict(tid, "announce_peer", AnnounceDict(id, infoHash, token, port, implied));
    DictValueOk(lossy, d, 2);
    RoundTrip(lossy, Dict(d), []);
    assert Encode(Dict(d)) + [] == Encode(Dict(d));
  }

  lemma NamesOfMethods()
    ensures EncodeString(Ascii("ping")) == Ascii("4:ping")
    ensures EncodeString(Ascii("find_node")) == Ascii("9:find_node")
    ensures EncodeString(Ascii("get_peers")) == Ascii("9:get_peers")
    ensures EncodeString(Ascii("announce_peer")) == Ascii("13:announce_peer")
  {
    ShortString("ping");
    ShortString("find_node");
    ShortString("get_peers");
    assert [52 as char] + ":" + "ping" == "4:ping";
    assert [57 as char] + ":" + "find_node" == "9:find_node" && [57 as char] + ":" + "get_peers" == "9:get_peers";
    assert Print(13) == Ascii("13");
    assert Ascii("13") + [COLON] + Ascii("announce_peer") == Ascii("13:announce_peer");
  }

  lemma RepliesAreWire(m: Message)
    requires m.PingResponse? || m.FindNodeResponse? || m.GetPeersResponse? || m.AnnouncePeerResponse?
    ensures Serialize(m) == Wire(m)
  {
    hide Ascii, FieldsBytes, Named, OneField, IdBytes, Encode, ReplyDict, IdDict, With, Sized, NodesBytes, ReplyBytes;
    hide ValuesBytes, NodesDict, PeersDict, TokenFields, IfAny, IdField;
    if m.PingResponse? || m.AnnouncePeerResponse? {
      IdLaid(m.id);
      SingleField(IdField(m.id));
      HashFieldsPrinted(m.id);
      ReplyEncodes(m.tid, [IdField(m.id)], m.ip);
    } else if m.FindNodeResponse? {
      NodesLaid(m);
      NodesPrinted(m.id, m.nodes, m.nodes6);
      ReplyEncodes(m.tid, [IdField(m.id)] + IfAny(KeyNodes, m.nodes) + IfAny(KeyNodes6, m.nodes6), m.ip);
    } else {
      var fields := [IdField(m.id)] + IfAny(KeyNodes, m.nodes) + IfAny(KeyNodes6, m.nodes6);
      PeersLaid(m);
      FieldsJoin(fields, TokenFields(m.token, m.values));
      NodesPrinted(m.id, m.nodes, m.nodes6);
      TokenPrinted(m.token, m.values);
      var start := IdBytes(m.id) + NodesBytes(m.nodes, m.nodes6);
      assert start + (Ascii("5:token") + Sized(m.token) + ValuesBytes(m.values))
        == start + Ascii("5:token") + Sized(m.token) + ValuesBytes(m.values);
      ReplyEncodes(m.tid, fields + TokenFields(m.token, m.values), m.ip);
    }
  }

  /** Every message is sent as these bytes and no others, and they are understood as the
      message: exactly if it is normal as it was, and else as its norm. */
  lemma OnTheWire(lossy: Bytes -> Bytes, m: Message)
    requires Utf8Lossy(lossy) && Fits(m)
    ensures Serialize(m) == Wire(m)
    ensures Deserialize(lossy, Wire(m)) == Some(Norm(m))
    ensures Deserialize(lossy, Wire(m)) == Some(m) <==> IsNormal(m)
  {
    hide Utf8Lossy, Serialize, Deserialize, Wire, Norm, IsNormal;
    KrpcRoundTrip(lossy, m);
    UnchangedIffNormal(lossy, m);
    if m.Error? {
      ErrorIsWire(m);
    } else if m.PingRequest? || m.FindNodeRequest? || m.GetPeersRequest? || m.AnnouncePeerRequest? {
      QueriesAreWire(m);
    } else {
      RepliesAreWire(m);
    }
  }

  lemma ErrorIsWire(m: Message)
    requires m.Error?
    ensures Serialize(m) == Wire(m)
  {
    hide Ascii, Encode, ErrorDict, Sized, PrintInt;
    ErrorEncodes(m.tid, m.code, m.message);
  }

  /** The compact form of a node: its id, then its address, the port with the high byte first. */
  lemma NodeOnTheWire(n: Node)
    ensures BuildCompactNodeInfo(n) == n.id + AddrBytes(n.addr)
    ensures n.addr.V4? ==> ParseCompactNodeInfoV4(n.id + AddrBytes(n.addr)) == Some(n)
    ensures n.addr.V6? ==>
      ParseCompactNodeInfoV6(n.id + AddrBytes(n.addr)) == Some(n.(addr := V6(n.addr.ip6, n.addr.port, 0, 0)))
  {
    var data := n.id + AddrBytes(n.addr);
    assert data[..20] == n.id;
    if n.addr.V4? {
      assert data[20..24] == n.addr.ip4;
    } else {
      assert data[20..36] == n.addr.ip6;
    }
  }

  // ----- what is understood at all

  ghost predicate HasBytes(d: seq<Entry>, key: string) {
    Get(d, Ascii(key)).Some? && Get(d, Ascii(key)).value.ByteString?
  }

  ghost predicate HasText(d: seq<Entry>, key: string, text: string) {
    Get(d, Ascii(key)) == Some(ByteString(Ascii(text)))
  }

  ghost predicate HasId(d: seq<Entry>, key: string) {
    HasBytes(d, key) && |Get(d, Ascii(key)).value.s| == 20
  }

  ghost predicate HasDict(d: seq<Entry>, key: string) {
    Get(d, Ascii(key)).Some? && Get(d, Ascii(key)).value.Dict?
  }

  ghost predicate HasList(d: seq<Entry>, key: string) {
    Get(d, Ascii(key)).Some? && Get(d, Ascii(key)).value.List?
  }

  ghost predicate IsQuery(d: seq<Entry>) {
    && HasDict(d, "a")
    && var a := Get(d, Ascii("a")).value.entries;
       && HasId(a, "id")
       && (|| HasText(d, "q", "ping")
           || (HasText(d, "q", "find_node") && HasId(a, "target"))
           || (HasText(d, "q", "get_peers") && HasId(a, "info_hash"))
           || (&& HasText(d, "q", "announce_peer") && HasId(a, "info_hash") && HasBytes(a, "token")
               && Get(a, Ascii("port")).Some? && Get(a, Ascii("implied_port")).Some?))
  }

  ghost predicate IsReply(d: seq<Entry>) {
    HasDict(d, "r") && HasId(Get(d, Ascii("r")).value.entries, "id")
  }

  lemma AnnounceUnderstood(tid: Bytes, id: InfoHash, a: seq<Entry>)
    ensures DeserializeAnnounce(tid, id, a).Some? <==>
      && HasId(a, "info_hash") && HasBytes(a, "token")
      && Get(a, Ascii("port")).Some? && Get(a, Ascii("implied_port")).Some?
  {
    hide Ascii, Get, AsU16;
  }

  lemma QueryUnderstood(tid: Bytes, d: seq<Entry>)
    ensures DeserializeQuery(tid, d).Some? <==> HasBytes(d, "q") && IsQuery(d)
  {
    MethodsDiffer();
    hide Ascii, Get, WantIn, DeserializeAnnounce;
    if HasDict(d, "a") {
      var a := Get(d, Ascii("a")).value.entries;
      if HasId(a, "id") {
        AnnounceUnderstood(tid, Get(a, Ascii("id")).value.s, a);
      }
    }
  }

  lemma ReplyUnderstood(tid: Bytes, d: seq<Entry>)
    ensures DeserializeReply(tid, d).Some? <==> IsReply(d)
    ensures DeserializeError(tid, d).Some? <==> HasList(d, "e")
  {
    hide Ascii, Get, ParseAddrs, ParseCompactPeerAddr, OrEmpty, AsI32;
  }

  /** A dictionary is a message exactly if the entries that its kind needs are there and of the
      right type; everything else may be missing. */
  lemma UnderstoodExactly(d: seq<Entry>)
    ensures DeserializeDict(d).Some? <==>
      && HasBytes(d, "t")
      && ((HasText(d, "y", "q") && IsQuery(d)) || (HasText(d, "y", "r") && IsReply(d))
          || (HasText(d, "y", "e") && HasList(d, "e")))
  {
    YsDiffer();
    hide Ascii, Get, DeserializeQuery, DeserializeReply, DeserializeError, IsReply;
    QueryUnderstood([], d);
    ReplyUnderstood([], d);
    if HasBytes(d, "t") {
      var tid := Get(d, Ascii("t")).value.s;
      QueryUnderstood(tid, d);
      ReplyUnderstood(tid, d);
    }
  }

  ghost predicate SameFields(d: seq<Entry>, e: seq<Entry>) {
    forall k :: Lookup(d, k) == Lookup(e, k)
  }

  lemma SameParts(d: seq<Entry>, e: seq<Entry>, k: Key)
    requires SameFields(d, e)
    ensures Lookup(d, k) == Lookup(e, k) && BytesAt(d, k) == BytesAt(e, k)
    ensures DictAt(d, k) == DictAt(e, k) && ListAt(d, k) == ListAt(e, k)
  {
    hide Lookup;
  }

  lemma SameMessage(tid: Bytes, d: seq<Entry>, e: seq<Entry>)
    requires SameFields(d, e)
    ensures DeserializeQuery(tid, d) == DeserializeQuery(tid, e)
    ensures DeserializeReply(tid, d) == DeserializeReply(tid, e)
    ensures DeserializeError(tid, d) == DeserializeError(tid, e)
  {
    hide SameFields, Lookup, BytesAt, DictAt, ListAt, IdIn, ParseAddrs, ParseCompactPeerAddr, WantIn;
    hide DeserializeAnnounce, OrEmpty, IntegerOr0;
    SameParts(d, e, KeyQ);
    SameParts(d, e, KeyA);
    SameParts(d, e, KeyR);
    SameParts(d, e, KeyIp);
    SameParts(d, e, KeyE);
  }

  /** Entries that the protocol does not know are passed over. */
  lemma UnknownKeysIgnored(d: seq<Entry>, key: Bytes, v: Value)
    requires KeysSorted(d) && forall k :: Name(k) != key
    ensures DeserializeDict(Insert(d, key, v)) == DeserializeDict(d)
  {
    var more := Insert(d, key, v);
    forall k ensures Lookup(more, k) == Lookup(d, k) {
      InsertGet(d, key, v, Name(k));
    }
    assert SameFields(more, d);
    hide SameFields, Lookup, Name, BytesAt, DeserializeQuery, DeserializeReply, DeserializeError;
    SameParts(more, d, KeyY);
    SameParts(more, d, KeyT);
    match BytesAt(d, KeyT)
    case None =>
    case Some(tid) => SameMessage(tid, more, d);
  }
}
