/** Peer messages and their framing on a byte stream (src/peer.rs, `PeerMessage` and
    `recv_message`). */
module PeerWire {
  import opened Bytes
  import opened Addresses

  type U32 = n: int | 0 <= n < 0x1_0000_0000

  const MAX_MESSAGE: nat := 4 * 1024 * 1024

  datatype PeerMessage =
    | KeepAlive
    | Choke
    | Unchoke
    | Interested
    | NotInterested
    | Have(piece: U32)
    | Bitfield(bits: Bytes)
    | Request(index: U32, begin: U32, length: U32)
    | Piece(index: U32, begin: U32, data: Bytes)
    | Cancel(index: U32, begin: U32, length: U32)
    | DhtPort(port: Port)
    | Extended(id: byte, payload: Bytes)

  /** Big-endian */
  function U32Bytes(n: U32): (b: Bytes)
    ensures |b| == 4
  {
    [n / 256 / 256 / 256, n / 256 / 256 % 256, n / 256 % 256, n % 256]
  }

  function NumberOf(a: int, b: int, c: int, d: int): (n: int)
    ensures 0 <= a < 256 && 0 <= b < 256 && 0 <= c < 256 && 0 <= d < 256 ==> 0 <= n < 0x1_0000_0000
  {
    256 * (256 * (256 * a + b) + c) + d
  }

  lemma NumberOfBytes(n: U32)
    ensures NumberOf(n / 256 / 256 / 256, n / 256 / 256 % 256, n / 256 % 256, n % 256) == n
  {
  }

  function U32At(data: Bytes, at: nat): U32
    requires at + 4 <= |data|
  {
    NumberOf(data[at], data[at + 1], data[at + 2], data[at + 3])
  }

  lemma U32RoundTrip(n: U32, before: Bytes, after: Bytes)
    ensures U32At(before + U32Bytes(n) + after, |before|) == n
  {
    var data, at := before + U32Bytes(n) + after, |before|;
    assert data[at] == U32Bytes(n)[0] && data[at + 1] == U32Bytes(n)[1];
    assert data[at + 2] == U32Bytes(n)[2] && data[at + 3] == U32Bytes(n)[3];
    hide NumberOf;
    NumberOfBytes(n);
  }

  function Body(m: PeerMessage): Bytes {
    match m
    case KeepAlive => []
    case Choke => [0]
    case Unchoke => [1]
    case Interested => [2]
    case NotInterested => [3]
    case Have(piece) => [4] + U32Bytes(piece)
    case Bitfield(bits) => [5] + bits
    case Request(index, begin, length) => [6] + U32Bytes(index) + U32Bytes(begin) + U32Bytes(length)
    case Piece(index, begin, data) => [7] + U32Bytes(index) + U32Bytes(begin) + data
    case Cancel(index, begin, length) => [8] + U32Bytes(index) + U32Bytes(begin) + U32Bytes(length)
    case DhtPort(port) => [9, port / 256, port % 256]
    case Extended(id, payload) => [20, id] + payload
  }

  /** The length prefix is cut to 32 bits. */
  function Encode(m: PeerMessage): Bytes {
    U32Bytes(|Body(m)| % 0x1_0000_0000) + Body(m)
  }

  function Decode(data: Bytes): Option<PeerMessage> {
    if data == [] then Some(KeepAlive)
    else if data[0] == 0 then Some(Choke)
    else if data[0] == 1 then Some(Unchoke)
    else if data[0] == 2 then Some(Interested)
    else if data[0] == 3 then Some(NotInterested)
    else if data[0] == 4 then if |data| < 5 then None else Some(Have(U32At(data, 1)))
    else if data[0] == 5 then Some(Bitfield(data[1..]))
    else if data[0] == 6 then if |data| < 13 then None
      else Some(Request(U32At(data, 1), U32At(data, 5), U32At(data, 9)))
    else if data[0] == 7 then if |data| < 9 then None else Some(Piece(U32At(data, 1), U32At(data, 5), data[9..]))
    else if data[0] == 8 then if |data| < 13 then None else Some(Cancel(U32At(data, 1), U32At(data, 5), U32At(data, 9)))
    else if data[0] == 9 then if |data| < 3 then None else Some(DhtPort(NumberOf(0, 0, data[1], data[2])))
    else if data[0] == 20 then if |data| == 1 then Some(Extended(0, [])) else Some(Extended(data[1], data[2..]))
    else None
  }

  lemma ThreeNumbers(first: byte, a: U32, b: U32, tail: Bytes)
    ensures var data := [first] + U32Bytes(a) + U32Bytes(b) + tail;
      data[0] == first && U32At(data, 1) == a && U32At(data, 5) == b && data[9..] == tail
  {
    var data := [first] + U32Bytes(a) + U32Bytes(b) + tail;
    U32RoundTrip(a, [first], U32Bytes(b) + tail);
    assert data == [first] + U32Bytes(a) + (U32Bytes(b) + tail);
    U32RoundTrip(b, [first] + U32Bytes(a), tail);
  }

  lemma DecodeBody(m: PeerMessage)
    ensures Decode(Body(m)) == Some(m)
  {
    match m
    case Have(piece) =>
      U32RoundTrip(piece, [4], []);
      assert Body(m) == [4] + U32Bytes(piece) + [];
    case Request(index, begin, length) =>
      ThreeNumbers(6, index, begin, U32Bytes(length));
      LastNumber(6, index, begin, length);
    case Piece(index, begin, data) =>
      ThreeNumbers(7, index, begin, data);
    case Cancel(index, begin, length) =>
      ThreeNumbers(8, index, begin, U32Bytes(length));
      LastNumber(8, index, begin, length);
    case Bitfield(bits) =>
      assert Body(m)[1..] == bits;
    case Extended(id, payload) =>
      assert Body(m)[2..] == payload;
    case _ =>
  }

  lemma LastNumber(first: byte, a: U32, b: U32, c: U32)
    ensures U32At([first] + U32Bytes(a) + U32Bytes(b) + U32Bytes(c), 9) == c
  {
    U32RoundTrip(c, [first] + U32Bytes(a) + U32Bytes(b), []);
    assert [first] + U32Bytes(a) + U32Bytes(b) + U32Bytes(c) + [] == [first] + U32Bytes(a) + U32Bytes(b) + U32Bytes(c);
  }

  lemma EmptyBody(m: PeerMessage)
    ensures |Body(m)| == 0 ==> m == KeepAlive
  {
  }

  // ----- the bytes

  /** Four bytes as a number, the highest first. */
  ghost function Big(data: Bytes, at: nat): nat
    requires at + 4 <= |data|
  {
    var a: nat, b: nat, c: nat, d: nat := data[at], data[at + 1], data[at + 2], data[at + 3];
    0x100_0000 * a + 0x1_0000 * b + 0x100 * c + d
  }

  lemma BigOfNumber(n: U32, before: Bytes, after: Bytes)
    ensures Big(before + U32Bytes(n) + after, |before|) == n
  {
    var data, at := before + U32Bytes(n) + after, |before|;
    assert data[at] == U32Bytes(n)[0] && data[at + 1] == U32Bytes(n)[1];
    assert data[at + 2] == U32Bytes(n)[2] && data[at + 3] == U32Bytes(n)[3];
  }

  /** A frame that carries three numbers and nothing more. */
  ghost predicate ThreeNumberFrame(f: Bytes, id: byte, a: U32, b: U32, c: U32) {
    |f| == 17 && f[..5] == [0, 0, 0, 13, id] && Big(f, 5) == a && Big(f, 9) == b && Big(f, 13) == c
  }

  lemma ThreeNumbersFramed(id: byte, a: U32, b: U32, c: U32)
    ensures ThreeNumberFrame([0, 0, 0, 13] + ([id] + U32Bytes(a) + U32Bytes(b) + U32Bytes(c)), id, a, b, c)
  {
    var f := [0, 0, 0, 13] + ([id] + U32Bytes(a) + U32Bytes(b) + U32Bytes(c));
    hide U32Bytes, Big;
    var start := [0, 0, 0, 13, id];
    assert f == start + U32Bytes(a) + (U32Bytes(b) + U32Bytes(c));
    BigOfNumber(a, start, U32Bytes(b) + U32Bytes(c));
    assert f == start + U32Bytes(a) + U32Bytes(b) + U32Bytes(c);
    BigOfNumber(b, start + U32Bytes(a), U32Bytes(c));
    assert f == start + U32Bytes(a) + U32Bytes(b) + U32Bytes(c) + [];
    BigOfNumber(c, start + U32Bytes(a) + U32Bytes(b), []);
  }

  /** What every message looks like on the wire: its length in four bytes, the highest first,
      its number, and its fields. */
  lemma FrameIs(m: PeerMessage)
    requires (m.Bitfield? ==> |m.bits| < 0xFFFF_FFFF) && (m.Piece? ==> |m.data| < 0xFFFF_FFF7)
    requires m.Extended? ==> |m.payload| < 0xFFFF_FFFE
    ensures var f := Encode(m);
      match m
      case KeepAlive => f == [0, 0, 0, 0]
      case Choke => f == [0, 0, 0, 1, 0]
      case Unchoke => f == [0, 0, 0, 1, 1]
      case Interested => f == [0, 0, 0, 1, 2]
      case NotInterested => f == [0, 0, 0, 1, 3]
      case Have(piece) => |f| == 9 && f[..5] == [0, 0, 0, 5, 4] && Big(f, 5) == piece
      case Bitfield(bits) => |f| == 5 + |bits| && Big(f, 0) == 1 + |bits| && f[4] == 5 && f[5..] == bits
      case Request(index, begin, length) => ThreeNumberFrame(f, 6, index, begin, length)
      case Piece(index, begin, data) =>
        && |f| == 13 + |data| && Big(f, 0) == 9 + |data| && f[4] == 7
        && Big(f, 5) == index && Big(f, 9) == begin && f[13..] == data
      case Cancel(index, begin, length) => ThreeNumberFrame(f, 8, index, begin, length)
      case DhtPort(port) => f == [0, 0, 0, 3, 9, port / 256, port % 256]
      case Extended(id, payload) =>
        |f| == 6 + |payload| && Big(f, 0) == 2 + |payload| && f[4] == 20 && f[5] == id && f[6..] == payload
  {
    SmallPrefixes();
    hide U32Bytes, Big;
    match m
    case Have(piece) => HaveFramed(piece);
    case Bitfield(bits) => LongFrame([5] + bits);
    case Request(index, begin, length) => ThreeNumbersFramed(6, index, begin, length);
    case Piece(index, begin, data) => PieceFramed(index, begin, data);
    case Cancel(index, begin, length) => ThreeNumbersFramed(8, index, begin, length);
    case Extended(id, payload) => ExtendedFramed(id, payload);
    case _ =>
  }

  lemma SmallPrefixes()
    ensures U32Bytes(0) == [0, 0, 0, 0] && U32Bytes(1) == [0, 0, 0, 1] && U32Bytes(3) == [0, 0, 0, 3]
    ensures U32Bytes(5) == [0, 0, 0, 5] && U32Bytes(13) == [0, 0, 0, 13]
  {
  }

  lemma HaveFramed(piece: U32)
    ensures var f := Encode(Have(piece)); |f| == 9 && f[..5] == [0, 0, 0, 5, 4] && Big(f, 5) == piece
  {
    SmallPrefixes();
    hide U32Bytes, Big;
    assert Encode(Have(piece)) == [0, 0, 0, 5, 4] + U32Bytes(piece) + [];
    BigOfNumber(piece, [0, 0, 0, 5, 4], []);
  }

  lemma ExtendedFramed(id: byte, payload: Bytes)
    requires |payload| < 0xFFFF_FFFE
    ensures var f := Encode(Extended(id, payload));
      |f| == 6 + |payload| && Big(f, 0) == 2 + |payload| && f[4] == 20 && f[5] == id && f[6..] == payload
  {
    hide U32Bytes, Big;
    LongFrame([20, id] + payload);
    assert Encode(Extended(id, payload)) == U32Bytes(2 + |payload|) + [20, id] + payload;
  }

  lemma LongFrame(body: Bytes)
    requires |body| < 0x1_0000_0000
    ensures Big(U32Bytes(|body|) + body, 0) == |body| && (U32Bytes(|body|) + body)[4..] == body
  {
    assert [] + U32Bytes(|body|) + body == U32Bytes(|body|) + body;
    BigOfNumber(|body|, [], body);
  }

  lemma PieceFramed(index: U32, begin: U32, data: Bytes)
    requires |data| < 0xFFFF_FFF7
    ensures var f := Encode(Piece(index, begin, data));
      && |f| == 13 + |data| && Big(f, 0) == 9 + |data| && f[4] == 7
      && Big(f, 5) == index && Big(f, 9) == begin && f[13..] == data
  {
    var f, body := Encode(Piece(index, begin, data)), Body(Piece(index, begin, data));
    LongFrame(body);
    hide U32Bytes, Big;
    var start := U32Bytes(|body|) + [7];
    assert f == start + U32Bytes(index) + (U32Bytes(begin) + data);
    BigOfNumber(index, start, U32Bytes(begin) + data);
    assert f == start + U32Bytes(index) + U32Bytes(begin) + data;
    BigOfNumber(begin, start + U32Bytes(index), data);
  }

  // ----- the stream

  datatype Received = Message(m: PeerMessage, rest: Bytes) | Disconnected | Refused

  /** One `recv_message` on what the peer has sent. */
  function Recv(stream: Bytes): Received {
    if |stream| < 4 then Disconnected
    else
      var length := U32At(stream, 0);
      if length == 0 then Message(KeepAlive, stream[4..])
      else if length > MAX_MESSAGE then Refused
      else if |stream| < 4 + length then Disconnected
      else match Decode(stream[4..4 + length])
        case None => Refused
        case Some(m) => Message(m, stream[4 + length..])
  }

  /** A sent message is received as it was, and nothing after it is touched, exactly when
      it fits the limit; a longer one is refused. */
  lemma RecvOfEncoded(m: PeerMessage, rest: Bytes)
    requires |Body(m)| < 0x1_0000_0000
    ensures Recv(Encode(m) + rest) == if |Body(m)| <= 4_194_304 then Message(m, rest) else Refused
  {
    hide Decode, U32At, U32Bytes, Body;
    var n := |Body(m)|;
    var stream := Encode(m) + rest;
    assert stream == [] + U32Bytes(n) + (Body(m) + rest);
    U32RoundTrip(n, [], Body(m) + rest);
    assert stream[4..4 + n] == Body(m) && stream[4 + n..] == rest && stream[4..] == Body(m) + rest;
    DecodeBody(m);
    EmptyBody(m);
    if n == 0 {
      assert stream[4..] == rest;
    }
  }

  function EncodeAll(ms: seq<PeerMessage>): Bytes {
    if ms == [] then [] else Encode(ms[0]) + EncodeAll(ms[1..])
  }

  function RecvMany(stream: Bytes, n: nat): Option<(seq<PeerMessage>, Bytes)> {
    if n == 0 then Some(([], stream))
    else match Recv(stream)
      case Message(m, rest) =>
        (match RecvMany(rest, n - 1) case None => None case Some((ms, end)) => Some(([m] + ms, end)))
      case Disconnected => None
      case Refused => None
  }

  /** A stream of sent messages is received message by message, exactly when none of them
      is over the limit. */
  lemma {:induction false} StreamRoundTrip(ms: seq<PeerMessage>, rest: Bytes)
    requires forall i :: 0 <= i < |ms| ==> |Body(ms[i])| < 0x1_0000_0000
    ensures RecvMany(EncodeAll(ms) + rest, |ms|)
      == if forall i :: 0 <= i < |ms| ==> |Body(ms[i])| <= 4_194_304 then Some((ms, rest)) else None
  {
    hide Recv, Encode, Body;
    if ms == [] {
      assert EncodeAll(ms) + rest == rest;
    } else {
      var m, others := ms[0], ms[1..];
      assert EncodeAll(ms) + rest == Encode(m) + (EncodeAll(others) + rest);
      RecvOfEncoded(m, EncodeAll(others) + rest);
      StreamRoundTrip(others, rest);
      assert ms == [m] + others;
      assert (forall i :: 0 <= i < |ms| ==> |Body(ms[i])| <= MAX_MESSAGE)
        <==> |Body(m)| <= MAX_MESSAGE && forall i :: 0 <= i < |others| ==> |Body(others[i])| <= MAX_MESSAGE by {
        assert forall i :: 0 <= i < |others| ==> others[i] == ms[i + 1];
      }
    }
  }
}
