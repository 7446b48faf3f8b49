/** The messages of the metadata exchange byte for byte (src/peer.rs; BEP 9, section
    "extension message"). */
module MetadataWire {
  import opened Bytes
  import opened Decimals
  import opened Bencode
  import opened BencodeBytes
  import opened Metadata

  /** `piece` and `totalSize` as signed numbers of 64 bits */
  ghost function HeaderBytes(msgType: int, piece: int, totalSize: Option<int>): Bytes {
    Ascii("d8:msg_typei") + PrintInt(msgType) + Ascii("e5:piecei") + PrintInt(piece) + Ascii("e")
    + (match totalSize case None => [] case Some(n) => Ascii("10:total_sizei") + PrintInt(n) + Ascii("e"))
    + Ascii("e")
  }

  lemma KeysPrinted()
    ensures EncodeString(Ascii("msg_type")) == Ascii("8:msg_type") && EncodeString(Ascii("piece")) == Ascii("5:piece")
    ensures EncodeString(Ascii("total_size")) == Ascii("10:total_size")
  {
    ShortString("msg_type");
    ShortString("piece");
    assert [56 as char] + ":" + "msg_type" == "8:msg_type" && [53 as char] + ":" + "piece" == "5:piece";
    assert Print(10) == Ascii("10");
    assert Ascii("10") + [COLON] + Ascii("total_size") == Ascii("10:total_size");
  }

  lemma NumberEntry(key: string, sizedKey: string, i: int)
    requires EncodeString(Ascii(key)) == Ascii(sizedKey)
    ensures EncodeEntries([Entry(Ascii(key), Integer(i))]) == Ascii(sizedKey + "i") + PrintInt(i) + Ascii("e")
  {
    hide Ascii, EncodeString, PrintInt;
    SingleEntry(Ascii(key), Integer(i));
    GrammarIs(i, [], [], []);
    AsciiJoins(sizedKey, "i");
    var digits := PrintInt(i);
    hide Encode;
    assert Ascii(sizedKey) + (Ascii("i") + digits + Ascii("e")) == Ascii(sizedKey) + Ascii("i") + digits + Ascii("e");
  }

  lemma TwoNumbers(msgType: int, piece: int)
    ensures EncodeEntries([Entry(Ascii("msg_type"), Integer(msgType)), Entry(Ascii("piece"), Integer(piece))])
      == Ascii("8:msg_typei") + PrintInt(msgType) + Ascii("e") + (Ascii("5:piecei") + PrintInt(piece) + Ascii("e"))
  {
    hide Ascii, EncodeString, EncodeEntries, PrintInt;
    var first, second := [Entry(Ascii("msg_type"), Integer(msgType))], [Entry(Ascii("piece"), Integer(piece))];
    KeysPrinted();
    NumberEntry("msg_type", "8:msg_type", msgType);
    NumberEntry("piece", "5:piece", piece);
    EntriesJoin(first, second);
    assert "8:msg_type" + "i" == "8:msg_typei" && "5:piece" + "i" == "5:piecei";
    assert first + second == [Entry(Ascii("msg_type"), Integer(msgType)), Entry(Ascii("piece"), Integer(piece))];
  }

  lemma HeaderParts(msgType: Bytes, piece: Bytes)
    ensures Ascii("d") + ((Ascii("8:msg_typei") + msgType + Ascii("e")) + (Ascii("5:piecei") + piece + Ascii("e")))
      == Ascii("d8:msg_typei") + msgType + Ascii("e5:piecei") + piece + Ascii("e")
  {
    assert Ascii("d8:msg_typei") == Ascii("d") + Ascii("8:msg_typei");
    assert Ascii("e5:piecei") == Ascii("e") + Ascii("5:piecei");
    hide Ascii;
  }

  lemma HeaderIs(msgType: byte, piece: nat, totalSize: Option<nat>)
    requires piece <= USIZE_MAX && (totalSize.Some? ==> totalSize.value <= USIZE_MAX)
    ensures Encode(Dict(MetadataDict(msgType, piece, totalSize)))
      == HeaderBytes(msgType, AsI64(piece), if totalSize.None? then None else Some(AsI64(totalSize.value)))
  {
    hide Ascii, EncodeString, EncodeEntries, MetadataDict, AsI64, PrintInt;
    var numbers := [Entry(Ascii("msg_type"), Integer(msgType)), Entry(Ascii("piece"), Integer(AsI64(piece)))];
    MetadataEntries(msgType, piece, totalSize);
    TwoNumbers(msgType, AsI64(piece));
    GrammarIs(0, [], [], MetadataDict(msgType, piece, totalSize));
    hide Encode;
    HeaderParts(PrintInt(msgType), PrintInt(AsI64(piece)));
    if totalSize.Some? {
      KeysPrinted();
      EntriesJoin(numbers, [Entry(Ascii("total_size"), Integer(AsI64(totalSize.value)))]);
      NumberEntry("total_size", "10:total_size", AsI64(totalSize.value));
      assert "10:total_size" + "i" == "10:total_sizei";
    } else {
      assert numbers + [] == numbers;
    }
  }

  lemma Starts()
    ensures Ascii("d8:msg_typei") + PrintInt(0) + Ascii("e5:piecei") == Ascii("d8:msg_typei0e5:piecei")
    ensures Ascii("d8:msg_typei") + PrintInt(1) + Ascii("e5:piecei") == Ascii("d8:msg_typei1e5:piecei")
    ensures Ascii("d8:msg_typei") + PrintInt(2) + Ascii("e5:piecei") == Ascii("d8:msg_typei2e5:piecei")
  {
  }

  lemma Ends()
    ensures Ascii("e") + Ascii("e") == Ascii("ee")
    ensures Ascii("e") + Ascii("10:total_sizei") == Ascii("e10:total_sizei")
  {
  }

  lemma NoSize(msgType: int, start: Bytes, piece: nat)
    requires Ascii("d8:msg_typei") + PrintInt(msgType) + Ascii("e5:piecei") == start
    ensures HeaderBytes(msgType, piece, None) == start + Print(piece) + Ascii("ee")
  {
    Ends();
    hide Ascii, Print;
    assert start + Print(piece) + Ascii("e") + [] + Ascii("e") == start + Print(piece) + (Ascii("e") + Ascii("e"));
  }

  lemma WithSize(msgType: int, start: Bytes, piece: nat, totalSize: nat)
    requires Ascii("d8:msg_typei") + PrintInt(msgType) + Ascii("e5:piecei") == start
    ensures HeaderBytes(msgType, piece, Some(totalSize))
      == start + Print(piece) + Ascii("e10:total_sizei") + Print(totalSize) + Ascii("ee")
  {
    Ends();
    hide Ascii, Print;
    var upTo := start + Print(piece);
    assert upTo + Ascii("e") + (Ascii("10:total_sizei") + Print(totalSize) + Ascii("e")) + Ascii("e")
      == upTo + (Ascii("e") + Ascii("10:total_sizei")) + Print(totalSize) + (Ascii("e") + Ascii("e"));
  }

  /** What each of the three builders sends. */
  lemma BuiltBytes(piece: nat, totalSize: nat, data: Bytes)
    requires piece <= I64_MAX && totalSize <= I64_MAX
    ensures BuildMetadataRequest(piece) == Ascii("d8:msg_typei0e5:piecei") + Print(piece) + Ascii("ee")
    ensures BuildMetadataData(piece, Some(totalSize), data)
      == Ascii("d8:msg_typei1e5:piecei") + Print(piece) + Ascii("e10:total_sizei") + Print(totalSize) + Ascii("ee")
         + data
    ensures BuildMetadataData(piece, None, data) == Ascii("d8:msg_typei1e5:piecei") + Print(piece) + Ascii("ee") + data
    ensures BuildMetadataReject(piece) == Ascii("d8:msg_typei2e5:piecei") + Print(piece) + Ascii("ee")
  {
    assert AsI64(piece) == piece && AsI64(totalSize) == totalSize;
    hide Encode, MetadataDict, AsI64, Ascii, Print, PrintInt, HeaderBytes;
    HeaderIs(0, piece, None);
    HeaderIs(1, piece, Some(totalSize));
    HeaderIs(1, piece, None);
    HeaderIs(2, piece, None);
    Starts();
    NoSize(0, Ascii("d8:msg_typei0e5:piecei"), piece);
    NoSize(1, Ascii("d8:msg_typei1e5:piecei"), piece);
    NoSize(2, Ascii("d8:msg_typei2e5:piecei"), piece);
    WithSize(1, Ascii("d8:msg_typei1e5:piecei"), piece, totalSize);
  }
}
