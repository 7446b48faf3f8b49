/** Torrent files byte for byte (src/metainfo.rs, src/network.rs; BEP 3, section "metainfo
    files", BEP 12 and BEP 19): what a torrent looks like, and that it opens to what it says. */
module TorrentWire {
  import opened Bytes
  import opened Decimals
  import opened Bencode
  import opened BencodeBytes
  import opened BencodeParser
  import opened Layouts
  import opened Metainfo
  import Rewrap

  datatype ListedFile = ListedFile(length: nat, path: seq<Bytes>)

  /** One file, which has the name of the torrent, or a directory of that name. */
  datatype Content = OneFile(length: nat) | ManyFiles(files: seq<ListedFile>)

  datatype Description = Description(
    name: Bytes,
    pieceLength: nat,
    pieces: Bytes,
    isPrivate: bool,
    content: Content,
    announce: Option<Bytes>,
    tiers: seq<seq<Bytes>>,
    urls: seq<Bytes>,
    comment: Option<Bytes>,
    createdBy: Option<Bytes>,
    created: Option<nat>)

  // ----- the bytes

  ghost function SizedAll(strings: seq<Bytes>): Bytes {
    if strings == [] then [] else Sized(strings[0]) + SizedAll(strings[1..])
  }

  ghost function TierBytes(tiers: seq<seq<Bytes>>): Bytes {
    if tiers == [] then [] else Ascii("l") + SizedAll(tiers[0]) + Ascii("e") + TierBytes(tiers[1..])
  }

  ghost function FileBytes(files: seq<ListedFile>): Bytes {
    if files == [] then []
    else
      Ascii("d6:lengthi") + Print(files[0].length) + Ascii("e4:pathl") + SizedAll(files[0].path) + Ascii("ee")
      + FileBytes(files[1..])
  }

  ghost function ContentBytes(content: Content): Bytes {
    match content
    case OneFile(length) => Ascii("6:lengthi") + Print(length) + Ascii("e")
    case ManyFiles(files) => Ascii("5:filesl") + FileBytes(files) + Ascii("e")
  }

  ghost function InfoBytes(d: Description): Bytes {
    Ascii("d")
    + ContentBytes(d.content)
    + (Ascii("4:name") + Sized(d.name))
    + (Ascii("12:piece lengthi") + Print(d.pieceLength) + Ascii("e"))
    + (Ascii("6:pieces") + Sized(d.pieces))
    + (if d.isPrivate then Ascii("7:privatei1e") else [])
    + Ascii("e")
  }

  ghost function IfThere(key: string, s: Option<Bytes>): Bytes {
    match s case None => [] case Some(b) => Ascii(key) + Sized(b)
  }

  ghost function TiersThere(tiers: seq<seq<Bytes>>): Bytes {
    if tiers == [] then [] else Ascii("13:announce-listl") + TierBytes(tiers) + Ascii("e")
  }

  ghost function UrlsThere(urls: seq<Bytes>): Bytes {
    if urls == [] then [] else Ascii("8:url-listl") + SizedAll(urls) + Ascii("e")
  }

  ghost function CreatedThere(created: Option<nat>): Bytes {
    match created case None => [] case Some(n) => Ascii("13:creation datei") + Print(n) + Ascii("e")
  }

  /** The keys of the outer dictionary in their order, each left out if there is nothing to say. */
  ghost function TorrentBytes(d: Description): Bytes {
    Ascii("d")
    + IfThere("8:announce", d.announce)
    + TiersThere(d.tiers)
    + IfThere("7:comment", d.comment)
    + IfThere("10:created by", d.createdBy)
    + CreatedThere(d.created)
    + (Ascii("4:info") + InfoBytes(d))
    + UrlsThere(d.urls)
    + Ascii("e")
  }

  // ----- the same as dictionaries

  ghost function Filled(s: Option<Bytes>): Option<Value> {
    match s case None => None case Some(b) => Some(ByteString(b))
  }

  ghost function FileSlots(f: ListedFile): seq<Slot> {
    [Slot("length", Some(Integer(f.length))), Slot("path", Some(Rewrap.Strings(f.path)))]
  }

  ghost function FileValue(f: ListedFile): Value {
    Dict(Laid(FileSlots(f)))
  }

  ghost function FileValues(files: seq<ListedFile>): (r: seq<Value>)
    ensures |r| == |files| && forall i :: 0 <= i < |files| ==> r[i] == FileValue(files[i])
  {
    seq(|files|, i requires 0 <= i < |files| => FileValue(files[i]))
  }

  ghost function InfoSlots(d: Description): seq<Slot> {
    [Slot("files", if d.content.ManyFiles? then Some(List(FileValues(d.content.files))) else None),
     Slot("length", if d.content.OneFile? then Some(Integer(d.content.length)) else None),
     Slot("name", Some(ByteString(d.name))),
     Slot("piece length", Some(Integer(d.pieceLength))),
     Slot("pieces", Some(ByteString(d.pieces))),
     Slot("private", if d.isPrivate then Some(Integer(1)) else None)]
  }

  ghost function InfoValue(d: Description): Value {
    Dict(Laid(InfoSlots(d)))
  }

  ghost function RootSlots(d: Description): seq<Slot> {
    [Slot("announce", Filled(d.announce)),
     Slot("announce-list", if d.tiers == [] then None else Some(Rewrap.Tiers(d.tiers))),
     Slot("comment", Filled(d.comment)),
     Slot("created by", Filled(d.createdBy)),
     Slot("creation date", match d.created case None => None case Some(n) => Some(Integer(n))),
     Slot("info", Some(InfoValue(d))),
     Slot("url-list", if d.urls == [] then None else Some(Rewrap.Strings(d.urls)))]
  }

  ghost function RootValue(d: Description): Value {
    Dict(Laid(RootSlots(d)))
  }

  // ----- in key order

  lemma FileOrdered(f: ListedFile)
    ensures InOrder(FileSlots(f))
  {
    StringsInOrder("length", "path", 0);
    hide KeyLess, Ascii;
  }

  lemma InfoKeysOrdered()
    ensures KeyLess(Ascii("files"), Ascii("length")) && KeyLess(Ascii("length"), Ascii("name"))
    ensures KeyLess(Ascii("name"), Ascii("piece length")) && KeyLess(Ascii("piece length"), Ascii("pieces"))
    ensures KeyLess(Ascii("pieces"), Ascii("private"))
  {
    hide KeyLess, Ascii;
    StringsInOrder("files", "length", 0);
    StringsInOrder("length", "name", 0);
    StringsInOrder("name", "piece length", 0);
    StringsInOrder("piece length", "pieces", 5);
    StringsInOrder("pieces", "private", 1);
  }

  lemma InfoOrdered(d: Description)
    ensures InOrder(InfoSlots(d))
  {
    hide KeyLess, Ascii, FileValues;
    InfoKeysOrdered();
    var slots := InfoSlots(d);
    forall i | 0 <= i < |slots| - 1 ensures KeyLess(Ascii(slots[i].key), Ascii(slots[i + 1].key)) {
    }
    OrderSpreads(slots);
  }

  lemma RootKeysOrdered()
    ensures KeyLess(Ascii("announce"), Ascii("announce-list")) && KeyLess(Ascii("announce-list"), Ascii("comment"))
    ensures KeyLess(Ascii("comment"), Ascii("created by")) && KeyLess(Ascii("created by"), Ascii("creation date"))
    ensures KeyLess(Ascii("creation date"), Ascii("info")) && KeyLess(Ascii("info"), Ascii("url-list"))
  {
    hide KeyLess, Ascii;
    StringsInOrder("announce", "announce-list", 8);
    StringsInOrder("announce-list", "comment", 0);
    StringsInOrder("comment", "created by", 1);
    StringsInOrder("created by", "creation date", 5);
    StringsInOrder("creation date", "info", 0);
    StringsInOrder("info", "url-list", 0);
  }

  lemma RootOrdered(d: Description)
    ensures InOrder(RootSlots(d))
  {
    hide KeyLess, Ascii, InfoValue, Rewrap.Tiers, Rewrap.Strings, Filled;
    RootKeysOrdered();
    var slots := RootSlots(d);
    forall i | 0 <= i < |slots| - 1 ensures KeyLess(Ascii(slots[i].key), Ascii(slots[i + 1].key)) {
    }
    OrderSpreads(slots);
  }

  // ----- printed

  lemma ShortKeysPrinted()
    ensures EncodeString(Ascii("length")) == Ascii("6:length")
    ensures EncodeString(Ascii("path")) == Ascii("4:path")
    ensures EncodeString(Ascii("files")) == Ascii("5:files")
    ensures EncodeString(Ascii("name")) == Ascii("4:name")
    ensures EncodeString(Ascii("pieces")) == Ascii("6:pieces")
    ensures EncodeString(Ascii("private")) == Ascii("7:private")
    ensures EncodeString(Ascii("announce")) == Ascii("8:announce")
    ensures EncodeString(Ascii("comment")) == Ascii("7:comment")
    ensures EncodeString(Ascii("info")) == Ascii("4:info")
    ensures EncodeString(Ascii("url-list")) == Ascii("8:url-list")
  {
    hide Ascii, EncodeString;
    ShortString("length");
    ShortString("path");
    ShortString("files");
    ShortString("name");
    ShortString("pieces");
    ShortString("private");
    ShortString("announce");
    ShortString("comment");
    ShortString("info");
    ShortString("url-list");
    assert [54 as char] + ":" + "length" == "6:length";
    assert [52 as char] + ":" + "path" == "4:path";
    assert [53 as char] + ":" + "files" == "5:files";
    assert [52 as char] + ":" + "name" == "4:name";
    assert [54 as char] + ":" + "pieces" == "6:pieces";
    assert [55 as char] + ":" + "private" == "7:private";
    assert [56 as char] + ":" + "announce" == "8:announce";
    assert [55 as char] + ":" + "comment" == "7:comment";
    assert [52 as char] + ":" + "info" == "4:info";
    assert [56 as char] + ":" + "url-list" == "8:url-list";
  }

  lemma LongKeysPrinted()
    ensures EncodeString(Ascii("piece length")) == Ascii("12:piece length")
    ensures EncodeString(Ascii("announce-list")) == Ascii("13:announce-list")
    ensures EncodeString(Ascii("created by")) == Ascii("10:created by")
    ensures EncodeString(Ascii("creation date")) == Ascii("13:creation date")
  {
    hide Ascii, EncodeString;
    LongerString("piece length");
    LongerString("announce-list");
    LongerString("created by");
    LongerString("creation date");
    assert 48 as char == '0' && 50 as char == '2' && 51 as char == '3';
    assert ['1', '2'] + ":" + "piece length" == "12:piece length";
    assert ['1', '3'] + ":" + "announce-list" == "13:announce-list";
    assert ['1', '0'] + ":" + "created by" == "10:created by";
    assert ['1', '3'] + ":" + "creation date" == "13:creation date";
  }

  lemma NumberSlot(key: string, sizedKey: string, n: nat)
    requires EncodeString(Ascii(key)) == Ascii(sizedKey)
    ensures SlotBytes(Slot(key, Some(Integer(n)))) == Ascii(sizedKey + "i") + Print(n) + Ascii("e")
  {
    hide EncodeString, Ascii, Print;
    GrammarIs(n, [], [], []);
    AsciiJoins(sizedKey, "i");
    assert Ascii(sizedKey) + (Ascii("i") + Print(n) + Ascii("e"))
      == Ascii(sizedKey) + Ascii("i") + Print(n) + Ascii("e");
  }

  lemma StringSlot(key: string, sizedKey: string, b: Bytes)
    requires EncodeString(Ascii(key)) == Ascii(sizedKey)
    ensures SlotBytes(Slot(key, Some(ByteString(b)))) == Ascii(sizedKey) + Sized(b)
  {
    hide EncodeString, Ascii, Print;
    GrammarIs(0, b, [], []);
  }

  lemma ListSlot(key: string, sizedKey: string, items: seq<Value>)
    requires EncodeString(Ascii(key)) == Ascii(sizedKey)
    ensures SlotBytes(Slot(key, Some(List(items)))) == Ascii(sizedKey + "l") + EncodeItems(items) + Ascii("e")
  {
    hide EncodeString, Ascii, EncodeItems;
    GrammarIs(0, [], items, []);
    AsciiJoins(sizedKey, "l");
    assert Ascii(sizedKey) + (Ascii("l") + EncodeItems(items) + Ascii("e"))
      == Ascii(sizedKey) + Ascii("l") + EncodeItems(items) + Ascii("e");
  }

  lemma {:induction false} StringsPrinted(strings: seq<Bytes>)
    ensures EncodeItems(Rewrap.Strings(strings).items) == SizedAll(strings)
  {
    hide Encode, Sized;
    if strings != [] {
      var items := Rewrap.Strings(strings).items;
      assert items[1..] == Rewrap.Strings(strings[1..]).items;
      StringsPrinted(strings[1..]);
      SizedIs(strings[0]);
    }
  }

  lemma SizedIs(b: Bytes)
    ensures Encode(ByteString(b)) == Sized(b)
  {
    hide Ascii, Print;
    GrammarIs(0, b, [], []);
  }

  lemma {:induction false} TiersPrinted(tiers: seq<seq<Bytes>>)
    ensures EncodeItems(Rewrap.Tiers(tiers).items) == TierBytes(tiers)
  {
    hide Encode, Ascii;
    if tiers != [] {
      var items := Rewrap.Tiers(tiers).items;
      assert items[1..] == Rewrap.Tiers(tiers[1..]).items;
      TiersPrinted(tiers[1..]);
      StringsPrinted(tiers[0]);
      GrammarIs(0, [], Rewrap.Strings(tiers[0]).items, []);
    }
  }

  lemma FilePrinted(f: ListedFile)
    ensures Encode(FileValue(f))
      == Ascii("d6:lengthi") + Print(f.length) + Ascii("e4:pathl") + SizedAll(f.path) + Ascii("ee")
  {
    hide Ascii, SlotBytes, Encode, Print, EncodeString, SizedAll;
    var slots := FileSlots(f);
    LaidPrinted(slots);
    assert slots[0..] == slots;
    SlotsFrom(slots, 0);
    SlotsFrom(slots, 1);
    SlotsFrom(slots, 2);
    ShortKeysPrinted();
    NumberSlot("length", "6:length", f.length);
    ListSlot("path", "4:path", Rewrap.Strings(f.path).items);
    StringsPrinted(f.path);
    GrammarIs(0, [], [], Laid(slots));
    FileParts(Print(f.length), SizedAll(f.path));
    assert "6:length" + "i" == "6:lengthi" && "4:path" + "l" == "4:pathl";
  }

  lemma FileParts(length: Bytes, path: Bytes)
    ensures Ascii("d") + ((Ascii("6:lengthi") + length + Ascii("e")) + ((Ascii("4:pathl") + path + Ascii("e")) + []))
            + Ascii("e")
      == Ascii("d6:lengthi") + length + Ascii("e4:pathl") + path + Ascii("ee")
  {
    FileLiterals();
    hide Ascii;
    var start := Ascii("d") + Ascii("6:lengthi") + length;
    assert start + Ascii("e") + (Ascii("4:pathl") + path + Ascii("e")) + Ascii("e")
      == start + (Ascii("e") + Ascii("4:pathl")) + path + (Ascii("e") + Ascii("e"));
  }

  lemma FileLiterals()
    ensures Ascii("d6:lengthi") == Ascii("d") + Ascii("6:lengthi") && Ascii("e4:pathl") == Ascii("e") + Ascii("4:pathl")
    ensures Ascii("ee") == Ascii("e") + Ascii("e")
  {
  }

  lemma {:induction false} FilesPrinted(files: seq<ListedFile>)
    ensures EncodeItems(FileValues(files)) == FileBytes(files)
  {
    hide Encode, Ascii, FileValue, Print, SizedAll;
    if files != [] {
      assert FileValues(files)[1..] == FileValues(files[1..]);
      FilesPrinted(files[1..]);
      FilePrinted(files[0]);
    }
  }

  lemma ContentPrinted(d: Description)
    ensures SlotBytes(InfoSlots(d)[0]) + SlotBytes(InfoSlots(d)[1]) == ContentBytes(d.content)
  {
    hide Ascii, SlotBytes, EncodeString, Print, FileBytes, FileValues;
    ShortKeysPrinted();
    NothingThere("files");
    NothingThere("length");
    match d.content
    case OneFile(length) =>
      NumberSlot("length", "6:length", length);
      assert "6:length" + "i" == "6:lengthi";
    case ManyFiles(files) =>
      ListSlot("files", "5:files", FileValues(files));
      assert "5:files" + "l" == "5:filesl";
      FilesPrinted(files);
  }

  lemma NothingThere(key: string)
    ensures SlotBytes(Slot(key, None)) == []
  {
  }

  lemma PrivatePrinted(d: Description)
    ensures SlotBytes(InfoSlots(d)[5]) == if d.isPrivate then Ascii("7:privatei1e") else []
  {
    ShortKeysPrinted();
    NumberSlot("private", "7:private", 1);
    assert Print(1) == Ascii("1");
    AsciiJoins("7:private" + "i", "1");
    AsciiJoins("7:private" + "i" + "1", "e");
    assert "7:private" + "i" + "1" + "e" == "7:privatei1e";
    hide Ascii, SlotBytes, EncodeString, Print, FileValues;
    NothingThere("private");
  }

  lemma RestPrinted(d: Description)
    ensures SlotBytes(InfoSlots(d)[2]) == Ascii("4:name") + Sized(d.name)
    ensures SlotBytes(InfoSlots(d)[3]) == Ascii("12:piece lengthi") + Print(d.pieceLength) + Ascii("e")
    ensures SlotBytes(InfoSlots(d)[4]) == Ascii("6:pieces") + Sized(d.pieces)
  {
    hide Ascii, SlotBytes, EncodeString, Print, Sized, FileValues;
    ShortKeysPrinted();
    LongKeysPrinted();
    StringSlot("name", "4:name", d.name);
    NumberSlot("piece length", "12:piece length", d.pieceLength);
    StringSlot("pieces", "6:pieces", d.pieces);
    assert "12:piece length" + "i" == "12:piece lengthi";
  }

  lemma InfoPrinted(d: Description)
    ensures Encode(InfoValue(d)) == InfoBytes(d)
  {
    hide Ascii, SlotBytes, Print, Sized, FileValues, ContentBytes, Encode;
    var slots := InfoSlots(d);
    LaidPrinted(slots);
    assert slots[0..] == slots;
    SlotsFrom(slots, 0);
    SlotsFrom(slots, 1);
    SlotsFrom(slots, 2);
    SlotsFrom(slots, 3);
    SlotsFrom(slots, 4);
    SlotsFrom(slots, 5);
    SlotsFrom(slots, 6);
    ContentPrinted(d);
    RestPrinted(d);
    PrivatePrinted(d);
    GrammarIs(0, [], [], Laid(slots));
    SixParts(Ascii("d"), SlotBytes(slots[0]), SlotBytes(slots[1]), SlotBytes(slots[2]), SlotBytes(slots[3]),
             SlotBytes(slots[4]), SlotBytes(slots[5]), Ascii("e"));
  }

  lemma SixParts(open: Bytes, a: Bytes, b: Bytes, c: Bytes, d: Bytes, e: Bytes, f: Bytes, close: Bytes)
    ensures open + (a + (b + (c + (d + (e + (f + [])))))) + close == open + (a + b) + c + d + e + f + close
  {
    assert f + [] == f;
    assert a + (b + (c + (d + (e + f)))) == (a + b) + c + d + e + f;
  }

  lemma FilledPrinted(key: string, sizedKey: string, b: Option<Bytes>)
    requires EncodeString(Ascii(key)) == Ascii(sizedKey)
    ensures SlotBytes(Slot(key, Filled(b))) == IfThere(sizedKey, b)
  {
    hide Ascii, SlotBytes, EncodeString, Sized;
    match b
    case None => NothingThere(key);
    case Some(s) => StringSlot(key, sizedKey, s);
  }

  lemma TextsPrinted(d: Description)
    ensures SlotBytes(RootSlots(d)[0]) == IfThere("8:announce", d.announce)
    ensures SlotBytes(RootSlots(d)[2]) == IfThere("7:comment", d.comment)
    ensures SlotBytes(RootSlots(d)[3]) == IfThere("10:created by", d.createdBy)
  {
    hide Ascii, SlotBytes, EncodeString, IfThere, InfoValue, Filled;
    ShortKeysPrinted();
    LongKeysPrinted();
    FilledPrinted("announce", "8:announce", d.announce);
    FilledPrinted("comment", "7:comment", d.comment);
    FilledPrinted("created by", "10:created by", d.createdBy);
  }

  lemma LinksPrinted(d: Description)
    ensures SlotBytes(RootSlots(d)[1]) == TiersThere(d.tiers)
    ensures SlotBytes(RootSlots(d)[4]) == CreatedThere(d.created)
    ensures SlotBytes(RootSlots(d)[6]) == UrlsThere(d.urls)
  {
    hide Ascii, SlotBytes, EncodeString, InfoValue, Filled, TierBytes, SizedAll, Print, Rewrap.Tiers, Rewrap.Strings;
    ShortKeysPrinted();
    LongKeysPrinted();
    NothingThere("announce-list");
    NothingThere("creation date");
    NothingThere("url-list");
    if d.tiers != [] {
      ListSlot("announce-list", "13:announce-list", Rewrap.Tiers(d.tiers).items);
      TiersPrinted(d.tiers);
      assert "13:announce-list" + "l" == "13:announce-listl";
    }
    if d.created.Some? {
      NumberSlot("creation date", "13:creation date", d.created.value);
      assert "13:creation date" + "i" == "13:creation datei";
    }
    if d.urls != [] {
      ListSlot("url-list", "8:url-list", Rewrap.Strings(d.urls).items);
      StringsPrinted(d.urls);
      assert "8:url-list" + "l" == "8:url-listl";
    }
  }

  lemma InfoSlotPrinted(d: Description)
    ensures SlotBytes(RootSlots(d)[5]) == Ascii("4:info") + InfoBytes(d)
  {
    hide Ascii, EncodeString, InfoValue, InfoBytes, Encode, Filled;
    ShortKeysPrinted();
    InfoPrinted(d);
  }

  lemma RootPrinted(d: Description)
    ensures Encode(RootValue(d)) == TorrentBytes(d)
  {
    hide Ascii, SlotBytes, InfoValue, InfoBytes, Encode, Filled, IfThere, SizedAll, TierBytes, Print;
    var slots := RootSlots(d);
    LaidPrinted(slots);
    assert slots[0..] == slots;
    SlotsFrom(slots, 0);
    SlotsFrom(slots, 1);
    SlotsFrom(slots, 2);
    SlotsFrom(slots, 3);
    SlotsFrom(slots, 4);
    SlotsFrom(slots, 5);
    SlotsFrom(slots, 6);
    SlotsFrom(slots, 7);
    TextsPrinted(d);
    LinksPrinted(d);
    InfoSlotPrinted(d);
    GrammarIs(0, [], [], Laid(slots));
    SevenParts(Ascii("d"), SlotBytes(slots[0]), SlotBytes(slots[1]), SlotBytes(slots[2]), SlotBytes(slots[3]),
               SlotBytes(slots[4]), SlotBytes(slots[5]), SlotBytes(slots[6]), Ascii("e"));
  }

  lemma SevenParts(open: Bytes, a: Bytes, b: Bytes, c: Bytes, d: Bytes, e: Bytes, f: Bytes, g: Bytes, close: Bytes)
    ensures open + (a + (b + (c + (d + (e + (f + (g + []))))))) + close
      == open + a + b + c + d + e + f + g + close
  {
    assert g + [] == g;
    assert a + (b + (c + (d + (e + (f + g))))) == a + b + c + d + e + f + g;
  }

  // ----- opened again

  /** Valid text of a length the machine can count. */
  ghost predicate IsText(lossy: Bytes -> Bytes, b: Bytes) {
    lossy(b) == b && |b| <= USIZE_MAX
  }

  ghost predicate AreTexts(lossy: Bytes -> Bytes, strings: seq<Bytes>) {
    forall i :: 0 <= i < |strings| ==> IsText(lossy, strings[i])
  }

  ghost predicate FileProper(lossy: Bytes -> Bytes, f: ListedFile) {
    && f.length <= I64_MAX && AreTexts(lossy, f.path)
    && forall i :: 0 <= i < |f.path| ==> PlainComponent(f.path[i])
  }

  ghost predicate ContentProper(lossy: Bytes -> Bytes, content: Content) {
    match content
    case OneFile(length) => length <= I64_MAX
    case ManyFiles(files) => forall i :: 0 <= i < |files| ==> FileProper(lossy, files[i])
  }

  ghost predicate LinksProper(lossy: Bytes -> Bytes, d: Description) {
    && AreTexts(lossy, d.urls) && forall i :: 0 <= i < |d.tiers| ==> AreTexts(lossy, d.tiers[i])
  }

  /** Numbers of 64 bits, valid text, whole hashes, and paths that stay inside. */
  ghost predicate Proper(lossy: Bytes -> Bytes, d: Description) {
    && IsText(lossy, d.name) && |d.pieces| <= USIZE_MAX && |d.pieces| % 20 == 0
    && d.pieceLength <= I64_MAX && ContentProper(lossy, d.content) && LinksProper(lossy, d)
    && (d.announce.Some? ==> IsText(lossy, d.announce.value)) && (d.comment.Some? ==> IsText(lossy, d.comment.value))
    && (d.createdBy.Some? ==> IsText(lossy, d.createdBy.value)) && (d.created.Some? ==> d.created.value <= I64_MAX)
  }

  /** A slot whose value can be held, nested at most `h` levels inside. */
  ghost predicate SlotOk(lossy: Bytes -> Bytes, s: Slot, h: nat) {
    && lossy(Ascii(s.key)) == Ascii(s.key) && |s.key| <= USIZE_MAX
    && (s.value.Some? ==> WellFormed(lossy, s.value.value) && Height(s.value.value) <= h)
  }

  lemma LaidOk(lossy: Bytes -> Bytes, slots: seq<Slot>, h: nat)
    requires InOrder(slots) && forall i :: 0 <= i < |slots| ==> SlotOk(lossy, slots[i], h)
    ensures WellFormed(lossy, Dict(Laid(slots))) && Height(Dict(Laid(slots))) <= h + 1
    ensures forall i :: 0 <= i < |Laid(slots)| ==> Height(Laid(slots)[i].value) <= h
  {
    hide Ascii;
    LaidSorted(slots);
    var entries := Laid(slots);
    forall i | 0 <= i < |entries| ensures EntryOk(lossy, entries[i]) && Height(entries[i].value) <= h {
      assert FromSlot(slots, entries[i]);
    }
    EntriesHeightBound(entries, h);
  }

  lemma KeysFit(lossy: Bytes -> Bytes, slots: seq<Slot>)
    requires Utf8Lossy(lossy)
    requires forall i :: 0 <= i < |slots| ==>
      |slots[i].key| < 20 && forall c :: c in slots[i].key ==> c < 128 as char
    ensures forall i :: 0 <= i < |slots| ==>
      lossy(Ascii(slots[i].key)) == Ascii(slots[i].key) && |slots[i].key| <= USIZE_MAX
  {
    hide Utf8Lossy, Ascii;
    forall i | 0 <= i < |slots| ensures lossy(Ascii(slots[i].key)) == Ascii(slots[i].key) {
      assert forall k :: 0 <= k < |slots[i].key| ==> slots[i].key[k] in slots[i].key;
      AsciiKeyFits(lossy, slots[i].key);
    }
  }

  lemma FileHeld(lossy: Bytes -> Bytes, f: ListedFile)
    requires Utf8Lossy(lossy) && FileProper(lossy, f)
    ensures WellFormed(lossy, FileValue(f)) && Height(FileValue(f)) <= 2
  {
    var slots := FileSlots(f);
    hide Utf8Lossy, Ascii, PlainComponent, Rewrap.Strings;
    KeysFit(lossy, slots);
    Rewrap.StringsOk(lossy, f.path);
    FileOrdered(f);
    assert Height(Integer(f.length)) == 0 && WellFormed(lossy, Integer(f.length));
    LaidOk(lossy, slots, 1);
  }

  lemma FilesHeld(lossy: Bytes -> Bytes, files: seq<ListedFile>)
    requires Utf8Lossy(lossy) && forall i :: 0 <= i < |files| ==> FileProper(lossy, files[i])
    ensures WellFormed(lossy, List(FileValues(files))) && Height(List(FileValues(files))) <= 3
  {
    hide Utf8Lossy, FileProper, FileValue, Height, WellFormed;
    forall i | 0 <= i < |files| ensures WellFormed(lossy, FileValue(files[i])) && Height(FileValue(files[i])) <= 2 {
      FileHeld(lossy, files[i]);
    }
    ItemsHeightBound(FileValues(files), 2);
    ListHeld(lossy, FileValues(files), 2);
  }

  lemma ListHeld(lossy: Bytes -> Bytes, items: seq<Value>, h: nat)
    requires ItemsHeight(items) <= h && forall i :: 0 <= i < |items| ==> WellFormed(lossy, items[i])
    ensures WellFormed(lossy, List(items)) && Height(List(items)) <= h + 1
  {
  }

  lemma LeafHeld(lossy: Bytes -> Bytes, n: int, b: Bytes)
    ensures I64_MIN <= n <= I64_MAX ==> WellFormed(lossy, Integer(n)) && Height(Integer(n)) == 0
    ensures |b| <= USIZE_MAX ==> WellFormed(lossy, ByteString(b)) && Height(ByteString(b)) == 0
  {
  }

  lemma InfoHeld(lossy: Bytes -> Bytes, d: Description)
    requires Utf8Lossy(lossy) && Proper(lossy, d)
    ensures WellFormed(lossy, InfoValue(d)) && Height(InfoValue(d)) <= 4
  {
    var slots := InfoSlots(d);
    hide Utf8Lossy, Ascii, FileProper, FileValues, Height, WellFormed;
    KeysFit(lossy, slots);
    InfoOrdered(d);
    if d.content.ManyFiles? {
      FilesHeld(lossy, d.content.files);
    } else {
      LeafHeld(lossy, d.content.length, []);
    }
    LeafHeld(lossy, d.pieceLength, d.name);
    LeafHeld(lossy, 1, d.pieces);
    LaidOk(lossy, slots, 3);
  }

  lemma TextsHeld(lossy: Bytes -> Bytes, d: Description)
    requires Proper(lossy, d)
    ensures d.announce.Some? ==> Held(lossy, ByteString(d.announce.value))
    ensures d.comment.Some? ==> Held(lossy, ByteString(d.comment.value))
    ensures d.createdBy.Some? ==> Held(lossy, ByteString(d.createdBy.value))
    ensures d.created.Some? ==> Held(lossy, Integer(d.created.value))
    ensures Held(lossy, Rewrap.Tiers(d.tiers)) && Held(lossy, Rewrap.Strings(d.urls))
  {
    hide ContentProper, Height, WellFormed, Rewrap.Tiers, Rewrap.Strings;
    Rewrap.TiersOk(lossy, d.tiers);
    Rewrap.StringsOk(lossy, d.urls);
    if d.announce.Some? {
      LeafHeld(lossy, 0, d.announce.value);
    }
    if d.comment.Some? {
      LeafHeld(lossy, 0, d.comment.value);
    }
    if d.createdBy.Some? {
      LeafHeld(lossy, 0, d.createdBy.value);
    }
    if d.created.Some? {
      LeafHeld(lossy, d.created.value, []);
    }
  }

  ghost predicate Held(lossy: Bytes -> Bytes, v: Value) {
    WellFormed(lossy, v) && Height(v) <= 4
  }

  lemma RootValuesHeld(lossy: Bytes -> Bytes, d: Description)
    requires Utf8Lossy(lossy) && Proper(lossy, d)
    ensures forall i :: 0 <= i < |RootSlots(d)| && RootSlots(d)[i].value.Some? ==>
      Held(lossy, RootSlots(d)[i].value.value)
  {
    hide Utf8Lossy, Ascii, InfoValue, Proper, Held, Rewrap.Tiers, Rewrap.Strings;
    InfoHeld(lossy, d);
    assert Held(lossy, InfoValue(d)) by {
      HeldIs(lossy, InfoValue(d));
    }
    TextsHeld(lossy, d);
  }

  lemma HeldIs(lossy: Bytes -> Bytes, v: Value)
    ensures Held(lossy, v) <==> WellFormed(lossy, v) && Height(v) <= 4
  {
  }

  lemma RootSlotsFit(lossy: Bytes -> Bytes, d: Description)
    requires Utf8Lossy(lossy) && Proper(lossy, d)
    ensures forall i :: 0 <= i < |RootSlots(d)| ==> SlotOk(lossy, RootSlots(d)[i], 4)
  {
    RootKeysFit(lossy, d);
    hide Utf8Lossy, Ascii, Proper, RootSlots, WellFormed, Height;
    RootValuesHeld(lossy, d);
  }

  lemma RootKeysFit(lossy: Bytes -> Bytes, d: Description)
    requires Utf8Lossy(lossy)
    ensures forall i :: 0 <= i < |RootSlots(d)| ==>
      lossy(Ascii(RootSlots(d)[i].key)) == Ascii(RootSlots(d)[i].key) && |RootSlots(d)[i].key| <= USIZE_MAX
  {
    hide Utf8Lossy, Ascii, InfoValue, Filled, Rewrap.Tiers, Rewrap.Strings;
    KeysFit(lossy, RootSlots(d));
  }

  lemma RootHeld(lossy: Bytes -> Bytes, d: Description)
    requires Utf8Lossy(lossy) && Proper(lossy, d)
    ensures WellFormed(lossy, RootValue(d)) && Height(RootValue(d)) <= 5
    ensures forall i :: 0 <= i < |Laid(RootSlots(d))| ==> Height(Laid(RootSlots(d))[i].value) <= 4
  {
    hide Utf8Lossy, Ascii, Height, WellFormed, Proper, RootSlots, SlotOk;
    RootSlotsFit(lossy, d);
    RootOrdered(d);
    LaidOk(lossy, RootSlots(d), 4);
  }

  // ----- what it opens to

  lemma RootLooksUp(d: Description)
    ensures var root := Laid(RootSlots(d));
      && Get(root, Ascii("announce")) == Filled(d.announce)
      && Get(root, Ascii("announce-list")) == (if d.tiers == [] then None else Some(Rewrap.Tiers(d.tiers)))
      && Get(root, Ascii("comment")) == Filled(d.comment)
      && Get(root, Ascii("created by")) == Filled(d.createdBy)
      && Get(root, Ascii("creation date")) == (if d.created.None? then None else Some(Integer(d.created.value)))
      && Get(root, Ascii("info")) == Some(InfoValue(d))
      && Get(root, Ascii("url-list")) == (if d.urls == [] then None else Some(Rewrap.Strings(d.urls)))
  {
    hide Ascii, InfoValue, Rewrap.Tiers, Rewrap.Strings, Filled, Get, Laid;
    var slots := RootSlots(d);
    RootOrdered(d);
    GetLaid(slots, 0);
    GetLaid(slots, 1);
    GetLaid(slots, 2);
    GetLaid(slots, 3);
    GetLaid(slots, 4);
    GetLaid(slots, 5);
    GetLaid(slots, 6);
  }

  lemma InfoLooksUp(d: Description)
    ensures var info := Laid(InfoSlots(d));
      && Get(info, Ascii("files"))
         == (if d.content.ManyFiles? then Some(List(FileValues(d.content.files))) else None)
      && Get(info, Ascii("length")) == (if d.content.OneFile? then Some(Integer(d.content.length)) else None)
      && Get(info, Ascii("name")) == Some(ByteString(d.name))
      && Get(info, Ascii("piece length")) == Some(Integer(d.pieceLength))
      && Get(info, Ascii("pieces")) == Some(ByteString(d.pieces))
      && Get(info, Ascii("private")) == (if d.isPrivate then Some(Integer(1)) else None)
  {
    hide Ascii, FileValues, Get, Laid;
    var slots := InfoSlots(d);
    InfoOrdered(d);
    GetLaid(slots, 0);
    GetLaid(slots, 1);
    GetLaid(slots, 2);
    GetLaid(slots, 3);
    GetLaid(slots, 4);
    GetLaid(slots, 5);
  }

  lemma FileLooksUp(lossy: Bytes -> Bytes, f: ListedFile)
    requires FileProper(lossy, f)
    ensures LengthOf(FileValue(f)) == Some(f.length) && PathOf(FileValue(f)).Some?
    ensures StringsIn(lossy, PathOf(FileValue(f)).value) == f.path
    ensures FileOk(lossy, FileValue(f))
  {
    hide Ascii, Get, Laid, PlainComponent, Rewrap.Strings;
    var slots := FileSlots(f);
    FileOrdered(f);
    GetLaid(slots, 0);
    GetLaid(slots, 1);
    Rewrap.StringsComeBack(lossy, f.path);
  }

  /** The files of a torrent: one of its name, or those listed, end to end, below its name. */
  ghost predicate FilesAre(d: Description, files: seq<FileInfo>) {
    match d.content
    case OneFile(length) => files == [FileInfo(d.name, length, 0)]
    case ManyFiles(listed) =>
      && Contiguous(files) && |files| == |listed|
      && forall i :: 0 <= i < |files| ==>
        files[i].length == listed[i].length && files[i].path == JoinPath(d.name, listed[i].path)
  }

  lemma FilesOpen(lossy: Bytes -> Bytes, d: Description)
    requires Proper(lossy, d)
    ensures NameIn(lossy, Laid(InfoSlots(d))) == d.name
    ensures FilesIn(lossy, Laid(InfoSlots(d))).Some? && FilesAre(d, FilesIn(lossy, Laid(InfoSlots(d))).value)
  {
    hide Ascii, Get, Laid, InfoSlots, FileValue, FileProper, LengthOf, PathOf, StringsIn, FileOk;
    InfoLooksUp(d);
    if d.content.ManyFiles? {
      var listed := d.content.files;
      forall i | 0 <= i < |listed|
        ensures FileOk(lossy, FileValue(listed[i]))
      {
        FileLooksUp(lossy, listed[i]);
      }
      FileListIs(lossy, FileValues(listed), d.name);
      FilesMatch(lossy, d, FileList(lossy, FileValues(listed), d.name).value);
    }
  }

  lemma LengthFits(lossy: Bytes -> Bytes, f: ListedFile)
    requires FileProper(lossy, f)
    ensures f.length <= I64_MAX
  {
  }

  lemma FilesMatch(lossy: Bytes -> Bytes, d: Description, files: seq<FileInfo>)
    requires d.content.ManyFiles? && Contiguous(files) && |files| == |d.content.files|
    requires forall i :: 0 <= i < |files| ==> Describes(lossy, d.name, FileValue(d.content.files[i]), files[i])
    requires forall f :: f in d.content.files ==> FileProper(lossy, f)
    ensures FilesAre(d, files)
  {
    hide FileValue, FileProper, LengthOf, PathOf, StringsIn, FileOk, JoinPath;
    forall i | 0 <= i < |files|
      ensures files[i].length == d.content.files[i].length
      ensures files[i].path == JoinPath(d.name, d.content.files[i].path)
    {
      var f := d.content.files[i];
      assert Describes(lossy, d.name, FileValue(f), files[i]) && FileProper(lossy, f);
      FileLooksUp(lossy, f);
      LengthFits(lossy, f);
    }
  }

  lemma TorrentDescribed(lossy: Bytes -> Bytes, d: Description)
    requires Proper(lossy, d)
    ensures var files := FilesIn(lossy, Laid(InfoSlots(d)));
      && files.Some? && FilesAre(d, files.value)
      && TorrentIn(lossy, Laid(InfoSlots(d)))
         == Some(Torrent(d.name, d.pieceLength, Hashes(d.pieces), files.value, TotalSize(files.value), d.isPrivate))
  {
    hide Ascii, Get, Laid, InfoSlots, FilesIn, FilesAre, TotalSize;
    InfoLooksUp(d);
    FilesOpen(lossy, d);
  }

  lemma TextsOpen(lossy: Bytes -> Bytes, d: Description)
    requires Proper(lossy, d)
    ensures var root := Laid(RootSlots(d));
      && StringAt(lossy, root, Ascii("announce")) == d.announce && StringAt(lossy, root, Ascii("comment")) == d.comment
      && StringAt(lossy, root, Ascii("created by")) == d.createdBy
      && IntegerAt(root, Ascii("creation date")) == d.created
      && TiersAt(lossy, root) == d.tiers && UrlsAt(lossy, root) == d.urls
  {
    hide Ascii, Get, Laid, RootSlots, ContentProper, Rewrap.Tiers, Rewrap.Strings;
    RootLooksUp(d);
    Rewrap.StringsComeBack(lossy, d.urls);
    TiersAreTexts(lossy, d.tiers);
    Rewrap.TiersComeBack(lossy, d.tiers);
  }

  lemma TiersAreTexts(lossy: Bytes -> Bytes, tiers: seq<seq<Bytes>>)
    requires forall i :: 0 <= i < |tiers| ==> AreTexts(lossy, tiers[i])
    ensures forall i, j :: 0 <= i < |tiers| && 0 <= j < |tiers[i]| ==> lossy(tiers[i][j]) == tiers[i][j]
  {
    forall i, j | 0 <= i < |tiers| && 0 <= j < |tiers[i]| ensures lossy(tiers[i][j]) == tiers[i][j] {
      assert AreTexts(lossy, tiers[i]) && IsText(lossy, tiers[i][j]);
    }
  }

  lemma RootParses(lossy: Bytes -> Bytes, d: Description)
    requires Utf8Lossy(lossy) && Proper(lossy, d)
    ensures Parse(lossy, TorrentBytes(d)) == Some(RootValue(d))
    ensures InfoRaw(lossy, TorrentBytes(d)) == Some(InfoBytes(d))
  {
    hide Utf8Lossy, Proper, Encode, InfoRaw, Laid, RootSlots, InfoValue, TorrentBytes, InfoBytes, WellFormed, Height;
    var root := Laid(RootSlots(d));
    RootHeld(lossy, d);
    RootPrinted(d);
    InfoPrinted(d);
    RoundTrip(lossy, RootValue(d), []);
    assert TorrentBytes(d) + [] == TorrentBytes(d);
    InfoRawOfPrinted(lossy, root, []);
    ReachableInfoIsGet(root);
    RootLooksUp(d);
  }

  /** A torrent of these bytes opens, to what it says, under the hash of its info dictionary. */
  lemma TorrentOpens(lossy: Bytes -> Bytes, sha1: Bytes -> Bytes, d: Description)
    requires Utf8Lossy(lossy) && Proper(lossy, d)
    ensures var meta := Opened(lossy, sha1, TorrentBytes(d));
      && meta.Some? && FilesAre(d, meta.value.torrent.files)
      && meta == Some(MetaInfo(
           sha1(InfoBytes(d)),
           Torrent(d.name, d.pieceLength, Hashes(d.pieces), meta.value.torrent.files,
                   TotalSize(meta.value.torrent.files), d.isPrivate),
           d.announce, d.tiers, d.urls, d.comment, d.createdBy, d.created))
  {
    hide Utf8Lossy, Proper, Parse, InfoRaw, Laid, RootSlots, InfoSlots, TorrentBytes, InfoBytes, Ascii, StringAt;
    hide TiersAt, UrlsAt, TorrentIn, FilesAre, FilesIn;
    RootParses(lossy, d);
    RootLooksUp(d);
    TextsOpen(lossy, d);
    TorrentDescribed(lossy, d);
  }

  /** What the rewrap makes of an info dictionary of these bytes is the torrent of these bytes. */
  lemma WrappedBytes(lossy: Bytes -> Bytes, d: Description)
    requires Utf8Lossy(lossy) && Proper(lossy, d) && d.comment.None? && d.createdBy.None? && d.created.None?
    ensures Rewrap.Wrapped(lossy, InfoBytes(d), Rewrap.Links(d.announce, d.tiers, d.urls)) == TorrentBytes(d)
  {
    hide Utf8Lossy, Proper, Encode, Rewrap.Root, TorrentBytes, InfoBytes, WellFormed, Height, Laid, RootSlots;
    hide InfoValue;
    InfoHeld(lossy, d);
    InfoPrinted(d);
    RootPrinted(d);
    RoundTrip(lossy, InfoValue(d), []);
    assert InfoBytes(d) + [] == InfoBytes(d);
    SameRoot(d);
  }

  lemma SameRoot(d: Description)
    requires d.comment.None? && d.createdBy.None? && d.created.None?
    ensures Laid(RootSlots(d)) == Rewrap.Root(InfoValue(d), Rewrap.Links(d.announce, d.tiers, d.urls))
  {
    hide Ascii, InfoValue, Rewrap.Tiers, Rewrap.Strings;
    var slots := RootSlots(d);
    assert slots[0..] == slots;
    LaidFrom(slots, 0);
    LaidFrom(slots, 1);
    LaidFrom(slots, 2);
    LaidFrom(slots, 3);
    LaidFrom(slots, 4);
    LaidFrom(slots, 5);
    LaidFrom(slots, 6);
    LaidFrom(slots, 7);
    hide Laid, LaidOne, Rewrap.BeforeInfo, Rewrap.AfterInfo;
    LinksLaid(d);
    SevenLaid(LaidOne(slots[0]), LaidOne(slots[1]), LaidOne(slots[5]), LaidOne(slots[6]));
  }

  lemma LinksLaid(d: Description)
    requires d.comment.None? && d.createdBy.None? && d.created.None?
    ensures var slots, links := RootSlots(d), Rewrap.Links(d.announce, d.tiers, d.urls);
      && LaidOne(slots[0]) + LaidOne(slots[1]) == Rewrap.BeforeInfo(links)
      && LaidOne(slots[2]) == [] && LaidOne(slots[3]) == [] && LaidOne(slots[4]) == []
      && LaidOne(slots[5]) == [Entry(Ascii("info"), InfoValue(d))]
      && LaidOne(slots[6]) == Rewrap.AfterInfo(links)
  {
    hide Ascii, InfoValue, Rewrap.Tiers, Rewrap.Strings;
  }

  lemma SevenLaid(a: seq<Entry>, b: seq<Entry>, info: seq<Entry>, after: seq<Entry>)
    ensures a + (b + ([] + ([] + ([] + (info + (after + [])))))) == (a + b) + (info + after)
  {
    assert after + [] == after && [] + (info + after) == info + after;
  }
}
