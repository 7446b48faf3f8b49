/** Turning a verified info dictionary into torrent bytes again
    (src/network.rs, `wrap_info_dict_with_trackers`) and opening the result
    (src/metainfo.rs, `from_bytes`). */
module Rewrap {
  import opened Bytes
  import opened Decimals
  import opened Bencode
  import opened BencodeParser
  import opened Canonicals
  import opened Layouts
  import opened Metainfo

  /** The trackers and web seeds of a magnet link. */
  datatype Links = Links(announce: Option<Bytes>, tiers: seq<seq<Bytes>>, urls: seq<Bytes>)

  function Strings(urls: seq<Bytes>): (r: Value)
    ensures r.List? && |r.items| == |urls| && forall i :: 0 <= i < |urls| ==> r.items[i] == ByteString(urls[i])
  {
    List(seq(|urls|, i requires 0 <= i < |urls| => ByteString(urls[i])))
  }

  function Tiers(tiers: seq<seq<Bytes>>): (r: Value)
    ensures r.List? && |r.items| == |tiers| && forall i :: 0 <= i < |tiers| ==> r.items[i] == Strings(tiers[i])
  {
    List(seq(|tiers|, i requires 0 <= i < |tiers| => Strings(tiers[i])))
  }

  // ----- the root dictionary, in key order

  ghost function BeforeInfo(links: Links): seq<Entry> {
    (match links.announce case None => [] case Some(a) => [Entry(Ascii("announce"), ByteString(a))])
    + (if links.tiers == [] then [] else [Entry(Ascii("announce-list"), Tiers(links.tiers))])
  }

  ghost function AfterInfo(links: Links): seq<Entry> {
    if links.urls == [] then [] else [Entry(Ascii("url-list"), Strings(links.urls))]
  }

  ghost function Root(info: Value, links: Links): seq<Entry> {
    BeforeInfo(links) + ([Entry(Ascii("info"), info)] + AfterInfo(links))
  }

  /** What the rewrapped bytes are; a dictionary that does not parse is spliced in raw. */
  ghost function Wrapped(lossy: Bytes -> Bytes, infoDict: Bytes, links: Links): Bytes {
    match Parse(lossy, infoDict)
    case None => Ascii("d4:info") + infoDict + [B_E]
    case Some(info) => Encode(Dict(Root(info, links)))
  }

  method WrapInfoDictWithTrackers(lossy: Bytes -> Bytes, infoDict: Bytes, links: Links) returns (data: Bytes)
    ensures data == Wrapped(lossy, infoDict, links)
  {
    hide Parse, Encode, Root, Insert, Tiers, Strings;
    match Parse(lossy, infoDict)
    case None =>
      data := Ascii("d4:info");
      data := data + infoDict;
      data := data + [B_E];
    case Some(info) =>
      var root: seq<Entry> := Insert([], Ascii("info"), info);
      if links.announce.Some? {
        root := Insert(root, Ascii("announce"), ByteString(links.announce.value));
      }
      if links.tiers != [] {
        root := Insert(root, Ascii("announce-list"), Tiers(links.tiers));
      }
      if links.urls != [] {
        root := Insert(root, Ascii("url-list"), Strings(links.urls));
      }
      InsertedInKeyOrder(info, links, root);
      data := Encode(Dict(root));
  }

  lemma KeyOrder()
    ensures KeyLess(Ascii("announce"), Ascii("announce-list")) && !KeyLess(Ascii("announce-list"), Ascii("announce"))
    ensures KeyLess(Ascii("announce"), Ascii("info")) && KeyLess(Ascii("announce-list"), Ascii("info"))
    ensures KeyLess(Ascii("announce"), Ascii("url-list")) && !KeyLess(Ascii("url-list"), Ascii("announce"))
    ensures KeyLess(Ascii("announce-list"), Ascii("url-list")) && !KeyLess(Ascii("url-list"), Ascii("announce-list"))
    ensures KeyLess(Ascii("info"), Ascii("url-list")) && !KeyLess(Ascii("url-list"), Ascii("info"))
  {
    hide KeyLess;
    KeyLessAt(Ascii("announce"), Ascii("announce-list"), 8);
    KeyLessAt(Ascii("announce"), Ascii("info"), 0);
    KeyLessAt(Ascii("announce-list"), Ascii("info"), 0);
    KeyLessAt(Ascii("announce"), Ascii("url-list"), 0);
    KeyLessAt(Ascii("announce-list"), Ascii("url-list"), 0);
    KeyLessAt(Ascii("info"), Ascii("url-list"), 0);
  }

  lemma InsertFirst(entries: seq<Entry>, key: Bytes, value: Value)
    requires entries != [] ==> KeyLess(key, entries[0].key) && key != entries[0].key
    ensures Insert(entries, key, value) == [Entry(key, value)] + entries
  {
  }

  lemma InsertSecond(first: Entry, rest: seq<Entry>, key: Bytes, value: Value)
    requires first.key != key && !KeyLess(key, first.key)
    requires rest != [] ==> KeyLess(key, rest[0].key) && key != rest[0].key
    ensures Insert([first] + rest, key, value) == [first] + ([Entry(key, value)] + rest)
  {
    assert ([first] + rest)[1..] == rest;
  }

  lemma InsertedInKeyOrder(info: Value, links: Links, root: seq<Entry>)
    requires root ==
      var r0 := Insert([], Ascii("info"), info);
      var r1 := if links.announce.Some? then Insert(r0, Ascii("announce"), ByteString(links.announce.value)) else r0;
      var r2 := if links.tiers != [] then Insert(r1, Ascii("announce-list"), Tiers(links.tiers)) else r1;
      if links.urls != [] then Insert(r2, Ascii("url-list"), Strings(links.urls)) else r2
    ensures root == Root(info, links)
  {
    hide Insert, KeyLess, Tiers, Strings;
    KeyOrder();
    var infos := [Entry(Ascii("info"), info)];
    InsertFirst([], Ascii("info"), info);
    assert infos + [] == infos;
    InsertedBeforeInfo(info, links);
    var r2 := BeforeInfo(links) + infos;
    if links.urls != [] {
      assert forall i :: 0 <= i < |r2| ==> KeyLess(r2[i].key, Ascii("url-list"));
      InsertLast(r2, Ascii("url-list"), Strings(links.urls));
      Regroup(BeforeInfo(links), infos, AfterInfo(links));
    } else {
      Regroup(BeforeInfo(links), infos, []);
    }
  }

  lemma Regroup<T>(a: seq<T>, b: seq<T>, c: seq<T>)
    ensures a + b + c == a + (b + c) && b + [] == b && [] + b == b
  {
  }

  lemma InsertedBeforeInfo(info: Value, links: Links)
    ensures var r0 := [Entry(Ascii("info"), info)];
      var r1 := if links.announce.Some? then Insert(r0, Ascii("announce"), ByteString(links.announce.value)) else r0;
      var r2 := if links.tiers != [] then Insert(r1, Ascii("announce-list"), Tiers(links.tiers)) else r1;
      r2 == BeforeInfo(links) + r0
  {
    hide Insert, KeyLess, Tiers, Strings;
    KeyOrder();
    var infos := [Entry(Ascii("info"), info)];
    if links.announce.Some? {
      var announce := Entry(Ascii("announce"), ByteString(links.announce.value));
      InsertFirst(infos, announce.key, announce.value);
      if links.tiers != [] {
        InsertSecond(announce, infos, Ascii("announce-list"), Tiers(links.tiers));
      }
    } else if links.tiers != [] {
      InsertFirst(infos, Ascii("announce-list"), Tiers(links.tiers));
    }
  }

  // ----- the rewrapped torrent

  ghost predicate Fits(links: Links) {
    && (links.announce.Some? ==> |links.announce.value| <= USIZE_MAX)
    && (forall i, j :: 0 <= i < |links.tiers| && 0 <= j < |links.tiers[i]| ==> |links.tiers[i][j]| <= USIZE_MAX)
    && (forall i :: 0 <= i < |links.urls| ==> |links.urls[i]| <= USIZE_MAX)
  }

  lemma {:induction false} FlatListHeight(urls: seq<Value>)
    requires forall i :: 0 <= i < |urls| ==> Height(urls[i]) <= 1
    ensures Height(List(urls)) <= 2
    ensures (forall i :: 0 <= i < |urls| ==> Height(urls[i]) == 0) ==> Height(List(urls)) <= 1
  {
    ItemsHeightBound(urls, 1);
    if forall i :: 0 <= i < |urls| ==> Height(urls[i]) == 0 {
      ItemsHeightBound(urls, 0);
    }
  }

  lemma StringsOk(lossy: Bytes -> Bytes, urls: seq<Bytes>)
    requires forall i :: 0 <= i < |urls| ==> |urls[i]| <= USIZE_MAX
    ensures WellFormed(lossy, Strings(urls)) && Height(Strings(urls)) <= 1
  {
    FlatListHeight(Strings(urls).items);
  }

  lemma TiersOk(lossy: Bytes -> Bytes, tiers: seq<seq<Bytes>>)
    requires forall i, j :: 0 <= i < |tiers| && 0 <= j < |tiers[i]| ==> |tiers[i][j]| <= USIZE_MAX
    ensures WellFormed(lossy, Tiers(tiers)) && Height(Tiers(tiers)) <= 2
  {
    forall i | 0 <= i < |tiers| ensures WellFormed(lossy, Strings(tiers[i])) && Height(Strings(tiers[i])) <= 1 {
      StringsOk(lossy, tiers[i]);
    }
    FlatListHeight(Tiers(tiers).items);
  }

  lemma LinksOk(lossy: Bytes -> Bytes, links: Links, e: Entry)
    requires Utf8Lossy(lossy) && Fits(links) && (e in BeforeInfo(links) || e in AfterInfo(links))
    ensures EntryOk(lossy, e) && Height(e.value) <= 2
  {
    hide Utf8Lossy, Tiers, Strings, WellFormed, Height;
    assert Ascii("url-list")[0] != Ascii("announce")[0];
    if e.key == Ascii("announce-list") {
      AsciiKeyFits(lossy, "announce-list");
      TiersOk(lossy, links.tiers);
    } else if e.key == Ascii("announce") {
      AsciiKeyFits(lossy, "announce");
      StringOk(lossy, e.value);
    } else {
      AsciiKeyFits(lossy, "url-list");
      StringsOk(lossy, links.urls);
    }
  }

  lemma StringOk(lossy: Bytes -> Bytes, v: Value)
    ensures v.ByteString? && |v.s| <= USIZE_MAX ==> WellFormed(lossy, v) && Height(v) == 0
  {
  }

  lemma RootSorted(info: Value, links: Links)
    ensures KeysSorted(Root(info, links))
  {
    KeyOrder();
    hide KeyLess, Tiers, Strings;
  }

  lemma RootOk(lossy: Bytes -> Bytes, info: Value, links: Links)
    requires Utf8Lossy(lossy) && Fits(links) && WellFormed(lossy, info)
    ensures WellFormed(lossy, Dict(Root(info, links)))
    ensures forall e :: e in BeforeInfo(links) || e in AfterInfo(links) ==> Height(e.value) <= 2
  {
    hide BeforeInfo, AfterInfo, Utf8Lossy, Fits, EntryOk;
    var root := Root(info, links);
    forall e | e in BeforeInfo(links) || e in AfterInfo(links) ensures EntryOk(lossy, e) && Height(e.value) <= 2 {
      LinksOk(lossy, links, e);
    }
    InfoOk(lossy, info);
    RootSorted(info, links);
    forall i | 0 <= i < |root| ensures EntryOk(lossy, root[i]) {
      assert root[i] in BeforeInfo(links) || root[i] == Entry(Ascii("info"), info) || root[i] in AfterInfo(links);
    }
  }

  lemma InfoOk(lossy: Bytes -> Bytes, info: Value)
    requires Utf8Lossy(lossy) && WellFormed(lossy, info)
    ensures EntryOk(lossy, Entry(Ascii("info"), info))
  {
    AsciiKeyFits(lossy, "info");
  }

  lemma {:induction false} ReachableBehind(before: seq<Entry>, info: Value, after: seq<Entry>)
    requires forall e :: e in before ==> e.key != Ascii("info") && Height(e.value) <= MAX_PARSE_DEPTH
    ensures ReachableInfo(before + ([Entry(Ascii("info"), info)] + after))
      == if Height(info) <= MAX_PARSE_DEPTH then Some(info) else None
    ensures Get(before + ([Entry(Ascii("info"), info)] + after), Ascii("info")) == Some(info)
  {
    var all := before + ([Entry(Ascii("info"), info)] + after);
    if before != [] {
      assert all[1..] == before[1..] + ([Entry(Ascii("info"), info)] + after);
      assert before[0] in before;
      ReachableBehind(before[1..], info, after);
    }
  }

  lemma OtherKeys(links: Links)
    ensures forall e :: e in BeforeInfo(links) ==> e.key != Ascii("info")
  {
    hide Tiers;
  }

  /** A magnet link's verified info dictionary `infoDict` comes out of the rewrapped
      torrent byte for byte, so that its recomputed hash is the verified one, exactly when
      it is canonical. A dictionary that was signed with unsorted keys or leading zeros
      gets another hash; one that does not parse is never found again. */
  lemma RewrapPreservesInfo(lossy: Bytes -> Bytes, infoDict: Bytes, links: Links)
    requires Utf8Lossy(lossy) && Fits(links) && 3 * |infoDict| <= USIZE_MAX
    ensures InfoRaw(lossy, Wrapped(lossy, infoDict, links)) == Some(infoDict) <==> Canonical(lossy, infoDict)
    ensures Parse(lossy, infoDict).Some? ==>
      InfoRaw(lossy, Wrapped(lossy, infoDict, links)) == Some(Encode(Parse(lossy, infoDict).value))
  {
    hide Utf8Lossy, Fits, InfoRaw, Root, Ascii, WellFormed, Encode, Canonical;
    CanonicalIs(lossy, infoDict);
    match Parse(lossy, infoDict)
    case None =>
      FallbackLosesInfo(lossy, infoDict);
    case Some(info) =>
      ParsedHolds(lossy, infoDict, 0, 0);
      RewrapOfValue(lossy, info, links);
  }

  lemma RewrapOfValue(lossy: Bytes -> Bytes, info: Value, links: Links)
    requires Utf8Lossy(lossy) && Fits(links) && WellFormed(lossy, info)
    ensures InfoRaw(lossy, Encode(Dict(Root(info, links))))
      == if Height(info) <= MAX_PARSE_DEPTH then Some(Encode(info)) else None
  {
    hide Utf8Lossy, Fits, InfoRaw, BeforeInfo, AfterInfo, WellFormed, Encode;
    RootOk(lossy, info, links);
    OtherKeys(links);
    ReachableBehind(BeforeInfo(links), info, AfterInfo(links));
    InfoRawOfPrinted(lossy, Root(info, links), []);
    assert Encode(Dict(Root(info, links))) + [] == Encode(Dict(Root(info, links)));
  }

  /** The torrent made of an info dictionary that does not parse never yields it. */
  lemma FallbackLosesInfo(lossy: Bytes -> Bytes, infoDict: Bytes)
    requires Parse(lossy, infoDict).None?
    ensures InfoRaw(lossy, Ascii("d4:info") + infoDict + [B_E]) != Some(infoDict)
  {
    var head := Ascii("d4:info");
    var data := head + infoDict + [B_E];
    assert data[0] == B_D && data[1..7] == EncodeString(Ascii("info"));
    PrintedStringParses(data, 1, Ascii("info"));
    PrintedStringStarts(data, 1, Ascii("info"));
    WalkPastEntry(lossy, data, 1, Ascii("info"), 7);
    hide ParsedByteString, ParsedValue;
    var v := ParsedValue(lossy, data, 7, 0);
    if v.Ok? && data[7..v.next] == infoDict {
      assert v.next == 7 + |infoDict|;
      ParsingIsLocal(lossy, data, infoDict, -7, 7, 0, 0, v.value, v.next);
      assert false;
    }
  }

  // ----- opening the rewrapped torrent

  ghost predicate AreStrings(lossy: Bytes -> Bytes, links: Links) {
    && (links.announce.Some? ==> lossy(links.announce.value) == links.announce.value)
    && (forall i, j :: 0 <= i < |links.tiers| && 0 <= j < |links.tiers[i]| ==>
      lossy(links.tiers[i][j]) == links.tiers[i][j])
    && (forall i :: 0 <= i < |links.urls| ==> lossy(links.urls[i]) == links.urls[i])
  }

  lemma {:induction false} StringsComeBack(lossy: Bytes -> Bytes, urls: seq<Bytes>)
    requires forall i :: 0 <= i < |urls| ==> lossy(urls[i]) == urls[i]
    ensures StringsIn(lossy, Strings(urls).items) == urls
  {
    if urls != [] {
      var n := |urls| - 1;
      StringsComeBack(lossy, urls[..n]);
      assert Strings(urls).items[..n] == Strings(urls[..n]).items;
      assert urls == urls[..n] + [urls[n]];
    }
  }

  lemma {:induction false} TiersComeBack(lossy: Bytes -> Bytes, tiers: seq<seq<Bytes>>)
    requires forall i, j :: 0 <= i < |tiers| && 0 <= j < |tiers[i]| ==> lossy(tiers[i][j]) == tiers[i][j]
    ensures TiersIn(lossy, Tiers(tiers).items) == tiers
  {
    if tiers != [] {
      var n := |tiers| - 1;
      TiersComeBack(lossy, tiers[..n]);
      StringsComeBack(lossy, tiers[n]);
      assert Tiers(tiers).items[..n] == Tiers(tiers[..n]).items;
      assert tiers == tiers[..n] + [tiers[n]];
    }
  }

  predicate OtherKey(k: Bytes) {
    k != Ascii("announce") && k != Ascii("announce-list") && k != Ascii("info") && k != Ascii("url-list")
  }

  lemma LinksInRoot(info: Value, links: Links)
    ensures var root := Root(info, links);
      && Get(root, Ascii("announce")) == (if links.announce.Some? then Some(ByteString(links.announce.value)) else None)
      && Get(root, Ascii("announce-list")) == (if links.tiers == [] then None else Some(Tiers(links.tiers)))
      && Get(root, Ascii("url-list")) == (if links.urls == [] then None else Some(Strings(links.urls)))
    ensures forall k :: OtherKey(k) ==> Get(Root(info, links), k) == None
  {
    hide Tiers, Strings, Ascii, Get;
    KeysDiffer();
    var e := Entry(Ascii("info"), info);
    GetAppend([e], AfterInfo(links));
    GetAppend(BeforeInfo(links), [e] + AfterInfo(links));
    GetOne(e);
    GetOne(Entry(Ascii("url-list"), Strings(links.urls)));
    GetOne(Entry(Ascii("announce-list"), Tiers(links.tiers)));
    if links.announce.Some? {
      var a := Entry(Ascii("announce"), ByteString(links.announce.value));
      GetOne(a);
      GetAppend([a], if links.tiers == [] then [] else [Entry(Ascii("announce-list"), Tiers(links.tiers))]);
    } else {
      assert BeforeInfo(links) == if links.tiers == [] then [] else [Entry(Ascii("announce-list"), Tiers(links.tiers))];
    }
  }

  lemma GetOne(e: Entry)
    ensures forall k :: Get([e], k) == if k == e.key then Some(e.value) else None
    ensures forall k :: Get([], k) == None
  {
    assert [e][1..] == [];
  }

  lemma KeysDiffer()
    ensures Ascii("announce") != Ascii("announce-list") && Ascii("announce") != Ascii("info")
    ensures Ascii("announce") != Ascii("url-list") && Ascii("announce-list") != Ascii("info")
    ensures Ascii("announce-list") != Ascii("url-list") && Ascii("info") != Ascii("url-list")
  {
    assert Ascii("announce")[0] != Ascii("url-list")[0];
  }

  lemma {:induction false} GetAppendAt(a: seq<Entry>, b: seq<Entry>, k: Bytes)
    ensures Get(a + b, k) == if Get(a, k).Some? then Get(a, k) else Get(b, k)
  {
    if a == [] {
      assert a + b == b;
    } else {
      assert (a + b)[1..] == a[1..] + b;
      GetAppendAt(a[1..], b, k);
    }
  }

  lemma GetAppend(a: seq<Entry>, b: seq<Entry>)
    ensures forall k :: Get(a + b, k) == if Get(a, k).Some? then Get(a, k) else Get(b, k)
  {
    forall k ensures Get(a + b, k) == if Get(a, k).Some? then Get(a, k) else Get(b, k) {
      GetAppendAt(a, b, k);
    }
  }

  lemma {:induction false} EntriesHeightIs(before: seq<Entry>, e: Entry, after: seq<Entry>)
    requires forall x :: x in before || x in after ==> Height(x.value) <= 2
    ensures Height(e.value) <= EntriesHeight(before + ([e] + after)) <= Max(2, Height(e.value))
  {
    var all := before + ([e] + after);
    if before == [] {
      assert all[1..] == after;
      EntriesHeightBound(after, 2);
    } else {
      assert all[1..] == before[1..] + ([e] + after);
      assert before[0] in before;
      EntriesHeightIs(before[1..], e, after);
    }
  }

  lemma OtherKeysDiffer()
    ensures OtherKey(Ascii("comment")) && OtherKey(Ascii("created by")) && OtherKey(Ascii("creation date"))
  {
    assert Ascii("comment")[0] == Ascii("created by")[0] == Ascii("creation date")[0] == 99;
    assert Ascii("announce")[0] == Ascii("announce-list")[0] == 97 && Ascii("info")[0] == 105
      && Ascii("url-list")[0] == 117;
  }

  /** What the torrent with this root opens to, as far as the links go. */
  lemma LinksComeBack(lossy: Bytes -> Bytes, info: Value, links: Links)
    requires AreStrings(lossy, links)
    ensures var root := Root(info, links);
      && StringAt(lossy, root, Ascii("announce")) == links.announce
      && TiersAt(lossy, root) == links.tiers && UrlsAt(lossy, root) == links.urls
      && StringAt(lossy, root, Ascii("comment")) == None && StringAt(lossy, root, Ascii("created by")) == None
      && IntegerAt(root, Ascii("creation date")) == None
  {
    hide Ascii, Root, Tiers, Strings, Get, OtherKey;
    LinksInRoot(info, links);
    OtherKeysDiffer();
    StringsComeBack(lossy, links.urls);
    TiersComeBack(lossy, links.tiers);
  }

  /** The rewrapped torrent opens exactly when the dictionary parses to a dictionary nested
      below the parser's limit whose entries describe a torrent, and then to that torrent with
      the same trackers and web seeds and the hash of the dictionary as it is printed. */
  lemma RewrappedTorrentOpens(lossy: Bytes -> Bytes, sha1: Bytes -> Bytes, infoDict: Bytes, links: Links)
    requires Utf8Lossy(lossy) && Fits(links) && AreStrings(lossy, links) && 3 * |infoDict| <= USIZE_MAX
    ensures var info := Parse(lossy, infoDict);
      Opened(lossy, sha1, Wrapped(lossy, infoDict, links))
      == if info.None? || !info.value.Dict? || Height(info.value) >= MAX_PARSE_DEPTH then None
         else match TorrentIn(lossy, info.value.entries)
           case None => None
           case Some(t) =>
             Some(MetaInfo(sha1(Encode(info.value)), t, links.announce, links.tiers, links.urls, None, None, None))
  {
    hide Utf8Lossy, Fits, AreStrings, InfoRaw, Root, Ascii, WellFormed, Encode, Height, TorrentIn, StringAt,
      TiersAt, UrlsAt;
    match Parse(lossy, infoDict)
    case None =>
      FallbackNeverParses(lossy, infoDict);
    case Some(info) =>
      ParsedHolds(lossy, infoDict, 0, 0);
      assert Holds(lossy, 0, info);
      RewrapOfValue(lossy, info, links);
      RewrapParses(lossy, info, links);
      LinksComeBack(lossy, info, links);
  }

  /** The torrent that a magnet link turns into has the link's hash exactly when the dictionary
      that was verified against it is canonical. */
  lemma MagnetKeepsItsHash(lossy: Bytes -> Bytes, sha1: Bytes -> Bytes, infoDict: Bytes, links: Links)
    requires Utf8Lossy(lossy) && Fits(links) && AreStrings(lossy, links) && 3 * |infoDict| <= USIZE_MAX
    requires forall d :: sha1(d) == sha1(infoDict) ==> d == infoDict
    ensures var meta := Opened(lossy, sha1, Wrapped(lossy, infoDict, links));
      meta.Some? ==> (meta.value.infoHash == sha1(infoDict) <==> Canonical(lossy, infoDict))
  {
    hide Utf8Lossy, Fits, AreStrings, Opened, Wrapped, Canonical, Encode, Height, TorrentIn, Parse;
    RewrappedTorrentOpens(lossy, sha1, infoDict, links);
    CanonicalIs(lossy, infoDict);
  }

  lemma RewrapParses(lossy: Bytes -> Bytes, info: Value, links: Links)
    requires Utf8Lossy(lossy) && Fits(links) && WellFormed(lossy, info) && Height(info) <= MAX_PARSE_DEPTH
    ensures Parse(lossy, Encode(Dict(Root(info, links))))
      == if Height(info) < MAX_PARSE_DEPTH then Some(Dict(Root(info, links))) else None
    ensures Get(Root(info, links), Ascii("info")) == Some(info)
  {
    hide Utf8Lossy, Fits, BeforeInfo, AfterInfo, WellFormed, Encode, Ascii, EntriesHeight;
    var root := Root(info, links);
    RootOk(lossy, info, links);
    OtherKeys(links);
    ReachableBehind(BeforeInfo(links), info, AfterInfo(links));
    EntriesHeightIs(BeforeInfo(links), Entry(Ascii("info"), info), AfterInfo(links));
    RoundTrip(lossy, Dict(root), []);
    assert Encode(Dict(root)) + [] == Encode(Dict(root));
  }

  /** The torrent made of an info dictionary that does not parse does not parse either. */
  lemma FallbackNeverParses(lossy: Bytes -> Bytes, infoDict: Bytes)
    requires Parse(lossy, infoDict).None?
    ensures Parse(lossy, Ascii("d4:info") + infoDict + [B_E]) == None
  {
    var head := Ascii("d4:info");
    var data := head + infoDict + [B_E];
    assert data[0] == B_D && data[1..7] == EncodeString(Ascii("info"));
    PrintedStringParses(data, 1, Ascii("info"));
    PrintedStringStarts(data, 1, Ascii("info"));
    hide ParsedByteString, ParsedInteger;
    if ParsedEntries(lossy, data, 1, 1, []).Ok? {
      FirstEntryEndsBefore(lossy, data, 1, 1, [], Ascii("info"), 7);
      var v := ParsedValue(lossy, data, 7, 1);
      ParsingIsLocal(lossy, data, infoDict, -7, 7, 1, 0, v.value, v.next);
      assert false;
    }
  }

  lemma FirstEntryEndsBefore(lossy: Bytes -> Bytes, data: Bytes, pos: nat, depth: nat, entries: seq<Entry>,
                             key: Bytes, next: nat)
    requires pos < |data| && data[pos] != B_E && ParsedByteString(data, pos) == Ok(ByteString(key), next)
    requires ParsedEntries(lossy, data, pos, depth, entries).Ok?
    ensures ParsedValue(lossy, data, next, depth).Ok? && ParsedValue(lossy, data, next, depth).next < |data|
  {
    hide ParsedByteString, ParsedValue;
  }

  // ----- a torrent that changes its hash

  /** A torrent of nothing, its entries in the order pieces, piece length, length. */
  function Unsorted(): seq<Entry> {
    [Entry(Ascii("pieces"), ByteString([])),
     Entry(Ascii("piece length"), Integer(1)),
     Entry(Ascii("length"), Integer(0))]
  }

  lemma UnsortedOk(lossy: Bytes -> Bytes)
    requires Utf8Lossy(lossy)
    ensures forall i :: 0 <= i < |Unsorted()| ==> EntryOk(lossy, Unsorted()[i]) && Height(Unsorted()[i].value) == 0
    ensures !KeysSorted(Unsorted()) && 3 * |Encode(Dict(Unsorted()))| <= USIZE_MAX
  {
    hide Utf8Lossy, KeyLess;
    AsciiKeyFits(lossy, "pieces");
    AsciiKeyFits(lossy, "piece length");
    AsciiKeyFits(lossy, "length");
    UnsortedKeys();
    UnsortedSize();
  }

  lemma UnsortedKeys()
    ensures !KeyLess(Unsorted()[0].key, Unsorted()[2].key)
  {
    hide KeyLess;
    KeyLessAt(Ascii("length"), Ascii("pieces"), 0);
  }

  lemma UnsortedSize()
    ensures |Encode(Dict(Unsorted()))| < 100
  {
    var es := Unsorted();
    assert es[1..] == [es[1], es[2]] && es[1..][1..] == [es[2]] && es[1..][1..][1..] == [];
    hide Ascii;
    assert |EncodeString(es[0].key)| < 20 && |EncodeString(es[1].key)| < 20 && |EncodeString(es[2].key)| < 20;
    assert |Encode(es[0].value)| < 10 && |Encode(es[1].value)| < 10 && |Encode(es[2].value)| < 10;
    hide EncodeString, Encode;
    assert |EncodeEntries(es)| < 90;
    DictSize(es);
  }

  lemma DictSize(es: seq<Entry>)
    ensures |Encode(Dict(es))| == |EncodeEntries(es)| + 2
  {
  }

  lemma UnsortedDescribesTorrent(lossy: Bytes -> Bytes)
    ensures TorrentIn(lossy, InsertAll([], Unsorted())).Some?
  {
    var root := InsertAll([], Unsorted());
    forall k ensures Get(root, k) == Latest(Unsorted(), k, None) {
      InsertAllGet([], Unsorted(), k);
    }
    hide InsertAll;
    UnsortedLatest();
    hide Ascii, Unsorted, Latest, Get;
  }

  lemma UnsortedLatest()
    ensures Latest(Unsorted(), Ascii("pieces"), None) == Some(ByteString([]))
    ensures Latest(Unsorted(), Ascii("piece length"), None) == Some(Integer(1))
    ensures Latest(Unsorted(), Ascii("length"), None) == Some(Integer(0))
    ensures Latest(Unsorted(), Ascii("files"), None) == None
  {
    var es := Unsorted();
    assert es[1..] == [es[1], es[2]] && es[1..][1..] == [es[2]] && es[1..][1..][1..] == [];
    assert Ascii("pieces")[0] == Ascii("piece length")[0] == 112;
    assert Ascii("length")[0] == 108 && Ascii("files")[0] == 102 && |Ascii("pieces")| != |Ascii("piece length")|;
    hide Ascii;
  }

  /** It opens after the rewrap, with another hash than the one it was verified against. */
  lemma UnsortedChangesItsHash(lossy: Bytes -> Bytes, sha1: Bytes -> Bytes, links: Links)
    requires Utf8Lossy(lossy) && Fits(links) && AreStrings(lossy, links)
    requires forall d :: sha1(d) == sha1(Encode(Dict(Unsorted()))) ==> d == Encode(Dict(Unsorted()))
    ensures var meta := Opened(lossy, sha1, Wrapped(lossy, Encode(Dict(Unsorted())), links));
      meta.Some? && meta.value.infoHash != sha1(Encode(Dict(Unsorted())))
  {
    hide *;
    UnsortedOk(lossy);
    UnsortedHeights(lossy);
    AnyOrderIsParsed(lossy, Unsorted());
    UnsortedDescribesTorrent(lossy);
    CanonicalIfSorted(lossy, Unsorted());
    RewrappedTorrentOpens(lossy, sha1, Encode(Dict(Unsorted())), links);
    MagnetKeepsItsHash(lossy, sha1, Encode(Dict(Unsorted())), links);
  }

  lemma UnsortedHeights(lossy: Bytes -> Bytes)
    requires forall i :: 0 <= i < |Unsorted()| ==> Height(Unsorted()[i].value) == 0
    ensures Height(Dict(Unsorted())) < MAX_PARSE_DEPTH && Height(Dict(InsertAll([], Unsorted()))) < MAX_PARSE_DEPTH
  {
    hide Unsorted;
    InsertAllHolds([], Unsorted());
    EntriesHeightBound(Unsorted(), 0);
    var root := InsertAll([], Unsorted());
    forall i | 0 <= i < |root| ensures Height(root[i].value) == 0 {
      assert root[i] in root;
    }
    EntriesHeightBound(root, 0);
  }
}
