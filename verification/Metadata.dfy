/** The metadata exchange (src/peer.rs; BEP 9, section "extension message"): a scanner that
    finds where a dictionary ends, the messages built and parsed with it, and the assembly
    of the info dictionary from its chunks. */
module Metadata {
  import opened Bytes
  import opened Decimals
  import opened Bencode
  import opened BencodeParser

  // ----- the scanner

  /** The loop of `find_dict_end` from position `i` on, with `depth` dictionaries open. */
  ghost function Scan(data: Bytes, i: nat, depth: int): (r: Option<nat>)
    ensures r.Some? ==> i < r.value <= |data|
    decreases |data| - i
  {
    if i >= |data| then None
    else if data[i] == B_D then Scan(data, i + 1, depth + 1)
    else if data[i] == B_E then if depth - 1 == 0 then Some(i + 1) else Scan(data, i + 1, depth - 1)
    else if data[i] == B_I then
      match Find(data, i, B_E)
      case None => None
      case Some(e) => Scan(data, e + 1, depth)
    else if IsDigit(data[i]) then
      match Find(data, i, COLON)
      case None => None
      case Some(colon) =>
        match ParseUsize(data[i..colon])
        case None => None
        case Some(len) => Scan(data, colon + 1 + len, depth)
    else None
  }

  ghost function DictEnd(data: Bytes): (r: Option<nat>)
    ensures r.Some? ==> 0 < r.value <= |data|
  {
    if data == [] || data[0] != B_D then None else Scan(data, 0, 0)
  }

  /** The next `b`, or the end of the data. */
  ghost function IndexFrom(data: Bytes, from: nat, b: byte): (i: nat)
    requires from <= |data|
    ensures from <= i <= |data|
  {
    match Find(data, from, b) case None => |data| case Some(k) => k
  }

  lemma ScanStep(data: Bytes, i: nat, depth: int)
    requires i < |data|
    ensures data[i] == B_D ==> Scan(data, i, depth) == Scan(data, i + 1, depth + 1)
    ensures data[i] == B_E ==>
      Scan(data, i, depth) == if depth - 1 == 0 then Some(i + 1) else Scan(data, i + 1, depth - 1)
    ensures data[i] == B_I ==> Scan(data, i, depth) == Scan(data, IndexFrom(data, i, B_E) + 1, depth)
    ensures IsDigit(data[i]) ==> var colon := IndexFrom(data, i, COLON); var len := ParseUsize(data[i..colon]);
      Scan(data, i, depth) == if len.None? then None else Scan(data, colon + 1 + len.value, depth)
    ensures data[i] != B_D && data[i] != B_E && data[i] != B_I && !IsDigit(data[i]) ==> Scan(data, i, depth) == None
  {
    hide ParseUsize;
  }

  method FindDictEnd(data: Bytes) returns (r: Option<nat>)
    ensures r == DictEnd(data)
  {
    if data == [] || data[0] != B_D {
      return None;
    }
    hide ParseUsize, ParseDigits, Scan, IndexFrom, Find, IsDigit;
    var i, depth := 0, 0;
    while i < |data|
      invariant Scan(data, i, depth) == Scan(data, 0, 0)
      decreases |data| - i
    {
      ScanStep(data, i, depth);
      if data[i] == B_D {
        depth := depth + 1;
      } else if data[i] == B_E {
        depth := depth - 1;
        if depth == 0 {
          return Some(i + 1);
        }
      } else if data[i] == B_I {
        i := SkipTo(data, i, B_E);
      } else if IsDigit(data[i]) {
        var start := i;
        i := SkipTo(data, i, COLON);
        var len := ParseUsize(data[start..i]);
        if len.None? {
          return None;
        }
        i := i + 1 + len.value;
        continue;
      } else {
        return None;
      }
      i := i + 1;
    }
    ScanOver(data, i, depth);
    return None;
  }

  lemma ScanOver(data: Bytes, i: nat, depth: int)
    requires i >= |data|
    ensures Scan(data, i, depth) == None
  {
  }

  /** The inner loops. */
  method SkipTo(data: Bytes, from: nat, b: byte) returns (i: nat)
    requires from <= |data|
    ensures i == IndexFrom(data, from, b)
  {
    i := from;
    while i < |data| && data[i] != b
      invariant from <= i <= |data| && Find(data, i, b) == Find(data, from, b)
    {
      i := i + 1;
    }
  }

  // ----- the scanner and the parser

  /** No list anywhere inside. */
  ghost predicate ListFree(v: Value) {
    match v
    case Integer(_) => true
    case ByteString(_) => true
    case List(_) => false
    case Dict(entries) => forall i :: 0 <= i < |entries| ==> ListFree(entries[i].value)
  }

  ghost predicate EntriesListFree(entries: seq<Entry>) {
    forall i :: 0 <= i < |entries| ==> ListFree(entries[i].value)
  }

  /** What scanning gives once a dictionary opened at `depth` has been closed before `end`. */
  ghost function Closed(data: Bytes, end: nat, depth: nat): Option<nat> {
    if depth == 0 then Some(end) else Scan(data, end, depth)
  }

  /** Scanning a printed value, whatever follows it, leads right behind it, and fails
      exactly when there is a list inside. */
  lemma {:induction false} ScanPrinted(lossy: Bytes -> Bytes, data: Bytes, pos: nat, depth: nat, v: Value)
    requires WellFormed(lossy, v) && At(data, pos, Encode(v)) && (depth > 0 || v.Dict?)
    ensures Scan(data, pos, depth) == if ListFree(v) then Closed(data, pos + |Encode(v)|, depth) else None
    decreases v, 1
  {
    hide Scan, ListFree, EncodeItems, EncodeEntries;
    match v
    case Integer(i) =>
      ScanInteger(data, pos, depth, i);
      LeavesAreListFree(v);
    case ByteString(s) =>
      ScanString(data, pos, depth, s);
      LeavesAreListFree(v);
    case List(items) =>
      ScanList(data, pos, depth, items);
    case Dict(entries) =>
      ScanDict(lossy, data, pos, depth, entries);
  }

  lemma LeavesAreListFree(v: Value)
    ensures v.Integer? || v.ByteString? ==> ListFree(v)
  {
  }

  lemma ScanList(data: Bytes, pos: nat, depth: nat, items: seq<Value>)
    requires At(data, pos, Encode(List(items)))
    ensures Scan(data, pos, depth) == None && !ListFree(List(items))
  {
    hide At, EncodeItems;
    Bracketed(data, pos, B_L, EncodeItems(items));
  }

  lemma {:induction false} ScanDict(lossy: Bytes -> Bytes, data: Bytes, pos: nat, depth: nat, entries: seq<Entry>)
    requires forall i :: 0 <= i < |entries| ==> EntryOk(lossy, entries[i])
    requires At(data, pos, Encode(Dict(entries)))
    ensures Scan(data, pos, depth)
      == if ListFree(Dict(entries)) then Closed(data, pos + |Encode(Dict(entries))|, depth) else None
    decreases entries, 1
  {
    hide At, EncodeEntries, EntryOk, Closed;
    Bracketed(data, pos, B_D, EncodeEntries(entries));
    ScanEntries(lossy, data, pos + 1, depth, entries);
  }

  lemma ScanInteger(data: Bytes, pos: nat, depth: nat, i: int)
    requires At(data, pos, Encode(Integer(i)))
    ensures Scan(data, pos, depth) == Scan(data, pos + |Encode(Integer(i))|, depth)
  {
    var n := PrintInt(i);
    Bracketed(data, pos, B_I, n);
    FindFirst(data, pos + 1, n, B_E) by {
      assert B_E !in n;
    }
  }

  lemma ScanString(data: Bytes, pos: nat, depth: nat, s: Bytes)
    requires At(data, pos, EncodeString(s)) && |s| <= USIZE_MAX
    ensures Scan(data, pos, depth) == Scan(data, pos + |EncodeString(s)|, depth)
  {
    PrintedStringParses(data, pos, s);
    PrintedStringStarts(data, pos, s);
    ScanAsParsed(data, pos, depth, s, pos + |EncodeString(s)|);
  }

  /** Where the parser reads a byte string whose length has no sign, the scanner steps over it. */
  lemma ScanAsParsed(data: Bytes, pos: nat, depth: int, s: Bytes, next: nat)
    requires pos < |data| && IsDigit(data[pos]) && ParsedByteString(data, pos) == Ok(ByteString(s), next)
    ensures Scan(data, pos, depth) == Scan(data, next, depth)
  {
    hide ParseUsize;
  }

  lemma {:induction false} ScanEntries(lossy: Bytes -> Bytes, data: Bytes, pos: nat, depth: nat, entries: seq<Entry>)
    requires forall i :: 0 <= i < |entries| ==> EntryOk(lossy, entries[i])
    requires At(data, pos, EncodeEntries(entries) + [B_E])
    ensures Scan(data, pos, depth + 1)
      == if EntriesListFree(entries) then Closed(data, pos + |EncodeEntries(entries)| + 1, depth) else None
    decreases entries, 0
  {
    hide Scan, At, EncodeEntries, EntriesListFree, Closed;
    if entries == [] {
      ScanEnd(data, pos, depth);
    } else {
      var e, rest := entries[0], entries[1..];
      assert entries == [e] + rest;
      assert EntryOk(lossy, e);
      var next := ScanEntry(lossy, data, pos, depth, e, rest);
      ScanEntries(lossy, data, next, depth, rest);
      FirstAndRest(e, rest);
    }
  }

  lemma ScanEnd(data: Bytes, pos: nat, depth: nat)
    requires At(data, pos, EncodeEntries([]) + [B_E])
    ensures EncodeEntries([]) == [] && EntriesListFree([]) && Scan(data, pos, depth + 1) == Closed(data, pos + 1, depth)
  {
    assert [] + [B_E] == [B_E];
    assert data[pos] == data[pos..pos + 1][0];
  }

  lemma {:induction false} ScanEntry(lossy: Bytes -> Bytes, data: Bytes, pos: nat, depth: nat, e: Entry,
          rest: seq<Entry>) returns (next: nat)
    requires EntryOk(lossy, e) && At(data, pos, EncodeEntries([e] + rest) + [B_E])
    ensures At(data, next, EncodeEntries(rest) + [B_E])
    ensures next + |EncodeEntries(rest)| == pos + |EncodeEntries([e] + rest)|
    ensures Scan(data, pos, depth + 1) == if ListFree(e.value) then Scan(data, next, depth + 1) else None
    decreases e, 2
  {
    hide Encode, EncodeEntries, Scan, EncodeString, ListFree, At;
    EntryAt(data, pos, e, rest);
    ScanString(data, pos, depth + 1, e.key);
    var middle := pos + |EncodeString(e.key)|;
    ScanPrinted(lossy, data, middle, depth + 1, e.value);
    next := middle + |Encode(e.value)|;
  }

  lemma FirstAndRest(e: Entry, rest: seq<Entry>)
    ensures EntriesListFree([e] + rest) <==> ListFree(e.value) && EntriesListFree(rest)
  {
    hide ListFree;
    var all := [e] + rest;
    assert all[0] == e;
    assert forall i :: 0 <= i < |rest| ==> rest[i] == all[i + 1];
  }

  /** On a printed dictionary, whatever follows it, the scanner finds its end exactly when
      there is no list inside, and so agrees with the parser on dictionaries nested up to
      the parser's limit. */
  lemma DictEndOfPrinted(lossy: Bytes -> Bytes, entries: seq<Entry>, rest: Bytes)
    requires WellFormed(lossy, Dict(entries))
    ensures DictEnd(Encode(Dict(entries)) + rest)
      == if ListFree(Dict(entries)) then Some(|Encode(Dict(entries))|) else None
  {
    var data := Encode(Dict(entries)) + rest;
    assert data[0..|Encode(Dict(entries))|] == Encode(Dict(entries));
    Bracketed(data, 0, B_D, EncodeEntries(entries));
    ScanPrinted(lossy, data, 0, 0, Dict(entries));
  }

  // ----- on any accepted input

  ghost predicate NoneOr(r: Option<nat>, other: Option<nat>) {
    r == None || r == other
  }

  /** Wherever the parser accepts a value, the scanner ends up right behind it or fails. */
  lemma {:induction false} ScanParsed(lossy: Bytes -> Bytes, data: Bytes, pos: nat, parseDepth: nat, depth: nat,
          v: Value, next: nat)
    requires ParsedValue(lossy, data, pos, parseDepth) == Ok(v, next) && (depth > 0 || data[pos] == B_D)
    ensures NoneOr(Scan(data, pos, depth), Closed(data, next, depth))
    decreases |data| - pos, 0
  {
    hide ParsedInteger, ParsedByteString;
    if data[pos] == B_I {
      ScanParsedInteger(data, pos, depth, next);
    } else if data[pos] == B_D {
      ScanParsedEntries(lossy, data, pos + 1, parseDepth + 1, depth, [], v, next);
    } else if data[pos] != B_L {
      ScanAsParsed(data, pos, depth, v.s, next);
    }
  }

  lemma ScanParsedInteger(data: Bytes, pos: nat, depth: nat, next: nat)
    requires pos < |data| && data[pos] == B_I && ParsedInteger(data, pos).Ok? && ParsedInteger(data, pos).next == next
    ensures Scan(data, pos, depth) == Scan(data, next, depth)
  {
    hide ParseI64, BadIntegerFormat;
    assert Find(data, pos, B_E) == Find(data, pos + 1, B_E);
  }

  lemma {:induction false} ScanParsedEntries(lossy: Bytes -> Bytes, data: Bytes, pos: nat, parseDepth: nat, depth: nat,
                                             entries: seq<Entry>, v: Value, next: nat)
    requires pos <= |data| && ParsedEntries(lossy, data, pos, parseDepth, entries) == Ok(v, next)
    ensures NoneOr(Scan(data, pos, depth + 1), Closed(data, next, depth))
    decreases |data| - pos, 1
  {
    hide ParsedInteger, ParsedByteString, ParsedValue;
    if data[pos] != B_E {
      hide Scan;
      var key := ParsedByteString(data, pos);
      var item := ParsedValue(lossy, data, key.next, parseDepth);
      KeyStarts(data, pos, depth + 1);
      if IsDigit(data[pos]) {
        ScanAsParsed(data, pos, depth + 1, key.value.s, key.next);
        ScanParsed(lossy, data, key.next, parseDepth, depth + 1, item.value, item.next);
        var more := Insert(entries, lossy(key.value.s), item.value);
        ScanParsedEntries(lossy, data, item.next, parseDepth, depth, more, v, next);
      }
    }
  }

  /** A key the parser takes may start with a plus sign, which the scanner refuses. */
  lemma KeyStarts(data: Bytes, pos: nat, depth: int)
    requires pos < |data| && ParsedByteString(data, pos).Ok?
    ensures IsDigit(data[pos]) || Scan(data, pos, depth) == None
  {
    var colon := Find(data, pos, COLON).value;
    var s := data[pos..colon];
    assert s != [] && s[0] == data[pos];
  }

  /** The scanner never disagrees with the parser on where a dictionary ends, canonical or
      not: it finds the same end or none. */
  lemma ScannerNeverDisagrees(lossy: Bytes -> Bytes, data: Bytes)
    requires ParsedValue(lossy, data, 0, 0).Ok? && ParsedValue(lossy, data, 0, 0).value.Dict?
    ensures DictEnd(data) == None || DictEnd(data) == Some(ParsedValue(lossy, data, 0, 0).next)
  {
    if data[0] == B_D {
      ScanParsed(lossy, data, 0, 0, 0, ParsedValue(lossy, data, 0, 0).value, ParsedValue(lossy, data, 0, 0).next);
    }
  }

  // ----- messages

  function MetadataDict(msgType: int, piece: nat, totalSize: Option<nat>): seq<Entry>
    requires piece <= USIZE_MAX && (totalSize.Some? ==> totalSize.value <= USIZE_MAX)
  {
    var dict := Insert([], Ascii("msg_type"), Integer(msgType));
    var dict := Insert(dict, Ascii("piece"), Integer(AsI64(piece)));
    if totalSize.Some? then Insert(dict, Ascii("total_size"), Integer(AsI64(totalSize.value))) else dict
  }

  function BuildMetadataRequest(piece: nat): Bytes
    requires piece <= USIZE_MAX
  {
    Encode(Dict(MetadataDict(0, piece, None)))
  }

  function BuildMetadataData(piece: nat, totalSize: Option<nat>, data: Bytes): Bytes
    requires piece <= USIZE_MAX && (totalSize.Some? ==> totalSize.value <= USIZE_MAX)
  {
    Encode(Dict(MetadataDict(1, piece, totalSize))) + data
  }

  function BuildMetadataReject(piece: nat): Bytes
    requires piece <= USIZE_MAX
  {
    Encode(Dict(MetadataDict(2, piece, None)))
  }

  datatype Message = Message(msgType: byte, piece: nat, totalSize: nat, data: Bytes)

  const INVALID := Message(0xFF, 0, 0, [])

  function IntegerAt(entries: seq<Entry>, key: Bytes, default: int): int {
    match Get(entries, key)
    case None => default
    case Some(v) => match v.AsInteger() case None => default case Some(i) => i
  }

  /** `i as u8` */
  function AsU8(i: int): byte {
    i % 256
  }

  ghost function ParseMetadataMessage(lossy: Bytes -> Bytes, payload: Bytes): Message
  {
    match DictEnd(payload)
    case None => INVALID
    case Some(end) =>
      match Parse(lossy, payload[..end])
      case None => INVALID
      case Some(v) =>
        match v.AsDict()
        case None => INVALID
        case Some(dict) =>
          Message(AsU8(IntegerAt(dict, Ascii("msg_type"), 0xFF)),
                  AsUsize(IntegerAt(dict, Ascii("piece"), 0)),
                  AsUsize(IntegerAt(dict, Ascii("total_size"), 0)),
                  payload[end..])
  }

  lemma MetadataKeyOrder()
    ensures KeyLess(Ascii("msg_type"), Ascii("piece")) && KeyLess(Ascii("msg_type"), Ascii("total_size"))
    ensures KeyLess(Ascii("piece"), Ascii("total_size"))
  {
    hide KeyLess;
    KeyLessAt(Ascii("msg_type"), Ascii("piece"), 0);
    KeyLessAt(Ascii("msg_type"), Ascii("total_size"), 0);
    KeyLessAt(Ascii("piece"), Ascii("total_size"), 0);
  }

  predicate IsMetadataKey(k: Bytes) {
    k == Ascii("msg_type") || k == Ascii("piece") || k == Ascii("total_size")
  }

  lemma MetadataKeyFits(lossy: Bytes -> Bytes, k: Bytes)
    requires Utf8Lossy(lossy) && IsMetadataKey(k)
    ensures lossy(k) == k && |k| <= USIZE_MAX
  {
    hide Utf8Lossy, Ascii;
    if k == Ascii("msg_type") {
      AsciiKeyFits(lossy, "msg_type");
    } else if k == Ascii("piece") {
      AsciiKeyFits(lossy, "piece");
    } else {
      AsciiKeyFits(lossy, "total_size");
    }
  }

  lemma MetadataEntries(msgType: byte, piece: nat, totalSize: Option<nat>)
    requires piece <= USIZE_MAX && (totalSize.Some? ==> totalSize.value <= USIZE_MAX)
    ensures MetadataDict(msgType, piece, totalSize)
      == [Entry(Ascii("msg_type"), Integer(msgType)), Entry(Ascii("piece"), Integer(AsI64(piece)))]
         + if totalSize.Some? then [Entry(Ascii("total_size"), Integer(AsI64(totalSize.value)))] else []
    ensures KeysSorted(MetadataDict(msgType, piece, totalSize))
  {
    hide KeyLess, Insert, Ascii;
    MetadataKeyOrder();
    InsertLast([], Ascii("msg_type"), Integer(msgType));
    var d1 := [Entry(Ascii("msg_type"), Integer(msgType))];
    assert [] + d1 == d1;
    InsertLast(d1, Ascii("piece"), Integer(AsI64(piece)));
    if totalSize.Some? {
      InsertLast(d1 + [Entry(Ascii("piece"), Integer(AsI64(piece)))], Ascii("total_size"),
        Integer(AsI64(totalSize.value)));
    }
  }

  lemma FlatDictOk(lossy: Bytes -> Bytes, entries: seq<Entry>)
    requires entries != [] && KeysSorted(entries)
    requires forall e :: e in entries ==>
      lossy(e.key) == e.key && |e.key| <= USIZE_MAX && e.value.Integer? && I64_MIN <= e.value.i <= I64_MAX
    ensures WellFormed(lossy, Dict(entries)) && Height(Dict(entries)) == 1 && ListFree(Dict(entries))
  {
    EntriesHeightBound(entries, 0);
  }

  lemma MetadataDictOk(lossy: Bytes -> Bytes, msgType: byte, piece: nat, totalSize: Option<nat>)
    requires Utf8Lossy(lossy) && piece <= USIZE_MAX && (totalSize.Some? ==> totalSize.value <= USIZE_MAX)
    ensures var dict := MetadataDict(msgType, piece, totalSize);
      && WellFormed(lossy, Dict(dict)) && Height(Dict(dict)) == 1 && ListFree(Dict(dict))
  {
    hide KeyLess, Insert, Ascii, Height, ListFree, WellFormed, MetadataDict;
    MetadataEntries(msgType, piece, totalSize);
    forall e | e in MetadataDict(msgType, piece, totalSize) ensures lossy(e.key) == e.key && |e.key| <= USIZE_MAX {
      MetadataKeyFits(lossy, e.key);
    }
    FlatDictOk(lossy, MetadataDict(msgType, piece, totalSize));
  }

  lemma MetadataValues(msgType: byte, piece: nat, totalSize: Option<nat>)
    requires piece <= USIZE_MAX && (totalSize.Some? ==> totalSize.value <= USIZE_MAX)
    ensures var dict := MetadataDict(msgType, piece, totalSize);
      && IntegerAt(dict, Ascii("msg_type"), 0xFF) == msgType
      && IntegerAt(dict, Ascii("piece"), 0) == AsI64(piece)
      && IntegerAt(dict, Ascii("total_size"), 0) == if totalSize.Some? then AsI64(totalSize.value) else 0
  {
    hide KeyLess, Insert, MetadataDict, Get;
    var dict := MetadataDict(msgType, piece, totalSize);
    MetadataEntries(msgType, piece, totalSize);
    GetPresent(dict, 0);
    GetPresent(dict, 1);
    if totalSize.Some? {
      GetPresent(dict, 2);
    } else {
      assert Ascii("total_size") != Ascii("piece") && Ascii("total_size") != Ascii("msg_type");
      GetAbsent(dict, Ascii("total_size"));
    }
  }

  /** A dictionary of these entries followed by any data parses back to type, piece, size and
      that data, for all 64-bit numbers. */
  lemma MetadataRoundTrip(lossy: Bytes -> Bytes, msgType: byte, piece: nat, totalSize: Option<nat>, data: Bytes)
    requires Utf8Lossy(lossy) && piece <= USIZE_MAX && (totalSize.Some? ==> totalSize.value <= USIZE_MAX)
    ensures ParseMetadataMessage(lossy, Encode(Dict(MetadataDict(msgType, piece, totalSize))) + data)
      == Message(msgType, piece, if totalSize.Some? then totalSize.value else 0, data)
  {
    hide MetadataDict, Encode, Utf8Lossy, DictEnd, IntegerAt, Height, ListFree, WellFormed, AsI64, AsUsize;
    var dict := MetadataDict(msgType, piece, totalSize);
    MetadataDictOk(lossy, msgType, piece, totalSize);
    MetadataValues(msgType, piece, totalSize);
    CastsInvert(piece);
    CastsInvert(if totalSize.Some? then totalSize.value else 0);
    assert AsI64(0) == 0 by {
      CastsOfZero();
    }
    DictEndOfPrinted(lossy, dict, data);
    RoundTrip(lossy, Dict(dict), []);
    assert Encode(Dict(dict)) + [] == Encode(Dict(dict));
    assert (Encode(Dict(dict)) + data)[..|Encode(Dict(dict))|] == Encode(Dict(dict));
  }

  /** What each of the three builders makes parses back to its type, piece and size, with the
      data of a data message and none otherwise. */
  lemma BuiltMessagesParse(lossy: Bytes -> Bytes, piece: nat, totalSize: Option<nat>, data: Bytes)
    requires Utf8Lossy(lossy) && piece <= USIZE_MAX && (totalSize.Some? ==> totalSize.value <= USIZE_MAX)
    ensures ParseMetadataMessage(lossy, BuildMetadataRequest(piece)) == Message(0, piece, 0, [])
    ensures ParseMetadataMessage(lossy, BuildMetadataReject(piece)) == Message(2, piece, 0, [])
    ensures ParseMetadataMessage(lossy, BuildMetadataData(piece, totalSize, data))
      == Message(1, piece, if totalSize.Some? then totalSize.value else 0, data)
  {
    hide ParseMetadataMessage, Encode, MetadataDict, Utf8Lossy;
    MetadataRoundTrip(lossy, 0, piece, None, []);
    MetadataRoundTrip(lossy, 1, piece, totalSize, data);
    MetadataRoundTrip(lossy, 2, piece, None, []);
    assert Encode(Dict(MetadataDict(0, piece, None))) + [] == Encode(Dict(MetadataDict(0, piece, None)));
    assert Encode(Dict(MetadataDict(2, piece, None))) + [] == Encode(Dict(MetadataDict(2, piece, None)));
  }
}
