/** The loops of src/bencode.rs: list and dictionary parsing, printing into a buffer, and
    the walk that finds the raw info dictionary. */
module BencodeParser {
  import opened Bytes
  import opened Decimals
  import opened Bencode

  method ParseValue(lossy: Bytes -> Bytes, data: Bytes, pos: nat, depth: nat) returns (r: Parsed)
    ensures r == ParsedValue(lossy, data, pos, depth)
    decreases |data| - pos, 1
  {
    hide ParsedInteger, ParsedByteString, ParsedItems, ParsedEntries;
    if depth > MAX_PARSE_DEPTH || pos >= |data| {
      return Err;
    }
    if data[pos] == B_I {
      r := ParsedInteger(data, pos);
    } else if data[pos] == B_L {
      r := ParseList(lossy, data, pos, depth + 1);
    } else if data[pos] == B_D {
      r := ParseDict(lossy, data, pos, depth + 1);
    } else if IsDigit(data[pos]) {
      r := ParsedByteString(data, pos);
    } else {
      r := Err;
    }
  }

  method ParseList(lossy: Bytes -> Bytes, data: Bytes, pos: nat, depth: nat) returns (r: Parsed)
    requires pos < |data|
    ensures r == ParsedItems(lossy, data, pos + 1, depth, [])
    decreases |data| - pos, 0
  {
    var items: seq<Value> := [];
    var current := pos + 1;
    while current < |data| && data[current] != B_E
      invariant pos < current <= |data|
      invariant ParsedItems(lossy, data, current, depth, items) == ParsedItems(lossy, data, pos + 1, depth, [])
      decreases |data| - current
    {
      var v := ParseValue(lossy, data, current, depth);
      if v.Err? {
        return Err;
      }
      items := items + [v.value];
      current := v.next;
    }
    if current >= |data| {
      return Err;
    }
    return Ok(List(items), current + 1);
  }

  method ParseDict(lossy: Bytes -> Bytes, data: Bytes, pos: nat, depth: nat) returns (r: Parsed)
    requires pos < |data|
    ensures r == ParsedEntries(lossy, data, pos + 1, depth, [])
    decreases |data| - pos, 0
  {
    var entries: seq<Entry> := [];
    var current := pos + 1;
    while current < |data| && data[current] != B_E
      invariant pos < current <= |data|
      invariant ParsedEntries(lossy, data, current, depth, entries) == ParsedEntries(lossy, data, pos + 1, depth, [])
      decreases |data| - current
    {
      var key := ParsedByteString(data, current);
      if key.Err? {
        return Err;
      }
      var v := ParseValue(lossy, data, key.next, depth);
      if v.Err? {
        return Err;
      }
      entries := Insert(entries, lossy(key.value.s), v.value);
      current := v.next;
    }
    if current >= |data| {
      return Err;
    }
    return Ok(Dict(entries), current + 1);
  }

  method EncodeValue(v: Value, buf: Bytes) returns (out: Bytes)
    ensures out == buf + Encode(v)
    decreases v, 1
  {
    match v
    case Integer(i) =>
      out := buf + [B_I];
      out := out + PrintInt(i);
      out := out + [B_E];
    case ByteString(s) =>
      out := buf + Print(|s|) + [COLON] + s;
    case List(items) =>
      out := AppendItems(items, buf + [B_L]);
      out := out + [B_E];
    case Dict(entries) =>
      out := AppendEntries(entries, buf + [B_D]);
      out := out + [B_E];
  }

  method AppendItems(items: seq<Value>, buf: Bytes) returns (out: Bytes)
    ensures out == buf + EncodeItems(items)
    decreases items, 0
  {
    hide Encode;
    out := buf;
    for k := 0 to |items|
      invariant out + EncodeItems(items[k..]) == buf + EncodeItems(items)
    {
      ghost var before := out;
      assert items[k..][0] == items[k] && items[k..][1..] == items[k + 1..];
      out := EncodeValue(items[k], out);
      assert out + EncodeItems(items[k + 1..]) == before + EncodeItems(items[k..]);
    }
  }

  method AppendEntries(entries: seq<Entry>, buf: Bytes) returns (out: Bytes)
    ensures out == buf + EncodeEntries(entries)
    decreases entries, 0
  {
    hide Encode;
    out := buf;
    for k := 0 to |entries|
      invariant out + EncodeEntries(entries[k..]) == buf + EncodeEntries(entries)
    {
      ghost var before := out;
      assert entries[k..][0] == entries[k] && entries[k..][1..] == entries[k + 1..];
      out := out + Print(|entries[k].key|) + [COLON] + entries[k].key;
      out := EncodeValue(entries[k].value, out);
      assert out + EncodeEntries(entries[k + 1..]) == before + EncodeEntries(entries[k..]);
    }
  }

  // ----- the raw info dictionary

  /** `extract_info_raw` from a key position on. */
  function InfoRange(lossy: Bytes -> Bytes, data: Bytes, pos: nat): (r: Option<(nat, nat)>)
    requires pos <= |data|
    ensures r.Some? ==> pos < r.value.0 < r.value.1 <= |data|
    decreases |data| - pos
  {
    if pos == |data| || data[pos] == B_E then None
    else match ParsedByteString(data, pos)
      case Err => None
      case Ok(key, next) =>
        match ParsedValue(lossy, data, next, 0)
        case Err => None
        case Ok(_, end) => if key.s == Ascii("info") then Some((next, end)) else InfoRange(lossy, data, end)
  }

  function InfoRaw(lossy: Bytes -> Bytes, data: Bytes): Option<Bytes> {
    if data == [] || data[0] != B_D then None
    else match InfoRange(lossy, data, 1)
      case None => None
      case Some((start, end)) => Some(data[start..end])
  }

  method ExtractInfoRaw(lossy: Bytes -> Bytes, data: Bytes) returns (r: Option<Bytes>)
    ensures r == InfoRaw(lossy, data)
  {
    hide ParsedByteString, ParsedValue;
    if data == [] || data[0] != B_D {
      return None;
    }
    var pos := 1;
    while pos < |data| && data[pos] != B_E
      invariant 1 <= pos <= |data|
      invariant InfoRange(lossy, data, pos) == InfoRange(lossy, data, 1)
      decreases |data| - pos
    {
      var key := ParsedByteString(data, pos);
      if key.Err? {
        return None;
      }
      var v := ParseValue(lossy, data, key.next, 0);
      if v.Err? {
        return None;
      }
      if key.value.s == Ascii("info") {
        return Some(data[key.next..v.next]);
      }
      pos := v.next;
    }
    return None;
  }

  /** The `info` entry, unless an entry up to it is nested too deeply to be stepped over. */
  ghost function ReachableInfo(entries: seq<Entry>): Option<Value> {
    if entries == [] || Height(entries[0].value) > MAX_PARSE_DEPTH then None
    else if entries[0].key == Ascii("info") then Some(entries[0].value)
    else ReachableInfo(entries[1..])
  }

  lemma {:induction false} ReachableInfoIsGet(entries: seq<Entry>)
    requires forall i :: 0 <= i < |entries| ==> Height(entries[i].value) <= MAX_PARSE_DEPTH
    ensures ReachableInfo(entries) == Get(entries, Ascii("info"))
  {
    if entries != [] {
      ReachableInfoIsGet(entries[1..]);
    }
  }

  lemma {:induction false} InfoRangeOfPrinted(lossy: Bytes -> Bytes, data: Bytes, pos: nat, entries: seq<Entry>)
    requires forall i :: 0 <= i < |entries| ==> EntryOk(lossy, entries[i])
    requires At(data, pos, EncodeEntries(entries) + [B_E])
    ensures InfoRange(lossy, data, pos).Some? <==> ReachableInfo(entries).Some?
    ensures ReachableInfo(entries).Some? ==> var (start, end) := InfoRange(lossy, data, pos).value;
      data[start..end] == Encode(ReachableInfo(entries).value)
    decreases |entries|
  {
    hide ParsedByteString, ParsedValue, Encode, EncodeEntries, Height, InfoRange;
    if entries == [] {
      NoInfoAtEnd(lossy, data, pos);
    } else {
      var e, rest := entries[0], entries[1..];
      assert entries == [e] + rest;
      EntryAt(data, pos, e, rest);
      assert EntryOk(lossy, e);
      var next := pos + |EncodeString(e.key)|;
      PrintedStringParses(data, pos, e.key);
      PrintedStringStarts(data, pos, e.key);
      PrintedValueParses(lossy, data, next, 0, e.value);
      if Height(e.value) <= MAX_PARSE_DEPTH && e.key != Ascii("info") {
        InfoRangeOfPrinted(lossy, data, next + |Encode(e.value)|, rest);
      }
      WalkPastEntry(lossy, data, pos, e.key, next);
    }
  }

  lemma NoInfoAtEnd(lossy: Bytes -> Bytes, data: Bytes, pos: nat)
    requires At(data, pos, EncodeEntries([]) + [B_E])
    ensures pos <= |data| && InfoRange(lossy, data, pos) == None
  {
    assert EncodeEntries([]) + [B_E] == [B_E];
    assert data[pos] == data[pos..pos + 1][0];
  }

  lemma PrintedStringStarts(data: Bytes, pos: nat, s: Bytes)
    requires At(data, pos, EncodeString(s))
    ensures pos < |data| && IsDigit(data[pos])
  {
    assert data[pos] == data[pos..pos + |EncodeString(s)|][0];
  }

  lemma WalkPastEntry(lossy: Bytes -> Bytes, data: Bytes, pos: nat, key: Bytes, next: nat)
    requires pos < |data| && data[pos] != B_E && ParsedByteString(data, pos) == Ok(ByteString(key), next)
    ensures var v := ParsedValue(lossy, data, next, 0);
      InfoRange(lossy, data, pos)
      == if v.Err? then None else if key == Ascii("info") then Some((next, v.next)) else InfoRange(lossy, data, v.next)
  {
    hide ParsedByteString, ParsedValue;
  }

  /** On a printed dictionary the walk returns the printed `info` entry. */
  lemma InfoRawOfPrinted(lossy: Bytes -> Bytes, root: seq<Entry>, rest: Bytes)
    requires WellFormed(lossy, Dict(root))
    ensures InfoRaw(lossy, Encode(Dict(root)) + rest)
      == match ReachableInfo(root) case None => None case Some(v) => Some(Encode(v))
  {
    hide ParsedInteger, ParsedByteString;
    var data := Encode(Dict(root)) + rest;
    assert data[0..|Encode(Dict(root))|] == Encode(Dict(root));
    Bracketed(data, 0, B_D, EncodeEntries(root));
    InfoRangeOfPrinted(lossy, data, 1, root);
  }

  // ----- a value parses alike wherever its bytes stand

  /** `data2` has the bytes of `data1` from `from` to `to`, `delta` further on. */
  ghost predicate Window(data1: Bytes, data2: Bytes, delta: int, from: nat, to: nat) {
    && to <= |data1| && 0 <= from + delta && to + delta <= |data2|
    && forall i :: from <= i < to ==> data1[i] == data2[i + delta]
  }

  lemma WindowSlice(data1: Bytes, data2: Bytes, delta: int, from: nat, to: nat, a: nat, b: nat)
    requires Window(data1, data2, delta, from, to) && from <= a <= b <= to
    ensures data1[a..b] == data2[a + delta..b + delta]
  {
    var x, y := data1[a..b], data2[a + delta..b + delta];
    forall k | 0 <= k < b - a ensures x[k] == y[k] {
      assert x[k] == data1[a + k];
    }
  }

  lemma {:induction false} FindIsLocal(data1: Bytes, data2: Bytes, delta: int, pos: nat, b: byte, end: nat)
    requires pos <= |data1| && Find(data1, pos, b) == Some(end) && Window(data1, data2, delta, pos, end + 1)
    ensures Find(data2, pos + delta, b) == Some(end + delta)
    decreases end - pos
  {
    assert data1[pos] == data2[pos + delta];
    if pos < end {
      FindIsLocal(data1, data2, delta, pos + 1, b, end);
    }
  }

  lemma IntegerIsLocal(data1: Bytes, data2: Bytes, delta: int, pos: nat, v: Value, next: nat)
    requires pos < |data1| && ParsedInteger(data1, pos) == Ok(v, next) && Window(data1, data2, delta, pos, next)
    ensures ParsedInteger(data2, pos + delta) == Ok(v, next + delta)
  {
    hide ParseI64, BadIntegerFormat;
    FindIsLocal(data1, data2, delta, pos + 1, B_E, next - 1);
    WindowSlice(data1, data2, delta, pos, next, pos + 1, next - 1);
  }

  lemma StringIsLocal(data1: Bytes, data2: Bytes, delta: int, pos: nat, v: Value, next: nat)
    requires pos <= |data1| && ParsedByteString(data1, pos) == Ok(v, next) && Window(data1, data2, delta, pos, next)
    ensures ParsedByteString(data2, pos + delta) == Ok(v, next + delta)
  {
    hide ParseUsize;
    var colon := Find(data1, pos, COLON).value;
    FindIsLocal(data1, data2, delta, pos, COLON, colon);
    WindowSlice(data1, data2, delta, pos, next, pos, colon);
    WindowSlice(data1, data2, delta, pos, next, colon + 1, next);
  }

  /** What the parser accepts depends on the accepted bytes alone; less deeply nested, it
      accepts them too. */
  lemma {:induction false} ParsingIsLocal(lossy: Bytes -> Bytes, data1: Bytes, data2: Bytes, delta: int, pos: nat,
                                          depth1: nat, depth2: nat, v: Value, next: nat)
    requires ParsedValue(lossy, data1, pos, depth1) == Ok(v, next) && Window(data1, data2, delta, pos, next)
    requires depth2 <= depth1
    ensures ParsedValue(lossy, data2, pos + delta, depth2) == Ok(v, next + delta)
    decreases |data1| - pos, 0
  {
    hide ParsedInteger, ParsedByteString;
    assert data1[pos] == data2[pos + delta];
    if data1[pos] == B_I {
      IntegerIsLocal(data1, data2, delta, pos, v, next);
    } else if data1[pos] == B_L {
      ItemsAreLocal(lossy, data1, data2, delta, pos + 1, depth1 + 1, depth2 + 1, [], v, next);
    } else if data1[pos] == B_D {
      EntriesAreLocal(lossy, data1, data2, delta, pos + 1, depth1 + 1, depth2 + 1, [], v, next);
    } else {
      StringIsLocal(data1, data2, delta, pos, v, next);
    }
  }

  lemma {:induction false} ItemsAreLocal(lossy: Bytes -> Bytes, data1: Bytes, data2: Bytes, delta: int, pos: nat,
                                         depth1: nat, depth2: nat, items: seq<Value>, v: Value, next: nat)
    requires pos <= |data1| && ParsedItems(lossy, data1, pos, depth1, items) == Ok(v, next)
    requires Window(data1, data2, delta, pos, next) && depth2 <= depth1
    ensures ParsedItems(lossy, data2, pos + delta, depth2, items) == Ok(v, next + delta)
    decreases |data1| - pos, 1
  {
    hide ParsedInteger, ParsedByteString;
    assert data1[pos] == data2[pos + delta];
    if data1[pos] != B_E {
      var item := ParsedValue(lossy, data1, pos, depth1);
      ParsingIsLocal(lossy, data1, data2, delta, pos, depth1, depth2, item.value, item.next);
      ItemsAreLocal(lossy, data1, data2, delta, item.next, depth1, depth2, items + [item.value], v, next);
    }
  }

  lemma {:induction false} EntriesAreLocal(lossy: Bytes -> Bytes, data1: Bytes, data2: Bytes, delta: int, pos: nat,
                                           depth1: nat, depth2: nat, entries: seq<Entry>, v: Value, next: nat)
    requires pos <= |data1| && ParsedEntries(lossy, data1, pos, depth1, entries) == Ok(v, next)
    requires Window(data1, data2, delta, pos, next) && depth2 <= depth1
    ensures ParsedEntries(lossy, data2, pos + delta, depth2, entries) == Ok(v, next + delta)
    decreases |data1| - pos, 1
  {
    hide ParsedInteger, ParsedByteString, ParsedValue;
    assert data1[pos] == data2[pos + delta];
    if data1[pos] != B_E {
      var key := ParsedByteString(data1, pos);
      var item := ParsedValue(lossy, data1, key.next, depth1);
      StringIsLocal(data1, data2, delta, pos, key.value, key.next);
      ParsingIsLocal(lossy, data1, data2, delta, key.next, depth1, depth2, item.value, item.next);
      var more := Insert(entries, lossy(key.value.s), item.value);
      EntriesAreLocal(lossy, data1, data2, delta, item.next, depth1, depth2, more, v, next);
    }
  }
}
