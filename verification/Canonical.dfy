/** Which bytes survive being parsed and printed (src/bencode.rs). */
module Canonicals {
  import opened Bytes
  import opened Decimals
  import opened Bencode
  import opened BencodeParser

  /** The encoding of a value that is not nested too deeply. */
  ghost predicate Canonical(lossy: Bytes -> Bytes, data: Bytes) {
    exists v :: WellFormed(lossy, v) && Height(v) <= MAX_PARSE_DEPTH && data == Encode(v)
  }

  /** The canonical bytes are those that parsing and printing give back. */
  lemma CanonicalIs(lossy: Bytes -> Bytes, data: Bytes)
    requires Utf8Lossy(lossy) && 3 * |data| <= USIZE_MAX
    ensures Canonical(lossy, data) <==> Parse(lossy, data).Some? && Encode(Parse(lossy, data).value) == data
  {
    hide WellFormed, Height, Encode;
    if Canonical(lossy, data) {
      var v :| WellFormed(lossy, v) && Height(v) <= MAX_PARSE_DEPTH && data == Encode(v);
      RoundTrip(lossy, v, []);
      assert Encode(v) + [] == Encode(v);
    }
    if Parse(lossy, data).Some? && Encode(Parse(lossy, data).value) == data {
      ParsedHolds(lossy, data, 0, 0);
      assert Holds(lossy, 0, Parse(lossy, data).value);
    }
  }

  // ----- dictionaries printed in any order

  function InsertAll(before: seq<Entry>, entries: seq<Entry>): seq<Entry>
    decreases |entries|
  {
    if entries == [] then before
    else InsertAll(Insert(before, entries[0].key, entries[0].value), entries[1..])
  }

  lemma {:induction false} InsertAllHolds(before: seq<Entry>, entries: seq<Entry>)
    requires KeysSorted(before)
    ensures KeysSorted(InsertAll(before, entries))
    ensures forall e :: e in InsertAll(before, entries) ==> e in before || e in entries
    decreases |entries|
  {
    hide Insert, KeysSorted;
    if entries != [] {
      InsertSorted(before, entries[0].key, entries[0].value);
      InsertAllHolds(Insert(before, entries[0].key, entries[0].value), entries[1..]);
    }
  }

  /** The value of the last entry with this key. */
  function Latest(entries: seq<Entry>, key: Bytes, default: Option<Value>): Option<Value> {
    if entries == [] then default
    else Latest(entries[1..], key, if entries[0].key == key then Some(entries[0].value) else default)
  }

  lemma {:induction false} InsertAllGet(before: seq<Entry>, entries: seq<Entry>, key: Bytes)
    requires KeysSorted(before)
    ensures Get(InsertAll(before, entries), key) == Latest(entries, key, Get(before, key))
    decreases |entries|
  {
    hide Insert, KeysSorted, Get;
    if entries != [] {
      InsertSorted(before, entries[0].key, entries[0].value);
      InsertGet(before, entries[0].key, entries[0].value, key);
      InsertAllGet(Insert(before, entries[0].key, entries[0].value), entries[1..], key);
    }
  }

  ghost predicate EntriesFit(lossy: Bytes -> Bytes, depth: nat, entries: seq<Entry>) {
    forall i :: 0 <= i < |entries| ==>
      EntryOk(lossy, entries[i]) && depth + Height(entries[i].value) <= MAX_PARSE_DEPTH
  }

  /** The first of some printed entries is read back. */
  lemma EntryReads(lossy: Bytes -> Bytes, data: Bytes, pos: nat, depth: nat, e: Entry, rest: seq<Entry>)
    returns (middle: nat, next: nat)
    requires EntryOk(lossy, e) && depth + Height(e.value) <= MAX_PARSE_DEPTH
    requires At(data, pos, EncodeEntries([e] + rest) + [B_E])
    ensures pos < |data| && data[pos] != B_E && ParsedByteString(data, pos) == Ok(ByteString(e.key), middle)
    ensures ParsedValue(lossy, data, middle, depth) == Ok(e.value, next) && At(data, next, EncodeEntries(rest) + [B_E])
    ensures next + |EncodeEntries(rest)| == pos + |EncodeEntries([e] + rest)|
  {
    hide ParsedByteString, ParsedValue, EncodeEntries, Encode, EncodeString, Height, WellFormed, At;
    EntryAt(data, pos, e, rest);
    PrintedStringParses(data, pos, e.key);
    PrintedStringStarts(data, pos, e.key);
    middle := pos + |EncodeString(e.key)|;
    next := middle + |Encode(e.value)|;
    PrintedValueParses(lossy, data, middle, depth, e.value);
  }

  /** Entries printed in any order, with keys repeated or not, parse to the dictionary that takes
      them one by one. */
  lemma {:induction false} AnyOrderParses(lossy: Bytes -> Bytes, data: Bytes, pos: nat, depth: nat,
          before: seq<Entry>, entries: seq<Entry>)
    requires EntriesFit(lossy, depth, entries) && At(data, pos, EncodeEntries(entries) + [B_E])
    ensures ParsedEntries(lossy, data, pos, depth, before)
      == Ok(Dict(InsertAll(before, entries)), pos + |EncodeEntries(entries)| + 1)
    decreases |entries|
  {
    if entries == [] {
      hide ParsedByteString, ParsedValue;
      assert data[pos] == data[pos..pos + 1][0];
    } else {
      hide ParsedByteString, ParsedValue, ParsedEntries, EncodeEntries, Insert, At, EntryOk, Height;
      var e, rest := entries[0], entries[1..];
      assert entries == [e] + rest;
      var middle, next := EntryReads(lossy, data, pos, depth, e, rest);
      KeyIsValid(lossy, e);
      EntryStep(lossy, data, pos, depth, before, e.key, e.value, middle, next);
      AnyOrderParses(lossy, data, next, depth, Insert(before, e.key, e.value), rest);
    }
  }

  lemma KeyIsValid(lossy: Bytes -> Bytes, e: Entry)
    requires EntryOk(lossy, e)
    ensures lossy(e.key) == e.key
  {
  }

  lemma EntryStep(lossy: Bytes -> Bytes, data: Bytes, pos: nat, depth: nat, entries: seq<Entry>, key: Bytes, v: Value,
          mid: nat, next: nat)
    requires pos < |data| && data[pos] != B_E && ParsedByteString(data, pos) == Ok(ByteString(key), mid)
    requires ParsedValue(lossy, data, mid, depth) == Ok(v, next) && lossy(key) == key
    ensures ParsedEntries(lossy, data, pos, depth, entries)
      == ParsedEntries(lossy, data, next, depth, Insert(entries, key, v))
  {
    hide ParsedByteString, ParsedValue, Insert;
  }

  lemma AnyOrderIsParsed(lossy: Bytes -> Bytes, entries: seq<Entry>)
    requires forall i :: 0 <= i < |entries| ==> EntryOk(lossy, entries[i])
    requires Height(Dict(entries)) <= MAX_PARSE_DEPTH
    ensures Parse(lossy, Encode(Dict(entries))) == Some(Dict(InsertAll([], entries)))
  {
    hide ParsedEntries, ParsedItems, ParsedInteger, ParsedByteString, EntryOk, EncodeEntries, InsertAll;
    var data := Encode(Dict(entries));
    assert data[0..|data|] == data;
    Bracketed(data, 0, B_D, EncodeEntries(entries));
    HeightsInside(entries);
    AnyOrderParses(lossy, data, 1, 1, [], entries);
  }

  lemma {:induction false} HeightsInside(entries: seq<Entry>)
    ensures forall i :: 0 <= i < |entries| ==> Height(entries[i].value) <= EntriesHeight(entries)
  {
    if entries != [] {
      HeightsInside(entries[1..]);
      assert forall i :: 0 < i < |entries| ==> entries[i] == entries[1..][i - 1];
    }
  }

  /** Different entries are printed differently. */
  lemma {:induction false} EntriesInjective(lossy: Bytes -> Bytes, a: seq<Entry>, b: seq<Entry>)
    requires EntriesFit(lossy, 0, a) && EntriesFit(lossy, 0, b) && EncodeEntries(a) == EncodeEntries(b)
    ensures a == b
    decreases |a|
  {
    if a == [] || b == [] {
      NothingPrinted(a);
      NothingPrinted(b);
    } else {
      FirstEntriesAgree(lossy, a[0], a[1..], b[0], b[1..]);
      assert a == [a[0]] + a[1..] && b == [b[0]] + b[1..];
      hide EncodeEntries, EntryOk, Height;
      EntriesInjective(lossy, a[1..], b[1..]);
    }
  }

  lemma FirstEntriesAgree(lossy: Bytes -> Bytes, e: Entry, a: seq<Entry>, f: Entry, b: seq<Entry>)
    requires EntryOk(lossy, e) && Height(e.value) <= MAX_PARSE_DEPTH
    requires EntryOk(lossy, f) && Height(f.value) <= MAX_PARSE_DEPTH
    requires EncodeEntries([e] + a) == EncodeEntries([f] + b)
    ensures e == f && EncodeEntries(a) == EncodeEntries(b)
  {
    hide ParsedByteString, ParsedValue, EncodeEntries, EntryOk, Height, At;
    var data := EncodeEntries([e] + a) + [B_E];
    WholeIsAt(data);
    var middle, next := EntryReads(lossy, data, 0, 0, e, a);
    var middle1, next1 := EntryReads(lossy, data, 0, 0, f, b);
    SameRest(data, next, EncodeEntries(a), EncodeEntries(b));
  }

  lemma WholeIsAt(data: Bytes)
    ensures At(data, 0, data)
  {
    assert data[0..|data|] == data;
  }

  lemma SameRest(data: Bytes, next: nat, s: Bytes, t: Bytes)
    requires At(data, next, s + [B_E]) && At(data, next, t + [B_E]) && |s| == |t|
    ensures s == t
  {
    assert s == (s + [B_E])[..|s|] && t == (t + [B_E])[..|t|];
  }

  lemma NothingPrinted(entries: seq<Entry>)
    ensures EncodeEntries(entries) == [] <==> entries == []
  {
    hide Encode;
  }

  /** A printed dictionary is canonical exactly when its keys are in strict order. */
  lemma CanonicalIfSorted(lossy: Bytes -> Bytes, entries: seq<Entry>)
    requires forall i :: 0 <= i < |entries| ==> EntryOk(lossy, entries[i])
    requires Height(Dict(entries)) <= MAX_PARSE_DEPTH
    ensures Canonical(lossy, Encode(Dict(entries))) <==> KeysSorted(entries)
  {
    hide EntryOk, KeysSorted, EncodeEntries, EncodeItems, EncodeString;
    var data := Encode(Dict(entries));
    if KeysSorted(entries) {
      assert WellFormed(lossy, Dict(entries));
    }
    if Canonical(lossy, data) {
      var v :| WellFormed(lossy, v) && Height(v) <= MAX_PARSE_DEPTH && data == Encode(v);
      PrintedAsDict(v, entries);
      HeightsInside(v.entries);
      HeightsInside(entries);
      EntriesInjective(lossy, v.entries, entries);
    }
  }

  lemma PrintedAsDict(v: Value, entries: seq<Entry>)
    requires Encode(v) == Encode(Dict(entries))
    ensures v.Dict? && EncodeEntries(v.entries) == EncodeEntries(entries)
  {
    hide EncodeEntries, EncodeItems, PrintInt, EncodeString;
    StringStartsWithDigit(if v.ByteString? then v.s else []);
    assert Encode(v)[0] == B_D;
    assert Encode(Dict(entries))[1..|Encode(Dict(entries))| - 1] == EncodeEntries(entries);
    if v.Dict? {
      assert Encode(v)[1..|Encode(v)| - 1] == EncodeEntries(v.entries);
    }
  }

  lemma StringStartsWithDigit(s: Bytes)
    ensures EncodeString(s) != [] && IsDigit(EncodeString(s)[0])
  {
  }
}
