/** Bencoding (src/bencode.rs; BEP 3, section "bencoding"): the printer, the recursive
    parser, and what each makes of the other's output. */
module Bencode {
  import opened Bytes
  import opened Decimals

  const MAX_PARSE_DEPTH := 128

  const B_I: byte := 105
  const B_L: byte := 108
  const B_D: byte := 100
  const B_E: byte := 101
  const COLON: byte := 58

  /** A dictionary is its list of entries in key order, as a B-tree map iterates them. */
  datatype Value =
    | Integer(i: int)
    | ByteString(s: Bytes)
    | List(items: seq<Value>)
    | Dict(entries: seq<Entry>)
  {
    function AsInteger(): Option<int> {
      if Integer? then Some(i) else None
    }

    function AsBytes(): Option<Bytes> {
      if ByteString? then Some(s) else None
    }

    function AsList(): Option<seq<Value>> {
      if List? then Some(items) else None
    }

    function AsDict(): Option<seq<Entry>> {
      if Dict? then Some(entries) else None
    }
  }

  datatype Entry = Entry(key: Bytes, value: Value)

  datatype Parsed = Ok(value: Value, next: nat) | Err

  // ----- keys

  /** Byte-wise lexicographic order, a proper prefix first. */
  predicate KeyLess(a: Bytes, b: Bytes) {
    if b == [] then false
    else if a == [] then true
    else a[0] < b[0] || (a[0] == b[0] && KeyLess(a[1..], b[1..]))
  }

  lemma {:induction false} KeyLessTotal(a: Bytes, b: Bytes)
    ensures KeyLess(a, b) || a == b || KeyLess(b, a)
    ensures !(KeyLess(a, b) && KeyLess(b, a)) && !KeyLess(a, a)
    decreases |a| + |b|
  {
    if a != [] && b != [] {
      if a[0] == b[0] {
        KeyLessTotal(a[1..], b[1..]);
        assert a == [a[0]] + a[1..] && b == [b[0]] + b[1..];
      }
      KeyLessIrreflexive(a);
    } else {
      KeyLessIrreflexive(a);
    }
  }

  lemma {:induction false} KeyLessIrreflexive(a: Bytes)
    ensures !KeyLess(a, a)
  {
    if a != [] {
      KeyLessIrreflexive(a[1..]);
    }
  }

  /** The first `n` bytes agree, and then `a` ends or its next byte is the smaller one. */
  lemma {:induction false} KeyLessAt(a: Bytes, b: Bytes, n: nat)
    requires n <= |a| && n < |b| && a[..n] == b[..n] && (n == |a| || a[n] < b[n])
    ensures KeyLess(a, b) && !KeyLess(b, a) && a != b
  {
    if n > 0 {
      assert a[0] == a[..n][0] == b[..n][0] == b[0];
      assert a[1..][..n - 1] == a[..n][1..] == b[..n][1..] == b[1..][..n - 1];
      KeyLessAt(a[1..], b[1..], n - 1);
    }
  }

  lemma {:induction false} KeyLessTransitive(a: Bytes, b: Bytes, c: Bytes)
    requires KeyLess(a, b) && KeyLess(b, c)
    ensures KeyLess(a, c)
    decreases |a|
  {
    if a != [] && a[0] == b[0] && b[0] == c[0] {
      KeyLessTransitive(a[1..], b[1..], c[1..]);
    }
  }

  ghost predicate KeysSorted(entries: seq<Entry>) {
    forall i, j :: 0 <= i < j < |entries| ==> KeyLess(entries[i].key, entries[j].key)
  }

  /** `BTreeMap::insert` */
  function Insert(entries: seq<Entry>, key: Bytes, value: Value): seq<Entry> {
    if entries == [] then [Entry(key, value)]
    else if entries[0].key == key then [Entry(key, value)] + entries[1..]
    else if KeyLess(key, entries[0].key) then [Entry(key, value)] + entries
    else [entries[0]] + Insert(entries[1..], key, value)
  }

  /** `BTreeMap::get` */
  function Get(entries: seq<Entry>, key: Bytes): Option<Value> {
    if entries == [] then None
    else if entries[0].key == key then Some(entries[0].value)
    else Get(entries[1..], key)
  }

  lemma {:induction false} InsertGet(entries: seq<Entry>, key: Bytes, value: Value, k: Bytes)
    requires KeysSorted(entries)
    ensures Get(Insert(entries, key, value), k) == if k == key then Some(value) else Get(entries, k)
  {
    if entries != [] && entries[0].key != key && !KeyLess(key, entries[0].key) {
      InsertGet(entries[1..], key, value, k);
    }
  }

  lemma {:induction false} InsertSorted(entries: seq<Entry>, key: Bytes, value: Value)
    requires KeysSorted(entries)
    ensures KeysSorted(Insert(entries, key, value))
    ensures forall e :: e in Insert(entries, key, value) ==> e == Entry(key, value) || e in entries
  {
    if entries != [] {
      KeyLessTotal(key, entries[0].key);
      if entries[0].key == key {
      } else if KeyLess(key, entries[0].key) {
        forall j | 0 <= j < |entries| ensures KeyLess(key, entries[j].key) {
          if j > 0 {
            KeyLessTransitive(key, entries[0].key, entries[j].key);
          }
        }
      } else {
        InsertSorted(entries[1..], key, value);
        var rest := Insert(entries[1..], key, value);
        forall j | 0 <= j < |rest| ensures KeyLess(entries[0].key, rest[j].key) {
          assert rest[j] in rest;
        }
      }
    }
  }

  lemma {:induction false} InsertLast(entries: seq<Entry>, key: Bytes, value: Value)
    requires forall i :: 0 <= i < |entries| ==> KeyLess(entries[i].key, key)
    ensures Insert(entries, key, value) == entries + [Entry(key, value)]
  {
    if entries != [] {
      KeyLessTotal(entries[0].key, key);
      InsertLast(entries[1..], key, value);
    }
  }

  lemma {:induction false} InsertBetween(before: seq<Entry>, key: Bytes, value: Value, after: seq<Entry>)
    requires forall i :: 0 <= i < |before| ==> KeyLess(before[i].key, key)
    requires forall i :: 0 <= i < |after| ==> KeyLess(key, after[i].key)
    ensures Insert(before + after, key, value) == before + [Entry(key, value)] + after
  {
    if before != [] {
      KeyLessTotal(before[0].key, key);
      assert (before + after)[1..] == before[1..] + after;
      InsertBetween(before[1..], key, value, after);
    } else {
      assert before + after == after;
      if after != [] {
        KeyLessTotal(key, after[0].key);
      }
    }
  }

  lemma {:induction false} GetPresent(entries: seq<Entry>, i: nat)
    requires KeysSorted(entries) && i < |entries|
    ensures Get(entries, entries[i].key) == Some(entries[i].value)
  {
    if i > 0 {
      KeyLessIrreflexive(entries[i].key);
      assert KeyLess(entries[0].key, entries[i].key);
      GetPresent(entries[1..], i - 1);
    }
  }

  lemma {:induction false} GetAbsent(entries: seq<Entry>, key: Bytes)
    requires forall i :: 0 <= i < |entries| ==> entries[i].key != key
    ensures Get(entries, key) == None
  {
    if entries != [] {
      GetAbsent(entries[1..], key);
    }
  }

  // ----- printing

  function EncodeString(s: Bytes): Bytes {
    Print(|s|) + [COLON] + s
  }

  function Encode(v: Value): (r: Bytes)
    ensures r != []
  {
    match v
    case Integer(i) => [B_I] + PrintInt(i) + [B_E]
    case ByteString(s) => EncodeString(s)
    case List(items) => [B_L] + EncodeItems(items) + [B_E]
    case Dict(entries) => [B_D] + EncodeEntries(entries) + [B_E]
  }

  function EncodeItems(items: seq<Value>): Bytes {
    if items == [] then [] else Encode(items[0]) + EncodeItems(items[1..])
  }

  function EncodeEntries(entries: seq<Entry>): Bytes {
    if entries == [] then []
    else EncodeString(entries[0].key) + Encode(entries[0].value) + EncodeEntries(entries[1..])
  }

  // ----- parsing

  /** The index of the first `b` at or after `from`. */
  function Find(data: Bytes, from: nat, b: byte): (r: Option<nat>)
    requires from <= |data|
    ensures r.Some? ==> from <= r.value < |data| && data[r.value] == b
    decreases |data| - from
  {
    if from == |data| then None
    else if data[from] == b then Some(from)
    else Find(data, from + 1, b)
  }

  /** "-0", a leading zero, or a minus sign before a leading zero. */
  predicate BadIntegerFormat(s: Bytes) {
    || s == [MINUS, ZERO]
    || (|s| > 1 && s[0] == ZERO)
    || (|s| > 2 && s[0] == MINUS && s[1] == ZERO)
  }

  function ParsedInteger(data: Bytes, pos: nat): (r: Parsed)
    requires pos < |data|
    ensures r.Ok? ==> pos < r.next <= |data|
    ensures r.Ok? ==> r.value.Integer? && I64_MIN <= r.value.i <= I64_MAX
  {
    match Find(data, pos + 1, B_E)
    case None => Err
    case Some(end) =>
      var s := data[pos + 1..end];
      if BadIntegerFormat(s) then Err
      else match ParseI64(s)
        case None => Err
        case Some(i) => Ok(Integer(i), end + 1)
  }

  function ParsedByteString(data: Bytes, pos: nat): (r: Parsed)
    requires pos <= |data|
    ensures r.Ok? ==> pos < r.next <= |data| && r.value.ByteString? && |r.value.s| <= Min(|data|, USIZE_MAX)
  {
    match Find(data, pos, COLON)
    case None => Err
    case Some(colon) =>
      match ParseUsize(data[pos..colon])
      case None => Err
      case Some(len) =>
        var start := colon + 1;
        if start + len > |data| then Err
        else Ok(ByteString(data[start..start + len]), start + len)
  }

  /** `lossy` stands for `String::from_utf8_lossy`. */
  function ParsedValue(lossy: Bytes -> Bytes, data: Bytes, pos: nat, depth: nat): (r: Parsed)
    ensures r.Ok? ==> pos < r.next <= |data|
    decreases |data| - pos, 0
  {
    if depth > MAX_PARSE_DEPTH || pos >= |data| then Err
    else if data[pos] == B_I then ParsedInteger(data, pos)
    else if data[pos] == B_L then ParsedItems(lossy, data, pos + 1, depth + 1, [])
    else if data[pos] == B_D then ParsedEntries(lossy, data, pos + 1, depth + 1, [])
    else if IsDigit(data[pos]) then ParsedByteString(data, pos)
    else Err
  }

  function ParsedItems(lossy: Bytes -> Bytes, data: Bytes, pos: nat, depth: nat, items: seq<Value>): (r: Parsed)
    requires pos <= |data|
    ensures r.Ok? ==> pos < r.next <= |data|
    decreases |data| - pos, 1
  {
    if pos >= |data| then Err
    else if data[pos] == B_E then Ok(List(items), pos + 1)
    else match ParsedValue(lossy, data, pos, depth)
      case Err => Err
      case Ok(v, next) => ParsedItems(lossy, data, next, depth, items + [v])
  }

  function ParsedEntries(lossy: Bytes -> Bytes, data: Bytes, pos: nat, depth: nat, entries: seq<Entry>): (r: Parsed)
    requires pos <= |data|
    ensures r.Ok? ==> pos < r.next <= |data|
    decreases |data| - pos, 1
  {
    if pos >= |data| then Err
    else if data[pos] == B_E then Ok(Dict(entries), pos + 1)
    else match ParsedByteString(data, pos)
      case Err => Err
      case Ok(key, next) =>
        match ParsedValue(lossy, data, next, depth)
        case Err => Err
        case Ok(v, next2) => ParsedEntries(lossy, data, next2, depth, Insert(entries, lossy(key.s), v))
  }

  // ----- well-formed values

  /** What is needed of the lossy decoding: its results are valid already, ASCII is
      valid, and a replaced byte grows to at most three. */
  ghost predicate Utf8Lossy(lossy: Bytes -> Bytes) {
    && (forall k :: lossy(lossy(k)) == lossy(k))
    && (forall k :: (forall i :: 0 <= i < |k| ==> k[i] < 128) ==> lossy(k) == k)
    && (forall k :: |lossy(k)| <= 3 * |k|)
  }

  lemma AsciiKeyFits(lossy: Bytes -> Bytes, s: string)
    requires Utf8Lossy(lossy) && |s| < 100 && forall i :: 0 <= i < |s| ==> s[i] < 128 as char
    ensures lossy(Ascii(s)) == Ascii(s) && |Ascii(s)| <= USIZE_MAX
  {
    var k := Ascii(s);
    forall i | 0 <= i < |k| ensures k[i] < 128 {
      assert s[i] as int < 128;
    }
  }

  /** A value the data type of the source can hold: 64-bit numbers and lengths, valid
      keys in strict order. */
  ghost predicate WellFormed(lossy: Bytes -> Bytes, v: Value) {
    match v
    case Integer(i) => I64_MIN <= i <= I64_MAX
    case ByteString(s) => |s| <= USIZE_MAX
    case List(items) => forall i :: 0 <= i < |items| ==> WellFormed(lossy, items[i])
    case Dict(entries) => KeysSorted(entries) && forall i :: 0 <= i < |entries| ==> EntryOk(lossy, entries[i])
  }

  ghost predicate EntryOk(lossy: Bytes -> Bytes, e: Entry) {
    lossy(e.key) == e.key && |e.key| <= USIZE_MAX && WellFormed(lossy, e.value)
  }

  /** How many containers enclose the most deeply nested value. */
  ghost function Height(v: Value): nat {
    match v
    case Integer(_) => 0
    case ByteString(_) => 0
    case List(items) => if items == [] then 0 else 1 + ItemsHeight(items)
    case Dict(entries) => if entries == [] then 0 else 1 + EntriesHeight(entries)
  }

  ghost function ItemsHeight(items: seq<Value>): nat {
    if items == [] then 0 else Max(Height(items[0]), ItemsHeight(items[1..]))
  }

  ghost function EntriesHeight(entries: seq<Entry>): nat {
    if entries == [] then 0 else Max(Height(entries[0].value), EntriesHeight(entries[1..]))
  }

  // ----- parsing what was printed

  /** `s` stands in `data` at `pos`. */
  ghost predicate At(data: Bytes, pos: nat, s: Bytes) {
    pos + |s| <= |data| && data[pos..pos + |s|] == s
  }

  lemma AtParts(data: Bytes, pos: nat, s: Bytes, t: Bytes)
    requires At(data, pos, s + t)
    ensures At(data, pos, s) && At(data, pos + |s|, t)
  {
    assert data[pos..pos + |s|] == (s + t)[..|s|];
    assert data[pos + |s|..pos + |s| + |t|] == (s + t)[|s|..];
  }

  lemma {:induction false} FindFirst(data: Bytes, pos: nat, s: Bytes, b: byte)
    requires At(data, pos, s + [b]) && b !in s
    ensures Find(data, pos, b) == Some(pos + |s|)
    decreases |s|
  {
    AtParts(data, pos, s, [b]);
    if s == [] {
      assert data[pos..pos + 1][0] == data[pos];
    } else {
      assert s + [b] == [s[0]] + (s[1..] + [b]);
      AtParts(data, pos, [s[0]], s[1..] + [b]);
      assert data[pos..pos + 1][0] == data[pos];
      FindFirst(data, pos + 1, s[1..], b);
    }
  }

  lemma PrintedStringParses(data: Bytes, pos: nat, s: Bytes)
    requires At(data, pos, EncodeString(s)) && |s| <= USIZE_MAX
    ensures ParsedByteString(data, pos) == Ok(ByteString(s), pos + |EncodeString(s)|)
    ensures pos < |data| && IsDigit(data[pos])
  {
    var n := Print(|s|);
    AtParts(data, pos, n + [COLON], s);
    AtParts(data, pos, n, [COLON]);
    assert COLON !in n;
    FindFirst(data, pos, n, COLON);
    PrintedUsize(|s|);
    assert data[pos] == data[pos..pos + |n|][0];
  }

  lemma PrintedIntegerParses(data: Bytes, pos: nat, i: int)
    requires At(data, pos, Encode(Integer(i))) && I64_MIN <= i <= I64_MAX
    ensures pos < |data| && data[pos] == B_I
    ensures ParsedInteger(data, pos) == Ok(Integer(i), pos + |Encode(Integer(i))|)
  {
    hide ParseI64, BadIntegerFormat;
    var n := PrintInt(i);
    Bracketed(data, pos, B_I, n);
    FindFirst(data, pos + 1, n, B_E) by {
      assert B_E !in n;
    }
    PrintedI64(i);
    GoodFormat(i);
    assert data[pos + 1..pos + 1 + |n|] == n by {
      AtParts(data, pos + 1, n, [B_E]);
    }
  }

  lemma GoodFormat(i: int)
    ensures !BadIntegerFormat(PrintInt(i))
  {
    if i < 0 {
      var p := Print(-i);
      assert PrintInt(i) == [MINUS] + p && p == PrintInt(i)[1..];
      PrintedDigits(-i);
      assert DigitsValue([ZERO]) == 10 * DigitsValue([]) + 0;
    } else {
      assert IsDigit(Print(i)[0]);
    }
  }

  /** Digits behind a plus sign, of a value that 64 bits can hold. */
  ghost predicate WithPlus(s: Bytes, i: int) {
    |s| > 1 && s[0] == PLUS && AllDigits(s[1..]) && i == DigitsValue(s[1..]) <= I64_MAX
  }

  lemma AcceptedIsNumeral(s: Bytes, i: int)
    requires !BadIntegerFormat(s) && ParseI64(s) == Some(i)
    ensures s == PrintInt(i) || WithPlus(s, i)
  {
    if s[0] == MINUS {
      var digits := s[1..];
      assert s == [MINUS] + digits;
      assert digits != [ZERO] && (|digits| == 1 ==> digits == [digits[0]]);
      PrintOfDigits(digits);
      LeadingDigit(digits);
    } else if s[0] != PLUS {
      PrintOfDigits(s);
    }
  }

  /** What is accepted between the letters of an integer: the numerals that are printed, and
      besides them only digits behind a plus sign, even with leading zeros. */
  lemma IntegersAccepted(s: Bytes, i: int)
    ensures !BadIntegerFormat(s) && ParseI64(s) == Some(i) <==>
      I64_MIN <= i <= I64_MAX && (s == PrintInt(i) || WithPlus(s, i))
  {
    if !BadIntegerFormat(s) && ParseI64(s) == Some(i) {
      AcceptedIsNumeral(s, i);
    }
    if I64_MIN <= i <= I64_MAX && s == PrintInt(i) {
      GoodFormat(i);
      PrintedI64(i);
    }
  }

  /** Parsing a printed value, whatever follows it, gives the value back and stops right
      behind it, unless it is nested too deeply, which is an error. */
  lemma {:induction false} PrintedValueParses(lossy: Bytes -> Bytes, data: Bytes, pos: nat, depth: nat, v: Value)
    requires WellFormed(lossy, v) && At(data, pos, Encode(v))
    ensures ParsedValue(lossy, data, pos, depth)
      == if depth + Height(v) <= MAX_PARSE_DEPTH then Ok(v, pos + |Encode(v)|) else Err
    decreases v, 1
  {
    hide ParsedInteger, ParsedByteString;
    if depth <= MAX_PARSE_DEPTH {
      match v
      case Integer(i) =>
        PrintedIntegerParses(data, pos, i);
      case ByteString(s) =>
        PrintedStringParses(data, pos, s);
      case List(items) =>
        PrintedListParses(lossy, data, pos, depth, items);
      case Dict(entries) =>
        PrintedDictParses(lossy, data, pos, depth, entries);
    }
  }

  lemma {:induction false} PrintedListParses(lossy: Bytes -> Bytes, data: Bytes, pos: nat, depth: nat,
          items: seq<Value>)
    requires depth <= MAX_PARSE_DEPTH && At(data, pos, Encode(List(items)))
    requires forall i :: 0 <= i < |items| ==> WellFormed(lossy, items[i])
    ensures ParsedValue(lossy, data, pos, depth)
      == if depth + Height(List(items)) <= MAX_PARSE_DEPTH then Ok(List(items), pos + |Encode(List(items))|) else Err
    decreases items, 1
  {
    hide ParsedInteger, ParsedByteString;
    Bracketed(data, pos, B_L, EncodeItems(items));
    PrintedItemsParse(lossy, data, pos + 1, depth + 1, [], items);
    assert [] + items == items;
  }

  lemma {:induction false} PrintedDictParses(lossy: Bytes -> Bytes, data: Bytes, pos: nat, depth: nat,
          entries: seq<Entry>)
    requires depth <= MAX_PARSE_DEPTH && At(data, pos, Encode(Dict(entries)))
    requires KeysSorted(entries) && forall i :: 0 <= i < |entries| ==> EntryOk(lossy, entries[i])
    ensures ParsedValue(lossy, data, pos, depth)
      == if depth + Height(Dict(entries)) <= MAX_PARSE_DEPTH
         then Ok(Dict(entries), pos + |Encode(Dict(entries))|) else Err
    decreases entries, 1
  {
    hide ParsedInteger, ParsedByteString, EncodeEntries, EntryOk;
    Bracketed(data, pos, B_D, EncodeEntries(entries));
    PrintedEntriesParse(lossy, data, pos + 1, depth + 1, [], entries);
    assert [] + entries == entries;
  }

  lemma Bracketed(data: Bytes, pos: nat, open: byte, body: Bytes)
    requires At(data, pos, [open] + body + [B_E])
    ensures data[pos] == open && At(data, pos + 1, body + [B_E])
  {
    assert [open] + body + [B_E] == [open] + (body + [B_E]);
    AtParts(data, pos, [open], body + [B_E]);
    assert data[pos] == data[pos..pos + 1][0];
  }

  lemma {:induction false} EncodeStarts(v: Value)
    ensures Encode(v)[0] != B_E
  {
  }

  lemma {:induction false} PrintedItemsParse(lossy: Bytes -> Bytes, data: Bytes, pos: nat, depth: nat,
          before: seq<Value>, items: seq<Value>)
    requires forall i :: 0 <= i < |items| ==> WellFormed(lossy, items[i])
    requires At(data, pos, EncodeItems(items) + [B_E])
    ensures ParsedItems(lossy, data, pos, depth, before)
      == if items == [] || depth + ItemsHeight(items) <= MAX_PARSE_DEPTH
         then Ok(List(before + items), pos + |EncodeItems(items)| + 1) else Err
    decreases items, 0
  {
    hide ParsedInteger, ParsedByteString;
    if items == [] {
      assert data[pos] == data[pos..pos + 1][0];
      assert before + items == before;
    } else {
      var v, rest := items[0], items[1..];
      assert EncodeItems(items) + [B_E] == Encode(v) + (EncodeItems(rest) + [B_E]);
      AtParts(data, pos, Encode(v), EncodeItems(rest) + [B_E]);
      EncodeStarts(v);
      assert data[pos] == data[pos..pos + |Encode(v)|][0];
      PrintedValueParses(lossy, data, pos, depth, v);
      if depth + Height(v) <= MAX_PARSE_DEPTH {
        PrintedItemsParse(lossy, data, pos + |Encode(v)|, depth, before + [v], rest);
        assert (before + [v]) + rest == before + items;
      }
    }
  }

  lemma {:induction false} PrintedEntriesParse(lossy: Bytes -> Bytes, data: Bytes, pos: nat, depth: nat,
          before: seq<Entry>, entries: seq<Entry>)
    requires KeysSorted(before + entries) && forall i :: 0 <= i < |entries| ==> EntryOk(lossy, entries[i])
    requires At(data, pos, EncodeEntries(entries) + [B_E])
    ensures ParsedEntries(lossy, data, pos, depth, before)
      == if entries == [] || depth + EntriesHeight(entries) <= MAX_PARSE_DEPTH
         then Ok(Dict(before + entries), pos + |EncodeEntries(entries)| + 1) else Err
    decreases entries, 0
  {
    hide ParsedInteger, ParsedByteString;
    if entries == [] {
      assert data[pos] == data[pos..pos + 1][0];
      assert before + entries == before;
    } else {
      var e, rest := entries[0], entries[1..];
      assert entries == [e] + rest;
      var next := PrintedEntryParses(lossy, data, pos, depth, before, e, rest);
      if depth + Height(e.value) <= MAX_PARSE_DEPTH {
        Shifted(before, e, rest);
        PrintedEntriesParse(lossy, data, next, depth, before + [e], rest);
      }
    }
  }

  lemma {:induction false} PrintedEntryParses(lossy: Bytes -> Bytes, data: Bytes, pos: nat, depth: nat,
          before: seq<Entry>, e: Entry, rest: seq<Entry>)
    returns (next: nat)
    requires KeysSorted(before + ([e] + rest)) && EntryOk(lossy, e)
    requires At(data, pos, EncodeEntries([e] + rest) + [B_E])
    ensures At(data, next, EncodeEntries(rest) + [B_E])
    ensures next + |EncodeEntries(rest)| == pos + |EncodeEntries([e] + rest)|
    ensures depth + Height(e.value) <= MAX_PARSE_DEPTH ==>
      ParsedEntries(lossy, data, pos, depth, before) == ParsedEntries(lossy, data, next, depth, before + [e])
    ensures depth + Height(e.value) > MAX_PARSE_DEPTH ==> ParsedEntries(lossy, data, pos, depth, before) == Err
    decreases e, 2
  {
    hide ParsedInteger, ParsedByteString;
    EntryAt(data, pos, e, rest);
    PrintedStringParses(data, pos, e.key);
    var middle := pos + |EncodeString(e.key)|;
    next := middle + |Encode(e.value)|;
    PrintedValueParses(lossy, data, middle, depth, e.value);
    KeyAfter(before, e, rest);
    InsertLast(before, e.key, e.value);
    OneEntryParsed(lossy, data, pos, depth, before, e, middle);
  }

  lemma OneEntryParsed(lossy: Bytes -> Bytes, data: Bytes, pos: nat, depth: nat, before: seq<Entry>, e: Entry,
          next: nat)
    requires pos < |data| && data[pos] != B_E && ParsedByteString(data, pos) == Ok(ByteString(e.key), next)
    requires lossy(e.key) == e.key && Insert(before, e.key, e.value) == before + [e]
    ensures ParsedValue(lossy, data, next, depth).Err? ==> ParsedEntries(lossy, data, pos, depth, before).Err?
    ensures ParsedValue(lossy, data, next, depth).Ok? && ParsedValue(lossy, data, next, depth).value == e.value ==>
      ParsedEntries(lossy, data, pos, depth, before)
      == ParsedEntries(lossy, data, ParsedValue(lossy, data, next, depth).next, depth, before + [e])
  {
    hide ParsedInteger, ParsedByteString;
  }

  lemma Shifted<T>(before: seq<T>, e: T, rest: seq<T>)
    ensures (before + [e]) + rest == before + ([e] + rest)
  {
  }

  lemma EntryAt(data: Bytes, pos: nat, e: Entry, rest: seq<Entry>)
    requires At(data, pos, EncodeEntries([e] + rest) + [B_E])
    ensures At(data, pos, EncodeString(e.key))
    ensures At(data, pos + |EncodeString(e.key)|, Encode(e.value))
    ensures At(data, pos + |EncodeString(e.key)| + |Encode(e.value)|, EncodeEntries(rest) + [B_E])
    ensures |EncodeEntries([e] + rest)| == |EncodeString(e.key)| + |Encode(e.value)| + |EncodeEntries(rest)|
  {
    hide EncodeString, Encode, At;
    var key, value, tail := EncodeString(e.key), Encode(e.value), EncodeEntries(rest) + [B_E];
    assert ([e] + rest)[1..] == rest;
    assert EncodeEntries([e] + rest) + [B_E] == key + (value + tail);
    AtParts(data, pos, key, value + tail);
    AtParts(data, pos + |key|, value, tail);
  }

  lemma KeyAfter(before: seq<Entry>, e: Entry, rest: seq<Entry>)
    requires KeysSorted(before + ([e] + rest))
    ensures forall i :: 0 <= i < |before| ==> KeyLess(before[i].key, e.key)
  {
    var all := before + ([e] + rest);
    assert all[|before|] == e;
    forall i | 0 <= i < |before| ensures KeyLess(before[i].key, e.key) {
      assert all[i] == before[i];
    }
  }

  // ----- printing what was parsed

  /** The value can be held and sits at most at the depth limit. */
  ghost predicate Holds(lossy: Bytes -> Bytes, depth: nat, v: Value) {
    WellFormed(lossy, v) && depth + Height(v) <= MAX_PARSE_DEPTH
  }

  ghost predicate ItemsHold(lossy: Bytes -> Bytes, depth: nat, items: seq<Value>) {
    forall i :: 0 <= i < |items| ==> Holds(lossy, depth, items[i])
  }

  ghost predicate EntriesHold(lossy: Bytes -> Bytes, depth: nat, entries: seq<Entry>) {
    KeysSorted(entries) && forall i :: 0 <= i < |entries| ==> EntryHolds(lossy, depth, entries[i])
  }

  ghost predicate EntryHolds(lossy: Bytes -> Bytes, depth: nat, e: Entry) {
    lossy(e.key) == e.key && |e.key| <= USIZE_MAX && Holds(lossy, depth, e.value)
  }

  lemma {:induction false} ItemsHeightBound(items: seq<Value>, bound: nat)
    requires forall i :: 0 <= i < |items| ==> Height(items[i]) <= bound
    ensures ItemsHeight(items) <= bound
  {
    if items != [] {
      ItemsHeightBound(items[1..], bound);
    }
  }

  lemma {:induction false} EntriesHeightBound(entries: seq<Entry>, bound: nat)
    requires forall i :: 0 <= i < |entries| ==> Height(entries[i].value) <= bound
    ensures EntriesHeight(entries) <= bound
  {
    if entries != [] {
      EntriesHeightBound(entries[1..], bound);
    }
  }

  lemma ListHolds(lossy: Bytes -> Bytes, depth: nat, items: seq<Value>)
    requires depth <= MAX_PARSE_DEPTH && ItemsHold(lossy, depth + 1, items)
    ensures Holds(lossy, depth, List(items))
  {
    if items != [] {
      assert Holds(lossy, depth + 1, items[0]);
      ItemsHeightBound(items, MAX_PARSE_DEPTH - depth - 1);
    }
  }

  lemma DictHolds(lossy: Bytes -> Bytes, depth: nat, entries: seq<Entry>)
    requires depth <= MAX_PARSE_DEPTH && EntriesHold(lossy, depth + 1, entries)
    ensures Holds(lossy, depth, Dict(entries))
  {
    if entries != [] {
      assert EntryHolds(lossy, depth + 1, entries[0]);
      EntriesHeightBound(entries, MAX_PARSE_DEPTH - depth - 1);
    }
    forall i | 0 <= i < |entries| ensures EntryOk(lossy, entries[i]) {
      assert EntryHolds(lossy, depth + 1, entries[i]);
    }
  }

  /** Every accepted input gives a value that can be held and is not nested too deeply. */
  lemma {:induction false} ParsedHolds(lossy: Bytes -> Bytes, data: Bytes, pos: nat, depth: nat)
    requires Utf8Lossy(lossy) && 3 * |data| <= USIZE_MAX
    ensures ParsedValue(lossy, data, pos, depth).Ok? ==> Holds(lossy, depth, ParsedValue(lossy, data, pos, depth).value)
    decreases |data| - pos, 0
  {
    hide ParsedInteger, ParsedByteString;
    if depth <= MAX_PARSE_DEPTH && pos < |data| {
      if data[pos] == B_L {
        var r := ParsedItemsHold(lossy, data, pos + 1, depth + 1, []);
        if r.Ok? {
          ListHolds(lossy, depth, r.value.items);
        }
      } else if data[pos] == B_D {
        var r := ParsedEntriesHold(lossy, data, pos + 1, depth + 1, []);
        if r.Ok? {
          DictHolds(lossy, depth, r.value.entries);
        }
      }
    }
  }

  lemma {:induction false} ParsedItemsHold(lossy: Bytes -> Bytes, data: Bytes, pos: nat, depth: nat,
          items: seq<Value>) returns (r: Parsed)
    requires Utf8Lossy(lossy) && 3 * |data| <= USIZE_MAX && pos <= |data| && ItemsHold(lossy, depth, items)
    ensures r == ParsedItems(lossy, data, pos, depth, items)
    ensures r.Ok? ==> r.value.List? && ItemsHold(lossy, depth, r.value.items)
    decreases |data| - pos, 1
  {
    hide ParsedInteger, ParsedByteString;
    r := ParsedItems(lossy, data, pos, depth, items);
    if pos < |data| && data[pos] != B_E {
      ParsedHolds(lossy, data, pos, depth);
      var v := ParsedValue(lossy, data, pos, depth);
      if v.Ok? {
        r := ParsedItemsHold(lossy, data, v.next, depth, items + [v.value]);
      }
    }
  }

  lemma {:induction false} ParsedEntriesHold(lossy: Bytes -> Bytes, data: Bytes, pos: nat, depth: nat,
          entries: seq<Entry>) returns (r: Parsed)
    requires Utf8Lossy(lossy) && 3 * |data| <= USIZE_MAX && pos <= |data| && EntriesHold(lossy, depth, entries)
    ensures r == ParsedEntries(lossy, data, pos, depth, entries)
    ensures r.Ok? ==> r.value.Dict? && EntriesHold(lossy, depth, r.value.entries)
    decreases |data| - pos, 1
  {
    hide ParsedInteger, ParsedByteString;
    r := ParsedEntries(lossy, data, pos, depth, entries);
    if pos < |data| && data[pos] != B_E {
      var key := ParsedByteString(data, pos);
      if key.Ok? {
        ParsedHolds(lossy, data, key.next, depth);
        var v := ParsedValue(lossy, data, key.next, depth);
        if v.Ok? {
          InsertHolds(lossy, depth, entries, lossy(key.value.s), v.value);
          r := ParsedEntriesHold(lossy, data, v.next, depth, Insert(entries, lossy(key.value.s), v.value));
        }
      }
    }
  }

  lemma InsertHolds(lossy: Bytes -> Bytes, depth: nat, entries: seq<Entry>, key: Bytes, v: Value)
    requires EntriesHold(lossy, depth, entries) && EntryHolds(lossy, depth, Entry(key, v))
    ensures EntriesHold(lossy, depth, Insert(entries, key, v))
  {
    InsertSorted(entries, key, v);
    var more := Insert(entries, key, v);
    forall i | 0 <= i < |more| ensures EntryHolds(lossy, depth, more[i]) {
      assert more[i] in more;
    }
  }

  /** `BencodeParser::parse`, which ignores what follows the first value. */
  function Parse(lossy: Bytes -> Bytes, data: Bytes): Option<Value> {
    match ParsedValue(lossy, data, 0, 0)
    case Ok(v, _) => Some(v)
    case Err => None
  }

  /** A value survives printing and parsing, whatever follows it, exactly when it is nested
      no deeper than the limit. */
  lemma RoundTrip(lossy: Bytes -> Bytes, v: Value, rest: Bytes)
    requires WellFormed(lossy, v)
    ensures ParsedValue(lossy, Encode(v) + rest, 0, 0)
      == if Height(v) <= 128 then Ok(v, |Encode(v)|) else Err
  {
    var data := Encode(v) + rest;
    assert data[0..|Encode(v)|] == Encode(v);
    PrintedValueParses(lossy, data, 0, 0, v);
  }

  /** Printing what was parsed normalises: the result parses to the same value, so doing it
      again changes nothing. */
  lemma NormalisationIsIdempotent(lossy: Bytes -> Bytes, data: Bytes)
    requires Utf8Lossy(lossy) && 3 * |data| <= USIZE_MAX
    ensures Parse(lossy, data).Some? ==>
      ParsedValue(lossy, Encode(Parse(lossy, data).value), 0, 0)
      == Ok(Parse(lossy, data).value, |Encode(Parse(lossy, data).value)|)
  {
    ParsedHolds(lossy, data, 0, 0);
    var v := Parse(lossy, data);
    if v.Some? {
      RoundTrip(lossy, v.value, []);
      assert Encode(v.value) + [] == Encode(v.value);
    }
  }
}
