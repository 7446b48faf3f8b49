/** Bencoding byte for byte (BEP 3, section "bencoding"). */
module BencodeBytes {
  import opened Bytes
  import opened Decimals
  import opened Bencode

  // ----- the grammar

  /** A byte string with its length in front. */
  ghost function Sized(s: Bytes): Bytes {
    Print(|s|) + Ascii(":") + s
  }

  /** What every value looks like on the wire. */
  lemma GrammarIs(i: int, s: Bytes, items: seq<Value>, entries: seq<Entry>)
    ensures Encode(Integer(i)) == Ascii("i") + PrintInt(i) + Ascii("e")
    ensures Encode(ByteString(s)) == Sized(s)
    ensures Encode(List(items)) == Ascii("l") + EncodeItems(items) + Ascii("e")
    ensures Encode(Dict(entries)) == Ascii("d") + EncodeEntries(entries) + Ascii("e")
  {
    assert Ascii("i") == [B_I] && Ascii("l") == [B_L] && Ascii("d") == [B_D] && Ascii("e") == [B_E];
    assert Ascii(":") == [COLON];
  }

  lemma TwoItems(a: Value, b: Value)
    ensures EncodeItems([a, b]) == Encode(a) + Encode(b)
  {
    hide Encode;
    assert [a, b][1..] == [b] && [b][1..] == [];
    assert EncodeItems([b]) == Encode(b) + EncodeItems([]);
  }

  lemma SingleItem(v: Value)
    ensures EncodeItems([v]) == Encode(v)
  {
    hide Encode;
    assert [v][1..] == [];
    assert EncodeItems([v]) == Encode(v) + EncodeItems([]);
  }

  lemma {:induction false} ItemsJoin(a: seq<Value>, b: seq<Value>)
    ensures EncodeItems(a + b) == EncodeItems(a) + EncodeItems(b)
  {
    hide Encode;
    if a == [] {
      assert a + b == b;
    } else {
      assert (a + b)[1..] == a[1..] + b;
      ItemsJoin(a[1..], b);
    }
  }

  lemma {:induction false} EntriesJoin(a: seq<Entry>, b: seq<Entry>)
    ensures EncodeEntries(a + b) == EncodeEntries(a) + EncodeEntries(b)
  {
    hide Encode, EncodeString;
    if a == [] {
      assert a + b == b;
    } else {
      assert (a + b)[1..] == a[1..] + b;
      EntriesJoin(a[1..], b);
    }
  }

  lemma SingleEntry(key: Bytes, v: Value)
    ensures EncodeEntries([Entry(key, v)]) == EncodeString(key) + Encode(v) && EncodeEntries([]) == []
  {
    hide Encode, EncodeString;
    assert [Entry(key, v)][1..] == [];
  }

  // ----- literals

  lemma ShortString(s: string)
    requires |s| < 10
    ensures EncodeString(Ascii(s)) == Ascii([(48 + |s|) as char] + ":" + s)
  {
  }

  lemma LongerString(s: string)
    requires 10 <= |s| < 20
    ensures EncodeString(Ascii(s)) == Ascii(['1', (38 + |s|) as char] + ":" + s)
  {
    assert Print(|s|) == [49, 38 + |s|];
  }

  lemma AsciiJoins(a: string, b: string)
    ensures Ascii(a) + Ascii(b) == Ascii(a + b)
  {
  }

  /** The first `n` characters agree, and then `a` ends or has the smaller character. */
  lemma StringsInOrder(a: string, b: string, n: nat)
    requires n <= |a| && n < |b| && forall i :: 0 <= i < n ==> a[i] == b[i]
    requires n < |a| ==> a[n] as int < b[n] as int < 128
    ensures KeyLess(Ascii(a), Ascii(b))
  {
    forall i | 0 <= i < n ensures Ascii(a)[i] == Ascii(b)[i] {
    }
    assert Ascii(a)[..n] == Ascii(b)[..n];
    KeyLessAt(Ascii(a), Ascii(b), n);
  }

  // ----- dictionaries with optional entries

  /** A key and its value, if it is there. */
  datatype Slot = Slot(key: string, value: Option<Value>)

  ghost function Laid(slots: seq<Slot>): seq<Entry> {
    if slots == [] then [] else LaidOne(slots[0]) + Laid(slots[1..])
  }

  ghost function LaidOne(s: Slot): seq<Entry> {
    match s.value case None => [] case Some(v) => [Entry(Ascii(s.key), v)]
  }

  ghost predicate InOrder(slots: seq<Slot>) {
    forall i, j :: 0 <= i < j < |slots| ==> KeyLess(Ascii(slots[i].key), Ascii(slots[j].key))
  }

  ghost predicate NeighboursInOrder(slots: seq<Slot>) {
    forall i :: 0 <= i < |slots| - 1 ==> KeyLess(Ascii(slots[i].key), Ascii(slots[i + 1].key))
  }

  lemma {:induction false} OrderSpreads(slots: seq<Slot>)
    requires NeighboursInOrder(slots)
    ensures InOrder(slots)
    decreases |slots|
  {
    hide KeyLess, Ascii;
    if |slots| > 1 {
      var n := |slots| - 1;
      var rest := slots[..n];
      assert forall i :: 0 <= i < |rest| ==> rest[i] == slots[i];
      OrderSpreads(rest);
      assert KeyLess(Ascii(slots[n - 1].key), Ascii(slots[n - 1 + 1].key));
      forall i | 0 <= i < n ensures KeyLess(Ascii(slots[i].key), Ascii(slots[n].key)) {
        if i < n - 1 {
          assert KeyLess(Ascii(rest[i].key), Ascii(rest[n - 1].key));
          KeyLessTransitive(Ascii(slots[i].key), Ascii(slots[n - 1].key), Ascii(slots[n].key));
        }
      }
      forall i, j | 0 <= i < j < |slots| ensures KeyLess(Ascii(slots[i].key), Ascii(slots[j].key)) {
        if j < n {
          assert KeyLess(Ascii(rest[i].key), Ascii(rest[j].key));
        }
      }
    }
  }

  ghost predicate FromSlot(slots: seq<Slot>, e: Entry) {
    exists i :: 0 <= i < |slots| && slots[i].value == Some(e.value) && e.key == Ascii(slots[i].key)
  }

  lemma {:induction false} LaidSorted(slots: seq<Slot>)
    requires InOrder(slots)
    ensures KeysSorted(Laid(slots)) && forall e :: e in Laid(slots) ==> FromSlot(slots, e)
  {
    hide KeyLess, Ascii;
    if slots != [] {
      var rest := slots[1..];
      assert forall i :: 0 <= i < |rest| ==> rest[i] == slots[i + 1];
      LaidSorted(rest);
      forall e | e in Laid(rest) ensures FromSlot(slots, e) && KeyLess(Ascii(slots[0].key), e.key) {
        var i :| 0 <= i < |rest| && rest[i].value == Some(e.value) && e.key == Ascii(rest[i].key);
        assert slots[i + 1].value == Some(e.value);
      }
      var all := Laid(slots);
      forall i, j | 0 <= i < j < |all| ensures KeyLess(all[i].key, all[j].key) {
        assert all[j] in Laid(rest);
      }
    }
  }

  lemma {:induction false} GetLaid(slots: seq<Slot>, k: nat)
    requires InOrder(slots) && k < |slots|
    ensures Get(Laid(slots), Ascii(slots[k].key)) == slots[k].value
  {
    hide KeyLess, Ascii;
    var rest := slots[1..];
    assert forall i :: 0 <= i < |rest| ==> rest[i] == slots[i + 1];
    if k == 0 {
      LaidSorted(rest);
      forall i | 0 <= i < |Laid(rest)| ensures Laid(rest)[i].key != Ascii(slots[0].key) {
        assert FromSlot(rest, Laid(rest)[i]);
        KeyLessIrreflexive(Ascii(slots[0].key));
      }
      GetAbsent(Laid(rest), Ascii(slots[0].key));
      assert LaidOne(slots[0]) == [] ==> Laid(slots) == Laid(rest);
    } else {
      GetLaid(rest, k - 1);
      KeyLessIrreflexive(Ascii(slots[k].key));
      assert KeyLess(Ascii(slots[0].key), Ascii(slots[k].key));
      if slots[0].value.None? {
        assert Laid(slots) == Laid(rest);
      } else {
        assert Laid(slots)[1..] == Laid(rest);
      }
    }
  }

  ghost function SlotsBytes(slots: seq<Slot>): Bytes {
    if slots == [] then [] else SlotBytes(slots[0]) + SlotsBytes(slots[1..])
  }

  ghost function SlotBytes(s: Slot): Bytes {
    match s.value case None => [] case Some(v) => EncodeString(Ascii(s.key)) + Encode(v)
  }

  lemma {:induction false} LaidPrinted(slots: seq<Slot>)
    ensures EncodeEntries(Laid(slots)) == SlotsBytes(slots)
  {
    hide Ascii, Encode, EncodeString;
    if slots != [] {
      LaidPrinted(slots[1..]);
      EntriesJoin(LaidOne(slots[0]), Laid(slots[1..]));
      match slots[0].value
      case None => assert EncodeEntries([]) == [];
      case Some(v) => SingleEntry(Ascii(slots[0].key), v);
    }
  }

  lemma SlotsFrom(slots: seq<Slot>, k: nat)
    requires k <= |slots|
    ensures SlotsBytes(slots[k..])
      == if k == |slots| then [] else SlotBytes(slots[k]) + SlotsBytes(slots[k + 1..])
  {
    hide SlotBytes;
    if k < |slots| {
      assert slots[k..][1..] == slots[k + 1..];
    }
  }

  lemma LaidFrom(slots: seq<Slot>, k: nat)
    requires k <= |slots|
    ensures Laid(slots[k..]) == if k == |slots| then [] else LaidOne(slots[k]) + Laid(slots[k + 1..])
  {
    hide LaidOne;
    if k < |slots| {
      assert slots[k..][1..] == slots[k + 1..];
    }
  }
}
