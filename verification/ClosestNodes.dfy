/** Choosing the contacts to answer with (src/dht/routing_table.rs,
    `sorted_by_distance_from` and `closest_nodes`). */
module ClosestNodes {
  import opened Bytes
  import opened InfoHashes
  import opened Addresses
  import opened BucketTrees
  import opened RoutingTables
  import opened Sorting

  function StatusOrder(s: NodeStatus): nat {
    match s
    case Good => 0
    case Questionable => 1
    case Unknown => 2
    case Bad => 3
  }

  /** The sort key comparison: status first, then XOR distance. */
  predicate Nearer(a: Contact, b: Contact, target: InfoHash, now: Instant) {
    var x, y := StatusOrder(a.Status(now)), StatusOrder(b.Status(now));
    x < y || (x == y && Less(Distance(target, a.id), Distance(target, b.id)))
  }

  ghost function Far(c: Contact, target: InfoHash): nat {
    Value(Distance(target, c.id))
  }

  /** Better status, or as good and numerically closer. */
  ghost predicate Preferred(a: Contact, b: Contact, target: InfoHash, now: Instant) {
    var x, y := StatusOrder(a.Status(now)), StatusOrder(b.Status(now));
    x < y || (x == y && Far(a, target) < Far(b, target))
  }

  ghost predicate InPreference(nodes: seq<Contact>, target: InfoHash, now: Instant) {
    forall i, j :: 0 <= i < j < |nodes| ==> Preferred(nodes[i], nodes[j], target, now)
  }

  lemma {:induction false} XorCancels(a: nat, b: nat, c: nat)
    requires Xor(a, b) == Xor(a, c)
    ensures b == c
  {
    if a != 0 && b != 0 && c != 0 {
      assert Xor(a, b) / 2 == Xor(a / 2, b / 2) && Xor(a, c) / 2 == Xor(a / 2, c / 2);
      XorCancels(a / 2, b / 2, c / 2);
      assert b % 2 == c % 2;
    } else if a != 0 {
      XorItself(a, if b == 0 then c else b);
    }
  }

  lemma {:induction false} XorItself(a: nat, b: nat)
    ensures Xor(a, b) == a <==> b == 0
  {
    if a != 0 && b != 0 {
      XorItself(a / 2, b / 2);
    }
  }

  /** Different ids are at different distances. */
  lemma DistanceInjective(target: InfoHash, a: InfoHash, b: InfoHash)
    requires Value(Distance(target, a)) == Value(Distance(target, b))
    ensures a == b
  {
    var x, y := Distance(target, a), Distance(target, b);
    ValueInjective(x, y);
    forall i | 0 <= i < 20 ensures a[i] == b[i] {
      assert x[i] == XorByte(target[i], a[i]) && y[i] == XorByte(target[i], b[i]);
      XorCancels(target[i], a[i], b[i]);
    }
    assert a == b;
  }

  function ByPreference(target: InfoHash, now: Instant): (Contact, Contact) -> bool {
    (a: Contact, b: Contact) => Nearer(a, b, target, now)
  }

  lemma NearerIsNumeric(a: Contact, b: Contact, target: InfoHash, now: Instant)
    ensures Nearer(a, b, target, now) <==> Preferred(a, b, target, now)
  {
    LessIsNumeric(Distance(target, a.id), Distance(target, b.id));
  }

  /** The order of the sort, ties by id. */
  ghost predicate Sooner(a: Contact, b: Contact, target: InfoHash, now: Instant) {
    Preferred(a, b, target, now) || (!Preferred(b, a, target, now) && Value(a.id) < Value(b.id))
  }

  lemma PreferenceBreaksTies(target: InfoHash, now: Instant)
    ensures BreaksTies(ByPreference(target, now),
      (a: Contact, b: Contact) => Sooner(a, b, target, now), (c: Contact) => Value(c.id) as int)
  {
    hide Far, StatusOrder;
    forall a, b ensures Nearer(a, b, target, now) <==> Preferred(a, b, target, now) {
      NearerIsNumeric(a, b, target, now);
    }
    hide Nearer;
  }

  /** `sorted_by_distance_from` on the contacts in id order. */
  function SortedByDistance(nodes: seq<Contact>, target: InfoHash, now: Instant): seq<Contact> {
    StableSort(nodes, ByPreference(target, now))
  }

  lemma SortedByDistanceIs(nodes: seq<Contact>, target: InfoHash, now: Instant)
    requires BucketTrees.Sorted(nodes)
    ensures InPreference(SortedByDistance(nodes, target, now), target, now)
    ensures forall c :: c in SortedByDistance(nodes, target, now) <==> c in nodes
    ensures |SortedByDistance(nodes, target, now)| == |nodes|
  {
    var sooner := (a: Contact, b: Contact) => Sooner(a, b, target, now);
    var position := (c: Contact) => Value(c.id) as int;
    PreferenceBreaksTies(target, now);
    StableSortSorts(nodes, ByPreference(target, now), sooner, position);
    var r := SortedByDistance(nodes, target, now);
    forall i, j | 0 <= i < j < |r| ensures Preferred(r[i], r[j], target, now) {
      assert sooner(r[i], r[j]);
      if !Preferred(r[i], r[j], target, now) {
        assert Far(r[i], target) == Far(r[j], target);
        DistanceInjective(target, r[i].id, r[j].id);
      }
    }
  }

  /** The best `k` contacts that are not Bad, or all of them: a contact that is passed over
      although it is not Bad is less preferred than each of the `k` chosen. Contacts of
      Unknown status are chosen too, after the Questionable ones. */
  ghost predicate IsClosest(r: seq<Contact>, nodes: seq<Contact>, target: InfoHash, k: nat, now: Instant) {
    && |r| <= k && InPreference(r, target, now)
    && (forall c :: c in r ==> c in nodes && c.Status(now) != Bad)
    && (forall c :: c in nodes && c.Status(now) != Bad && c !in r ==>
          |r| == k && forall x :: x in r ==> Preferred(x, c, target, now))
  }

  function NotBad(now: Instant): Contact -> bool {
    (c: Contact) => c.Status(now) != Bad
  }

  function Addrs(nodes: seq<Contact>): (addrs: seq<SocketAddr>)
    ensures |addrs| == |nodes| && forall i :: 0 <= i < |nodes| ==> addrs[i] == nodes[i].addr
  {
    seq(|nodes|, i requires 0 <= i < |nodes| => nodes[i].addr)
  }

  /** The addresses of the closest contacts, in order of preference. */
  method Closest(table: RoutingTable, target: InfoHash, k: nat, now: Instant) returns (addrs: seq<SocketAddr>)
    requires table.Valid()
    ensures exists r :: IsClosest(r, table.buckets.Contents(), target, k, now) && addrs == Addrs(r)
  {
    var nodes := table.buckets.IterNodes();
    var sorted := SortedByDistance(nodes, target, now);
    SortedByDistanceIs(nodes, target, now);
    var chosen := TakeWhere(sorted, NotBad(now), k);
    ChosenAreClosest(sorted, nodes, target, k, now);
    addrs := Addrs(chosen);
  }

  lemma ChosenAreClosest(sorted: seq<Contact>, nodes: seq<Contact>, target: InfoHash, k: nat, now: Instant)
    requires InPreference(sorted, target, now) && forall c :: c in sorted <==> c in nodes
    ensures IsClosest(TakeWhere(sorted, NotBad(now), k), nodes, target, k, now)
  {
    hide Preferred;
    var sooner := (a: Contact, b: Contact) => Preferred(a, b, target, now);
    TakesFirstKept(sorted, NotBad(now), sooner, k);
    var r := TakeWhere(sorted, NotBad(now), k);
    forall c | c in nodes && c.Status(now) != Bad && c !in r
      ensures |r| == k && forall x :: x in r ==> Preferred(x, c, target, now)
    {
      assert c in sorted && NotBad(now)(c);
      assert forall x :: x in r ==> sooner(x, c);
    }
    forall i, j | 0 <= i < j < |r| ensures Preferred(r[i], r[j], target, now) {
      assert sooner(r[i], r[j]);
    }
    forall c | c in r ensures c in nodes && c.Status(now) != Bad {
      assert NotBad(now)(c);
    }
  }

  // ----- when only good and questionable contacts are returned

  predicate Usable(c: Contact, now: Instant) {
    c.Status(now) == Good || c.Status(now) == Questionable
  }

  function UsableOf(nodes: seq<Contact>, now: Instant): set<Contact> {
    set c | c in nodes && Usable(c, now)
  }

  lemma {:induction false} ElementsOf(r: seq<Contact>, target: InfoHash, now: Instant)
    requires InPreference(r, target, now)
    ensures |set c | c in r| == |r|
  {
    hide StatusOrder, Far;
    if r != [] {
      var rest, last := r[..|r| - 1], r[|r| - 1];
      ElementsOf(rest, target, now);
      assert r == rest + [last];
      assert last !in rest;
      assert (set c | c in r) == (set c | c in rest) + {last};
    }
  }

  /** A subset is smaller, and as large only if it is everything. */
  lemma {:induction false} Counted(a: set<Contact>, b: set<Contact>)
    requires a <= b
    ensures |a| <= |b| && (|a| == |b| ==> a == b)
  {
    assert b == a + (b - a) && a !! b - a;
    assert |b| == |a| + |b - a|;
  }

  /** Every contact returned is good or questionable exactly when the table holds none of
      Unknown status or at least `k` good or questionable ones. */
  lemma OnlyUsableExactly(r: seq<Contact>, nodes: seq<Contact>, target: InfoHash, k: nat, now: Instant)
    requires IsClosest(r, nodes, target, k, now)
    ensures (forall c :: c in r ==> Usable(c, now)) <==>
      (forall c :: c in nodes ==> c.Status(now) != Unknown) || |UsableOf(nodes, now)| >= k
  {
    hide Contact.Status, Far;
    var returned, usable := (set c | c in r), UsableOf(nodes, now);
    ElementsOf(r, target, now);
    if x :| x in r && !Usable(x, now) {
      assert usable <= returned - {x} by {
        forall c | c in usable ensures c in r {
          assert !Preferred(x, c, target, now);
        }
      }
      Counted(usable, returned - {x});
    } else {
      assert returned <= usable;
      Counted(returned, usable);
    }
  }

  /** A contact is of Unknown status when it enters the table, and with no other contact in it
      it is the answer. */
  lemma NewcomerIsReturned(id: InfoHash, addr: SocketAddr, r: seq<Contact>, target: InfoHash, k: nat, now: Instant)
    requires k > 0 && IsClosest(r, [Newcomer(id, addr)], target, k, now)
    ensures r == [Newcomer(id, addr)] && !Usable(r[0], now)
  {
    var c := Newcomer(id, addr);
    assert c in [c];
    ElementsOf(r, target, now);
    assert (set x | x in r) <= {c};
    Counted((set x | x in r), {c});
    if c in r {
      assert r[0] in r;
    }
  }

  // ----- the order spelled out

  /** The answer lists good contacts before questionable ones before those of Unknown status, and
      in each group whoever has the target's bit where two of them first differ comes first. */
  lemma InPreferenceMeans(r: seq<Contact>, target: InfoHash, now: Instant, i: nat, j: nat)
    requires InPreference(r, target, now) && i < j < |r|
    ensures r[j].Status(now) == Good ==> r[i].Status(now) == Good
    ensures r[j].Status(now) == Questionable ==> r[i].Status(now) == Good || r[i].Status(now) == Questionable
    ensures r[j].Status(now) == Unknown ==> r[i].Status(now) != Bad
    ensures r[i].Status(now) == r[j].Status(now) ==> NearerByBits(r[i].id, r[j].id, target)
  {
    hide Contact.Status;
    PreferredMeans(r[i], r[j], target, now);
  }

  /** Where the ids first differ, `a` has the bit of the target. */
  ghost predicate NearerByBits(a: InfoHash, b: InfoHash, target: InfoHash) {
    exists n :: 0 <= n < 160 && GetBit(a, n) != GetBit(b, n) && GetBit(a, n) == GetBit(target, n)
      && forall j :: 0 <= j < n ==> GetBit(a, j) == GetBit(b, j)
  }

  lemma PreferredMeans(a: Contact, b: Contact, target: InfoHash, now: Instant)
    requires Preferred(a, b, target, now)
    ensures b.Status(now) == Good ==> a.Status(now) == Good
    ensures b.Status(now) == Questionable ==> a.Status(now) == Good || a.Status(now) == Questionable
    ensures b.Status(now) == Unknown ==> a.Status(now) != Bad
    ensures a.Status(now) == b.Status(now) ==> NearerByBits(a.id, b.id, target)
  {
    hide Contact.Status, GetBit, Distance, Value, NearerByBits;
    if a.Status(now) == b.Status(now) {
      NearerIsByBits(a.id, b.id, target);
    }
  }

  lemma NearerIsByBits(a: InfoHash, b: InfoHash, target: InfoHash)
    ensures Value(Distance(target, a)) < Value(Distance(target, b)) <==> NearerByBits(a, b, target)
  {
    hide GetBit, Distance, Less, Value;
    LessIsNumeric(Distance(target, a), Distance(target, b));
    if a != b {
      var n := FirstDifference(a, b);
      FirstDifferenceDecides(target, a, b, n);
      if NearerByBits(a, b, target) {
        var m :| 0 <= m < 160 && GetBit(a, m) != GetBit(b, m) && GetBit(a, m) == GetBit(target, m)
          && forall j :: 0 <= j < m ==> GetBit(a, j) == GetBit(b, j);
        assert m == n;
      }
    }
  }

  lemma FirstDifference(a: InfoHash, b: InfoHash) returns (n: nat)
    requires a != b
    ensures n < 160 && GetBit(a, n) != GetBit(b, n) && forall j :: 0 <= j < n ==> GetBit(a, j) == GetBit(b, j)
  {
    hide GetBit;
    n := 0;
    while n < 160 && GetBit(a, n) == GetBit(b, n)
      invariant n <= 160 && forall j :: 0 <= j < n ==> GetBit(a, j) == GetBit(b, j)
    {
      n := n + 1;
    }
    if n == 160 {
      PrefixAgrees(a, b, 8 * |a|);
      ValueInjective(a, b);
    }
  }

  /** Whoever is passed over although it is not Bad has no better status than anybody chosen, and
      with the same status is farther. */
  lemma PassedOverMeans(r: seq<Contact>, nodes: seq<Contact>, target: InfoHash, k: nat, now: Instant, c: Contact,
          x: Contact)
    requires IsClosest(r, nodes, target, k, now) && c in nodes && c.Status(now) != Bad && c !in r && x in r
    ensures |r| == k
    ensures c.Status(now) == Good ==> x.Status(now) == Good
    ensures c.Status(now) == Questionable ==> x.Status(now) == Good || x.Status(now) == Questionable
    ensures c.Status(now) == x.Status(now) ==> NearerByBits(x.id, c.id, target)
  {
    hide Contact.Status, NearerByBits, Preferred;
    PreferredMeans(x, c, target, now);
  }
}
