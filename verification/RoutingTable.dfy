/** The mutable bucket tree and the routing table around it (src/dht/routing_table.rs). */
module RoutingTables {
  import opened Bytes
  import opened InfoHashes
  import opened Addresses
  import opened BucketTrees

  ghost predicate Updated(before: seq<Contact>, after: seq<Contact>, id: InfoHash, f: Contact -> Contact) {
    && |after| == |before|
    && forall k :: 0 <= k < |after| ==> after[k] == if before[k].id == id then f(before[k]) else before[k]
  }

  class BucketTree {
    var data: seq<TreeNode>
    var size: nat
    const maxSize: nat

    /** `selfId` is the id the table is built around. */
    ghost predicate Valid(selfId: InfoHash)
      reads this
    {
      && ArenaOk(data, selfId)
      && size == |InOrder(data, 0)| <= maxSize
    }

    ghost function Contents(): (c: seq<Contact>)
      requires TreeOk(data)
      reads this
    {
      InOrder(data, 0)
    }

    constructor (maxSize: nat, ghost selfId: InfoHash, now: Instant)
      ensures Valid(selfId) && Contents() == [] && |data| == 1 && this.maxSize == maxSize
    {
      var zeros: seq<byte> := seq(20, _ => 0);
      var ones: seq<byte> := seq(20, _ => 255);
      this.data := [TreeNode(160, zeros, ones, Leaf([], now))];
      this.size := 0;
      this.maxSize := maxSize;
      new;
      EndsOfTheSpace(zeros, ones);
    }

    method GetLeaf(id: InfoHash) returns (idx: nat)
      requires TreeOk(data)
      ensures idx < |data| && data[idx].body.Leaf? && InRange(data[idx], id)
      ensures idx == Route(data, 0, id)
      ensures forall i :: 0 <= i < |data| && data[i].body.Leaf? && InRange(data[i], id) ==> i == idx
    {
      idx := 0;
      RootHoldsAll(data, id);
      while data[idx].body.LeftRight?
        invariant idx < |data| && InRange(data[idx], id) && Route(data, idx, id) == Route(data, 0, id)
        decreases |data| - idx
      {
        var left, right := data[idx].body.left, data[idx].body.right;
        assert ChildrenOk(data, idx);
        HalvesRange(data[idx], data[left], data[right], id);
        if InRange(data[left], id) {
          idx := left;
        } else {
          idx := right;
        }
      }
      forall i | 0 <= i < |data| && data[i].body.Leaf? && InRange(data[i], id) ensures i == idx {
        UniqueLeaf(data, id, i);
      }
    }

    method AddNode(selfId: InfoHash, id: InfoHash, addr: SocketAddr, now: Instant) returns (r: InsertResult)
      requires Valid(selfId)
      modifies this
      ensures Valid(selfId)
      ensures Inserted(old(Contents()), Contents(), Newcomer(id, addr), r, now)
      ensures r.Ignored? ==> old(size) >= maxSize || var leaf := data[Route(data, 0, id)];
        |leaf.body.nodes| == 8 && !InRange(leaf, selfId)
      ensures r.Added? ==> old(size) < maxSize
      ensures r.Added? || r.Ignored? ==>
        forall c :: c in data[Route(data, 0, id)].body.nodes && c != Newcomer(id, addr) ==> c.Status(now) != Bad
      ensures r.ReplacedBad? ==> FirstBad(old(Contents()), data[Route(data, 0, id)], r.bad, now)
      ensures |old(data)| <= |data| <= 315
      ensures |data| > |old(data)| ==> |old(Contents())| >= 8
    {
      var idx := GetLeaf(id);
      r := InsertIntoLeaf(idx, selfId, id, addr, now);
    }

    method InsertIntoLeaf(first: nat, selfId: InfoHash, id: InfoHash, addr: SocketAddr, now: Instant)
      returns (r: InsertResult)
      requires Valid(selfId) && first == Route(data, 0, id)
      modifies this
      ensures Valid(selfId)
      ensures Inserted(old(Contents()), Contents(), Newcomer(id, addr), r, now)
      ensures r.Ignored? ==> old(size) >= maxSize || var leaf := data[Route(data, 0, id)];
        |leaf.body.nodes| == 8 && !InRange(leaf, selfId)
      ensures r.Added? ==> old(size) < maxSize
      ensures r.Added? || r.Ignored? ==>
        forall c :: c in data[Route(data, 0, id)].body.nodes && c != Newcomer(id, addr) ==> c.Status(now) != Bad
      ensures r.ReplacedBad? ==> FirstBad(old(Contents()), data[Route(data, 0, id)], r.bad, now)
      ensures |old(data)| <= |data| <= 315
      ensures |data| > |old(data)| ==> |old(Contents())| >= 8
    {
      hide FirstBad, InOrder, Contact.Status;
      var idx := first;
      while true
        invariant Valid(selfId) && idx == Route(data, 0, id)
        invariant Contents() == old(Contents()) && size == old(size) && |old(data)| <= |data|
        invariant |data| > |old(data)| ==> |old(Contents())| >= BUCKET_MAX_SIZE
        decreases data[idx].bits
      {
        RootHoldsAll(data, id);
        RouteInRange(data, 0, id);
        HasIdInItsLeaf(data, id);
        var leaf := data[idx];
        var nodes := leaf.body.nodes;
        var existing := FindId(nodes, id);
        if existing < |nodes| {
          return WasExisting;
        }
        var k := FindBad(nodes, now);
        if k < |nodes| {
          ReplaceBad(idx, selfId, Newcomer(id, addr), k, now);
          return ReplacedBad(nodes[k]);
        }
        if size >= maxSize {
          return Ignored;
        }
        if |nodes| < BUCKET_MAX_SIZE {
          Push(idx, selfId, Newcomer(id, addr), now);
          return Added;
        }
        assert LeafOk(leaf);
        if Less(selfId, leaf.start) || Less(leaf.end, selfId) {
          LessIsNumeric(selfId, leaf.start);
          LessIsNumeric(leaf.end, selfId);
          return Ignored;
        }
        LessIsNumeric(selfId, leaf.start);
        LessIsNumeric(leaf.end, selfId);
        idx := SplitLeaf(idx, selfId, id, now);
      }
    }

    /** Swap the Bad contact at position `k` for the newcomer. */
    method ReplaceBad(idx: nat, selfId: InfoHash, added: Contact, k: nat, now: Instant)
      requires Valid(selfId) && idx == Route(data, 0, added.id)
      requires k < |data[idx].body.nodes| && !HasId(data[idx].body.nodes, added.id)
        && data[idx].body.nodes[k].Status(now) == Bad
      requires forall j :: 0 <= j < k ==> data[idx].body.nodes[j].Status(now) != Bad
      modifies this`data
      ensures Valid(selfId) && |data| == |old(data)| && Route(data, 0, added.id) == idx
      ensures Inserted(old(Contents()), Contents(), added, ReplacedBad(old(data[idx].body.nodes[k])), now)
      ensures FirstBad(old(Contents()), data[idx], old(data[idx].body.nodes[k]), now)
    {
      FirstBadOfLeaf(data, idx, k, now);
      var nodes := data[idx].body.nodes;
      var data1 := data[idx := data[idx].(body := Leaf(SortById(nodes[k := added]), now))];
      ReplaceOk(data, idx, added, k, now, data1);
      RoutesAfterUpdate(data, idx, data1, selfId);
      RoutesAfterUpdate(data, idx, data1, added.id);
      data := data1;
    }

    /** Put the newcomer into a leaf that still has room. */
    method Push(idx: nat, selfId: InfoHash, added: Contact, now: Instant)
      requires Valid(selfId) && idx == Route(data, 0, added.id) && size < maxSize
      requires !HasId(data[idx].body.nodes, added.id) && |data[idx].body.nodes| < 8
      modifies this
      ensures Valid(selfId) && |data| == |old(data)| && Route(data, 0, added.id) == idx
      ensures SameElements(data[idx].body.nodes, old(data[idx].body.nodes) + [added])
      ensures Inserted(old(Contents()), Contents(), added, Added, now)
    {
      var data1 := data[idx := data[idx].(body := Leaf(SortById(data[idx].body.nodes + [added]), now))];
      PushOk(data, idx, added, now, data1);
      RoutesAfterUpdate(data, idx, data1, selfId);
      RoutesAfterUpdate(data, idx, data1, added.id);
      data := data1;
      size := size + 1;
    }

    /** The tail of the loop of `insert_into_leaf`: halve a full leaf that holds our own id. */
    method SplitLeaf(idx: nat, selfId: InfoHash, id: InfoHash, now: Instant) returns (next: nat)
      requires Valid(selfId) && idx == Route(data, 0, id)
      requires InRange(data[idx], selfId) && InRange(data[idx], id)
      requires |data[idx].body.nodes| == 8 && !HasId(data[idx].body.nodes, id)
      modifies this`data
      ensures Valid(selfId) && Contents() == old(Contents())
      ensures next == Route(data, 0, id) && data[next].bits < old(data)[idx].bits
      ensures |data| == |old(data)| + 2 && |old(Contents())| >= 8
    {
      hide ArenaOk, TreeOk, Route, InOrder, NodeOk, LeafOk, InRange, HasId, Less, Sorted;
      SplitNeeds(data, idx, selfId, id);
      var leaf := data[idx];
      var ((ls, le), (rs, re)) := ComputeSplit(leaf.start, leaf.end, leaf.bits);
      var ld, rd := Partition(leaf.body.nodes, rs);
      var left := TreeNode(leaf.bits - 1, ls, le, Leaf(ld, now));
      var right := TreeNode(leaf.bits - 1, rs, re, Leaf(rd, now));
      var leftIdx, rightIdx := |data|, |data| + 1;
      var data1 := data[idx := leaf.(body := LeftRight(leftIdx, rightIdx))] + [left, right];
      SplitDone(data, idx, selfId, id, left, right, data1);
      data := data1;
      next := if Less(id, rs) then leftIdx else rightIdx;
    }

    /** Drive `BucketTreeIterator` to its end: a stack of node indices, left child on top. */
    method IterNodes() returns (out: seq<Contact>)
      requires TreeOk(data)
      ensures out == Contents() && Sorted(out)
    {
      out := [];
      var queue: seq<nat> := [0];
      while queue != []
        invariant forall k :: 0 <= k < |queue| ==> queue[k] < |data|
        invariant out + StackNodes(data, queue) == Contents()
        decreases StackWeight(data, queue)
      {
        var idx := queue[|queue| - 1];
        var rest := queue[..|queue| - 1];
        assert queue == rest + [idx];
        PushedIndex(data, rest, idx);
        match data[idx].body
        case Leaf(nodes, _) =>
          assert out + (nodes + StackNodes(data, rest)) == (out + nodes) + StackNodes(data, rest);
          out := out + nodes;
          queue := rest;
        case LeftRight(left, right) =>
          PopBranch(data, rest, idx, left, right);
          queue := rest + [right] + [left];
      }
      InOrderSorted(data, 0);
    }

    /** `get_mut` followed by an update of the contact it found. */
    method UpdateNode(selfId: InfoHash, id: InfoHash, refresh: Option<Instant>, f: Contact -> Contact)
      returns (found: bool)
      requires Valid(selfId)
      requires forall c :: f(c).id == c.id
      modifies this`data
      ensures Valid(selfId)
      ensures found <==> HasId(old(Contents()), id)
      ensures Updated(old(Contents()), Contents(), id, f) && |data| == |old(data)|
    {
      var idx := GetLeaf(id);
      var leaf := data[idx];
      HasIdInItsLeaf(data, id);
      var k := FindId(leaf.body.nodes, id);
      found := k < |leaf.body.nodes|;
      if found {
        var refreshed := if refresh.Some? then refresh.value else leaf.body.lastRefreshed;
        var n := leaf.(body := Leaf(leaf.body.nodes[k := f(leaf.body.nodes[k])], refreshed));
        var data1 := data[idx := n];
        assert LeafOk(leaf);
        var pos := UpdateOk(data, idx, k, n.body.nodes[k], data1);
        InOrderSorted(data, 0);
        RoutesAfterUpdate(data, idx, data1, selfId);
        data := data1;
      }
    }
  }

  method FindId(nodes: seq<Contact>, id: InfoHash) returns (k: nat)
    ensures k <= |nodes| && (k < |nodes| <==> HasId(nodes, id))
    ensures k < |nodes| ==> nodes[k].id == id
  {
    k := 0;
    while k < |nodes| && nodes[k].id != id
      invariant k <= |nodes|
      invariant forall j :: 0 <= j < k ==> nodes[j].id != id
    {
      k := k + 1;
    }
  }

  method FindBad(nodes: seq<Contact>, now: Instant) returns (k: nat)
    ensures k <= |nodes|
    ensures k < |nodes| ==> nodes[k].Status(now) == Bad
    ensures forall j :: 0 <= j < k ==> nodes[j].Status(now) != Bad
  {
    k := 0;
    while k < |nodes| && nodes[k].Status(now) != Bad
      invariant k <= |nodes|
      invariant forall j :: 0 <= j < k ==> nodes[j].Status(now) != Bad
    {
      k := k + 1;
    }
  }

  method Partition(nodes: seq<Contact>, pivot: InfoHash) returns (ld: seq<Contact>, rd: seq<Contact>)
    requires Sorted(nodes)
    ensures ld + rd == nodes
    ensures forall c :: c in ld ==> Value(c.id) < Value(pivot)
    ensures forall c :: c in rd ==> Value(pivot) <= Value(c.id)
  {
    ld, rd := [], [];
    for k := 0 to |nodes|
      invariant ld + rd == nodes[..k]
      invariant forall c :: c in ld ==> Value(c.id) < Value(pivot)
      invariant forall c :: c in rd ==> Value(pivot) <= Value(c.id)
    {
      LessIsNumeric(nodes[k].id, pivot);
      if Less(nodes[k].id, pivot) {
        if rd != [] {
          assert nodes[..k][|ld|] == rd[0];
        }
        ld := ld + [nodes[k]];
      } else {
        rd := rd + [nodes[k]];
      }
    }
    assert nodes[..|nodes|] == nodes;
  }

  /** `generate_random_id`: 20 random bytes whose leading bits are copied from `start`. */
  method GenerateRandomId(start: InfoHash, bits: nat, random: InfoHash) returns (id: InfoHash)
    requires bits <= 160
    ensures forall j :: 0 <= j < 160 ==> GetBit(id, j) == if j < 160 - bits then GetBit(start, j) else GetBit(random, j)
  {
    id := random;
    for bit := 0 to 160 - bits
      invariant forall j :: 0 <= j < 160 ==> GetBit(id, j) == if j < bit then GetBit(start, j) else GetBit(random, j)
    {
      id := SetBit(id, bit, GetBit(start, bit));
    }
  }

  /** A refresh id drawn for a bucket is routed back to that bucket. */
  lemma RandomIdReturns(data: seq<TreeNode>, i: nat, random: InfoHash, id: InfoHash)
    requires TreeOk(data) && i < |data| && data[i].body.Leaf?
    requires forall j :: 0 <= j < 160 ==>
      GetBit(id, j) == if j < 160 - data[i].bits then GetBit(data[i].start, j) else GetBit(random, j)
    ensures Route(data, 0, id) == i
  {
    assert NodeOk(data[i]);
    InRangeIsPrefix(data[i], id);
    UniqueLeaf(data, id, i);
  }

  class RoutingTable {
    const id: InfoHash
    var size: nat
    const buckets: BucketTree
    /** How often a Bad contact has been replaced. */
    ghost var replaced: nat

    /** The outer counter is the inner one plus the number of replacements. */
    ghost predicate Valid()
      reads this, buckets
    {
      buckets.Valid(id) && size == buckets.size + replaced
    }

    constructor (id: InfoHash, now: Instant)
      ensures Valid() && fresh(buckets) && buckets.Contents() == [] && |buckets.data| == 1
      ensures buckets.maxSize == 512 && this.id == id && size == 0
    {
      this.id := id;
      this.size := 0;
      this.replaced := 0;
      this.buckets := new BucketTree(512, id, now);
    }

    method AddNode(newId: InfoHash, addr: SocketAddr, now: Instant) returns (r: InsertResult)
      requires Valid()
      modifies this, buckets
      ensures Valid()
      ensures Inserted(old(buckets.Contents()), buckets.Contents(), Newcomer(newId, addr), r, now)
      ensures size == old(size) + if r.Added? || r.ReplacedBad? then 1 else 0
      ensures replaced == old(replaced) + if r.ReplacedBad? then 1 else 0
      ensures size == |buckets.Contents()| + replaced
      ensures r.Ignored? ==> old(buckets.size) >= buckets.maxSize || |buckets.Contents()| >= 8
      ensures r.Added? || r.Ignored? ==> forall c ::
        c in buckets.data[Route(buckets.data, 0, newId)].body.nodes && c != Newcomer(newId, addr) ==>
          c.Status(now) != Bad
      ensures |buckets.data| > |old(buckets.data)| ==> |old(buckets.Contents())| >= 8
    {
      r := buckets.AddNode(id, newId, addr, now);
      LeafIsCounted(buckets.data, newId);
      match r
      case WasExisting =>
      case ReplacedBad(_) =>
        size := size + 1;
        replaced := replaced + 1;
      case Added =>
        size := size + 1;
      case Ignored =>
    }

    method MarkOutgoingRequest(node: InfoHash, now: Instant) returns (found: bool)
      requires Valid()
      modifies buckets
      ensures Valid() && (found <==> HasId(old(buckets.Contents()), node)) && |buckets.data| == |old(buckets.data)|
      ensures Updated(old(buckets.Contents()), buckets.Contents(), node, OutgoingRequest(now))
    {
      found := buckets.UpdateNode(id, node, None, OutgoingRequest(now));
    }

    method MarkResponse(node: InfoHash, now: Instant) returns (found: bool)
      requires Valid()
      modifies buckets
      ensures Valid() && (found <==> HasId(old(buckets.Contents()), node)) && |buckets.data| == |old(buckets.data)|
      ensures Updated(old(buckets.Contents()), buckets.Contents(), node, Response(now))
    {
      found := buckets.UpdateNode(id, node, Some(now), Response(now));
    }

    method MarkError(node: InfoHash) returns (found: bool)
      requires Valid()
      modifies buckets
      ensures Valid() && (found <==> HasId(old(buckets.Contents()), node)) && |buckets.data| == |old(buckets.data)|
      ensures Updated(old(buckets.Contents()), buckets.Contents(), node, OneMoreError())
    {
      found := buckets.UpdateNode(id, node, None, OneMoreError());
    }

    method MarkLastQuery(node: InfoHash, now: Instant) returns (found: bool)
      requires Valid()
      modifies buckets
      ensures Valid() && (found <==> HasId(old(buckets.Contents()), node)) && |buckets.data| == |old(buckets.data)|
      ensures Updated(old(buckets.Contents()), buckets.Contents(), node, LastQuery(now))
    {
      found := buckets.UpdateNode(id, node, None, LastQuery(now));
    }
  }

  /** One contact, asked and silent twice, and another that takes its place: the table holds one
      contact and counts two. */
  method ReplacementIsCounted(id: InfoHash, a: InfoHash, b: InfoHash, addr: SocketAddr, now: Instant)
    returns (size: nat, nodes: seq<Contact>)
    requires a != b
    ensures size == 2 && nodes == [Newcomer(b, addr)]
  {
    var table := TableWithBad(id, a, addr, now);
    var r := table.AddNode(b, addr, now);
    if !r.ReplacedBad? {
      OnlyLeaf(table.buckets.data, b);
    }
    nodes := table.buckets.IterNodes();
    assert nodes[0] in nodes;
    size := table.size;
  }

  method TableWithBad(id: InfoHash, a: InfoHash, addr: SocketAddr, now: Instant) returns (table: RoutingTable)
    ensures fresh(table) && fresh(table.buckets) && table.Valid() && table.size == 1 && table.buckets.maxSize == 512
    ensures |table.buckets.data| == 1
    ensures exists c: Contact :: table.buckets.Contents() == [c] && c.id == a && c.Status(now) == Bad
  {
    hide InOrder, TreeOk, Route;
    table := new RoutingTable(id, now);
    var r := table.AddNode(a, addr, now);
    assert table.buckets.Contents() == [Newcomer(a, addr)] by {
      assert table.buckets.Contents()[0] in table.buckets.Contents();
    }
    var found := table.MarkOutgoingRequest(a, now);
    found := table.MarkError(a);
    found := table.MarkError(a);
    ghost var c := Newcomer(a, addr).(lastRequest := Some(now), errorsInARow := 2);
    assert table.buckets.Contents() == [c];
  }

  lemma OnlyLeaf(data: seq<TreeNode>, id: InfoHash)
    requires TreeOk(data) && |data| == 1
    ensures data[Route(data, 0, id)].body.nodes == InOrder(data, 0)
  {
  }

  function OutgoingRequest(now: Instant): Contact -> Contact {
    (c: Contact) => c.(lastRequest := Some(now))
  }

  function LastQuery(now: Instant): Contact -> Contact {
    (c: Contact) => c.(lastQuery := Some(now))
  }

  function Response(now: Instant): Contact -> Contact {
    (c: Contact) => c.(
      lastResponse := Some(now),
      lastRequest := if c.lastRequest.None? then Some(now) else c.lastRequest,
      errorsInARow := 0)
  }

  function OneMoreError(): Contact -> Contact {
    (c: Contact) => c.(errorsInARow := c.errorsInARow + 1)
  }

  // ----- when a contact is Bad

  datatype Mark = Requested(at: Instant) | Queried(at: Instant) | Responded(at: Instant) | Errored

  function Marked(c: Contact, m: Mark): Contact {
    match m
    case Requested(at) => OutgoingRequest(at)(c)
    case Queried(at) => LastQuery(at)(c)
    case Responded(at) => Response(at)(c)
    case Errored => OneMoreError()(c)
  }

  function MarkedAll(c: Contact, ms: seq<Mark>): Contact {
    if ms == [] then c else Marked(MarkedAll(c, ms[..|ms| - 1]), ms[|ms| - 1])
  }

  /** The errors since the last response. */
  function ErrorsInARow(ms: seq<Mark>): nat {
    if ms == [] || ms[|ms| - 1].Responded? then 0
    else ErrorsInARow(ms[..|ms| - 1]) + if ms[|ms| - 1].Errored? then 1 else 0
  }

  ghost predicate Answered(ms: seq<Mark>) {
    exists m :: m in ms && m.Responded?
  }

  ghost predicate Contacted(ms: seq<Mark>) {
    exists m :: m in ms && (m.Requested? || m.Responded?)
  }

  /** After any marks, a contact is Bad at any time exactly when it was contacted and at least two
      errors have come in a row, a response ending the row. */
  lemma {:induction false} BadExactly(c: Contact, ms: seq<Mark>, now: Instant)
    ensures MarkedAll(c, ms).Status(now) == Bad <==>
      (c.lastRequest.Some? || Contacted(ms)) && ErrorsInARow(ms) + (if Answered(ms) then 0 else c.errorsInARow) >= 2
  {
    ErrorsCount(c, ms);
  }

  lemma {:induction false} ErrorsCount(c: Contact, ms: seq<Mark>)
    ensures MarkedAll(c, ms).errorsInARow == ErrorsInARow(ms) + if Answered(ms) then 0 else c.errorsInARow
    ensures MarkedAll(c, ms).lastRequest.Some? <==> c.lastRequest.Some? || Contacted(ms)
    decreases |ms|
  {
    hide Answered, Contacted;
    if ms == [] {
      NoMarks();
    } else {
      ErrorsCount(c, ms[..|ms| - 1]);
      assert ms == ms[..|ms| - 1] + [ms[|ms| - 1]];
      OneMoreMark(ms[..|ms| - 1], ms[|ms| - 1]);
    }
  }

  lemma NoMarks()
    ensures !Answered([]) && !Contacted([])
  {
  }

  lemma OneMoreMark(ms: seq<Mark>, last: Mark)
    ensures Answered(ms + [last]) <==> Answered(ms) || last.Responded?
    ensures Contacted(ms + [last]) <==> Contacted(ms) || last.Requested? || last.Responded?
  {
    assert forall m :: m in ms + [last] <==> m in ms || m == last;
  }

  // ----- when a contact is Good

  /** The clock does not run backwards, and has come to `now`. */
  ghost predicate InTime(ms: seq<Mark>, now: Instant) {
    && (forall i, j :: 0 <= i < j < |ms| && !ms[i].Errored? && !ms[j].Errored? ==> ms[i].at <= ms[j].at)
    && forall i :: 0 <= i < |ms| && !ms[i].Errored? ==> ms[i].at <= now
  }

  ghost predicate SomeQuery(ms: seq<Mark>, t: Instant) {
    exists i :: 0 <= i < |ms| && ms[i] == Queried(t)
  }

  ghost predicate SomeResponse(ms: seq<Mark>, t: Instant) {
    exists i :: 0 <= i < |ms| && ms[i] == Responded(t)
  }

  ghost predicate SomeRequest(ms: seq<Mark>, t: Instant) {
    exists i :: 0 <= i < |ms| && ms[i] == Requested(t)
  }

  /** A contact that has just been met keeps the time of the last query and of the last response. */
  lemma {:induction false} LastTimesKept(c: Contact, ms: seq<Mark>, now: Instant)
    requires c.lastRequest.None? && c.lastResponse.None? && c.lastQuery.None? && InTime(ms, now)
    ensures var d := MarkedAll(c, ms);
      && (forall t: Instant :: d.lastQuery == Some(t) ==> SomeQuery(ms, t))
      && (forall t: Instant :: SomeQuery(ms, t) ==> d.lastQuery.Some? && t <= d.lastQuery.value)
      && (forall t: Instant :: d.lastResponse == Some(t) ==> SomeResponse(ms, t))
      && (forall t: Instant :: SomeResponse(ms, t) ==> d.lastResponse.Some? && t <= d.lastResponse.value)
    decreases |ms|
  {
    if ms != [] {
      var n := |ms| - 1;
      LastTimesKept(c, ms[..n], now);
      hide SomeQuery, SomeResponse;
      forall t: Instant
        ensures SomeQuery(ms, t) <==> SomeQuery(ms[..n], t) || ms[n] == Queried(t)
        ensures SomeResponse(ms, t) <==> SomeResponse(ms[..n], t) || ms[n] == Responded(t)
      {
        SomeGrows(ms, t);
      }
    }
  }

  lemma SomeGrows(ms: seq<Mark>, t: Instant)
    requires ms != []
    ensures var n := |ms| - 1;
      && (SomeQuery(ms, t) <==> SomeQuery(ms[..n], t) || ms[n] == Queried(t))
      && (SomeResponse(ms, t) <==> SomeResponse(ms[..n], t) || ms[n] == Responded(t))
      && (SomeRequest(ms, t) <==> SomeRequest(ms[..n], t) || ms[n] == Requested(t))
  {
    var n := |ms| - 1;
    forall i | 0 <= i < n ensures ms[..n][i] == ms[i] {
    }
    if i :| 0 <= i < n && ms[..n][i] == Queried(t) {
      assert ms[i] == Queried(t);
    }
    if i :| 0 <= i < n && ms[..n][i] == Responded(t) {
      assert ms[i] == Responded(t);
    }
    if i :| 0 <= i < n && ms[..n][i] == Requested(t) {
      assert ms[i] == Requested(t);
    }
    if i :| 0 <= i < n && ms[i] == Queried(t) {
      assert ms[..n][i] == Queried(t);
    }
    if i :| 0 <= i < n && ms[i] == Responded(t) {
      assert ms[..n][i] == Responded(t);
    }
    if i :| 0 <= i < n && ms[i] == Requested(t) {
      assert ms[..n][i] == Requested(t);
    }
  }

  ghost predicate RequestTime(ms: seq<Mark>, kept: Option<Instant>) {
    && (forall t: Instant :: SomeRequest(ms, t) ==> kept.Some? && t <= kept.value && SomeRequest(ms, kept.value))
    && ((forall t: Instant :: !SomeRequest(ms, t)) ==>
          && (forall t: Instant :: SomeResponse(ms, t) ==> kept.Some? && kept.value <= t)
          && (forall t: Instant :: kept == Some(t) ==> SomeResponse(ms, t)))
  }

  /** And the time of the last request, or without any of the first response. */
  lemma {:induction false} RequestTimeKept(c: Contact, ms: seq<Mark>, now: Instant)
    requires c.lastRequest.None? && InTime(ms, now)
    ensures RequestTime(ms, MarkedAll(c, ms).lastRequest)
    decreases |ms|
  {
    hide RequestTime;
    if ms == [] {
      NoRequestTime();
    } else {
      var n := |ms| - 1;
      RequestTimeKept(c, ms[..n], now);
      RequestTimeNext(ms, MarkedAll(c, ms[..n]).lastRequest, now);
    }
  }

  lemma NoRequestTime()
    ensures RequestTime([], None)
  {
  }

  lemma RequestTimeNext(ms: seq<Mark>, kept: Option<Instant>, now: Instant)
    requires ms != [] && InTime(ms, now) && RequestTime(ms[..|ms| - 1], kept)
    ensures var last := ms[|ms| - 1];
      RequestTime(ms, if last.Requested? || (last.Responded? && kept.None?) then Some(last.at) else kept)
  {
    var last := ms[|ms| - 1];
    var before := ms[..|ms| - 1];
    forall t: Instant
      ensures !last.Errored? && SomeRequest(before, t) ==> t <= last.at
      ensures !last.Errored? && SomeResponse(before, t) ==> t <= last.at
    {
    }
    hide InTime, SomeRequest, SomeResponse;
    forall t: Instant
      ensures SomeRequest(ms, t) <==> SomeRequest(ms[..|ms| - 1], t) || last == Requested(t)
      ensures SomeResponse(ms, t) <==> SomeResponse(ms[..|ms| - 1], t) || last == Responded(t)
    {
      SomeGrows(ms, t);
    }
  }

  /** Age in nanoseconds: less than fifteen minutes, or more. */
  ghost predicate Recent(t: Instant, now: Instant) {
    now < t + 900_000_000_000
  }

  ghost predicate Stale(t: Instant, now: Instant) {
    t + 900_000_000_000 < now
  }

  /** Of the queries, or of the responses, there are some and all are stale. */
  ghost predicate AllStale(ms: seq<Mark>, now: Instant) {
    || ((exists t :: SomeQuery(ms, t)) && forall t: Instant :: SomeQuery(ms, t) ==> Stale(t, now))
    || ((exists t :: SomeResponse(ms, t)) && forall t: Instant :: SomeResponse(ms, t) ==> Stale(t, now))
  }

  /** No request was sent in the last fifteen minutes; without any the first response stands for it. */
  ghost predicate NoRecentRequest(ms: seq<Mark>, now: Instant) {
    && (forall t: Instant :: SomeRequest(ms, t) ==> Stale(t, now))
    && ((exists t :: SomeRequest(ms, t)) || (forall t: Instant :: !SomeResponse(ms, t))
        || (exists t :: SomeResponse(ms, t) && Stale(t, now)))
  }

  lemma MarkedStatus(c: Contact, now: Instant)
    ensures c.Status(now) == Good <==>
      && c.Status(now) != Bad && c.lastRequest.Some?
      && ((c.lastQuery.Some? && Recent(c.lastQuery.value, now))
          || (c.lastResponse.Some? && Recent(c.lastResponse.value, now)))
    ensures c.Status(now) == Questionable <==>
      && c.Status(now) != Bad && c.Status(now) != Good
      && ((c.lastQuery.Some? && Stale(c.lastQuery.value, now))
          || (c.lastResponse.Some? && Stale(c.lastResponse.value, now)))
      && (c.lastRequest.Some? ==> Stale(c.lastRequest.value, now))
  {
  }

  lemma ContactedMeans(ms: seq<Mark>)
    ensures Contacted(ms) <==> exists t :: SomeRequest(ms, t) || SomeResponse(ms, t)
  {
    if Contacted(ms) {
      var m :| m in ms && (m.Requested? || m.Responded?);
      var i :| 0 <= i < |ms| && ms[i] == m;
      assert SomeRequest(ms, m.at) || SomeResponse(ms, m.at);
    }
    if t :| SomeRequest(ms, t) || SomeResponse(ms, t) {
      assert Requested(t) in ms || Responded(t) in ms;
    }
  }

  /** A contact that was just met, after any marks in time: unless it is Bad, it is Good exactly
      if it was contacted and has asked or answered in the last fifteen minutes, and Questionable
      exactly if it is not, but has asked or answered, all of it longer ago, and was not
      contacted since. */
  lemma StatusExactly(id: InfoHash, addr: SocketAddr, ms: seq<Mark>, now: Instant)
    requires InTime(ms, now)
    ensures var status := MarkedAll(Newcomer(id, addr), ms).Status(now);
      && (status == Good <==>
            && status != Bad && Contacted(ms)
            && exists t :: (SomeQuery(ms, t) || SomeResponse(ms, t)) && Recent(t, now))
      && (status == Questionable <==>
            status != Bad && status != Good && AllStale(ms, now) && NoRecentRequest(ms, now))
  {
    hide Contact.Status, MarkedAll, SomeQuery, SomeResponse, SomeRequest, InTime;
    var c := Newcomer(id, addr);
    var d := MarkedAll(c, ms);
    LastTimesKept(c, ms, now);
    RequestTimeKept(c, ms, now);
    ContactedMeans(ms);
    MarkedStatus(d, now);
    GoodTimes(ms, d, now);
    StaleTimes(ms, d, now);
    RequestTimes(ms, d, now);
    ErrorsCount(c, ms);
  }

  lemma GoodTimes(ms: seq<Mark>, d: Contact, now: Instant)
    requires forall t :: d.lastQuery == Some(t) ==> SomeQuery(ms, t)
    requires forall t: Instant :: SomeQuery(ms, t) ==> d.lastQuery.Some? && t <= d.lastQuery.value
    requires forall t :: d.lastResponse == Some(t) ==> SomeResponse(ms, t)
    requires forall t: Instant :: SomeResponse(ms, t) ==> d.lastResponse.Some? && t <= d.lastResponse.value
    ensures (exists t :: (SomeQuery(ms, t) || SomeResponse(ms, t)) && Recent(t, now)) <==>
      ((d.lastQuery.Some? && Recent(d.lastQuery.value, now))
       || (d.lastResponse.Some? && Recent(d.lastResponse.value, now)))
  {
    hide SomeQuery, SomeResponse;
    if d.lastQuery.Some? {
      assert SomeQuery(ms, d.lastQuery.value);
    }
    if d.lastResponse.Some? {
      assert SomeResponse(ms, d.lastResponse.value);
    }
  }

  lemma StaleTimes(ms: seq<Mark>, d: Contact, now: Instant)
    requires forall t :: d.lastQuery == Some(t) ==> SomeQuery(ms, t)
    requires forall t: Instant :: SomeQuery(ms, t) ==> d.lastQuery.Some? && t <= d.lastQuery.value
    requires forall t :: d.lastResponse == Some(t) ==> SomeResponse(ms, t)
    requires forall t: Instant :: SomeResponse(ms, t) ==> d.lastResponse.Some? && t <= d.lastResponse.value
    ensures AllStale(ms, now) <==>
      ((d.lastQuery.Some? && Stale(d.lastQuery.value, now))
       || (d.lastResponse.Some? && Stale(d.lastResponse.value, now)))
  {
    hide SomeQuery, SomeResponse;
    if d.lastQuery.Some? {
      assert SomeQuery(ms, d.lastQuery.value);
    }
    if d.lastResponse.Some? {
      assert SomeResponse(ms, d.lastResponse.value);
    }
  }

  lemma RequestTimes(ms: seq<Mark>, d: Contact, now: Instant)
    requires RequestTime(ms, d.lastRequest)
    ensures NoRecentRequest(ms, now) <==> (d.lastRequest.Some? ==> Stale(d.lastRequest.value, now))
  {
    hide SomeRequest, SomeResponse;
    if t :| SomeRequest(ms, t) {
      assert SomeRequest(ms, d.lastRequest.value);
    } else if d.lastRequest.Some? {
      assert SomeResponse(ms, d.lastRequest.value);
    }
  }
}
