/** The Kademlia bucket tree (src/dht/routing_table.rs): an append-only arena of
    nodes, each covering the ids that share its leading bits. */
module BucketTrees {
  import opened Bytes
  import opened InfoHashes
  import opened Addresses

  const BUCKET_MAX_SIZE := 8
  /** Fifteen minutes, in nanoseconds. */
  const INACTIVITY_TIMEOUT := 900_000_000_000

  type Instant = nat

  /** `now - earlier`; subtraction of instants saturates at zero. */
  function Since(now: Instant, earlier: Instant): nat {
    if now < earlier then 0 else now - earlier
  }

  datatype NodeStatus = Good | Questionable | Bad | Unknown

  datatype Contact = Contact(
    id: InfoHash,
    addr: SocketAddr,
    lastRequest: Option<Instant>,
    lastResponse: Option<Instant>,
    lastQuery: Option<Instant>,
    errorsInARow: nat)
  {
    function Status(now: Instant): NodeStatus {
      if lastRequest.Some? && errorsInARow >= 2 then Bad
      else if lastRequest.Some?
           && ((lastResponse.Some? && Since(now, lastResponse.value) < INACTIVITY_TIMEOUT)
            || (lastQuery.Some? && Since(now, lastQuery.value) < INACTIVITY_TIMEOUT)) then Good
      else if ((lastQuery.Some? && Since(now, lastQuery.value) > INACTIVITY_TIMEOUT)
            || (lastResponse.Some? && Since(now, lastResponse.value) > INACTIVITY_TIMEOUT))
           && (lastRequest.Some? ==> Since(now, lastRequest.value) > INACTIVITY_TIMEOUT) then Questionable
      else Unknown
    }
  }

  function Newcomer(id: InfoHash, addr: SocketAddr): Contact {
    Contact(id, addr, None, None, None, 0)
  }

  datatype Body = Leaf(nodes: seq<Contact>, lastRefreshed: Instant) | LeftRight(left: nat, right: nat)
  datatype TreeNode = TreeNode(bits: nat, start: InfoHash, end: InfoHash, body: Body)

  datatype InsertResult = WasExisting | ReplacedBad(bad: Contact) | Added | Ignored

  // ----- ranges

  /** The start ends in `bits` zeros, the end in `bits` ones, and both begin alike. */
  ghost predicate NodeOk(n: TreeNode) {
    && n.bits <= 160
    && (forall j :: 0 <= j < 160 - n.bits ==> GetBit(n.start, j) == GetBit(n.end, j))
    && (forall j :: 160 - n.bits <= j < 160 ==> !GetBit(n.start, j) && GetBit(n.end, j))
  }

  predicate InRange(n: TreeNode, id: InfoHash)
    ensures InRange(n, id) <==> Value(n.start) <= Value(id) <= Value(n.end)
  {
    LessIsNumeric(id, n.start);
    LessIsNumeric(n.end, id);
    !Less(id, n.start) && !Less(n.end, id)
  }

  lemma {:induction false} PrefixTail(h: InfoHash, n: nat, m: nat)
    requires n <= m <= 160
    ensures Prefix(h, n) * Pow2(m - n) <= Prefix(h, m) < (Prefix(h, n) + 1) * Pow2(m - n)
    ensures (forall j :: n <= j < m ==> !GetBit(h, j)) ==> Prefix(h, m) == Prefix(h, n) * Pow2(m - n)
    ensures (forall j :: n <= j < m ==> GetBit(h, j)) ==> Prefix(h, m) == (Prefix(h, n) + 1) * Pow2(m - n) - 1
  {
    if n < m {
      PrefixTail(h, n, m - 1);
      Doubling(Prefix(h, n), m - n);
      Doubling(Prefix(h, n) + 1, m - n);
    }
  }

  /** A node's range is aligned and holds exactly 2^bits ids. */
  lemma RangeSize(n: TreeNode)
    requires NodeOk(n)
    ensures Value(n.start) == Prefix(n.start, 160 - n.bits) * Pow2(n.bits)
    ensures Value(n.end) == Value(n.start) + Pow2(n.bits) - 1
  {
    var k, m := 160 - n.bits, 8 * |n.start|;
    assert m - k == n.bits && 8 * |n.end| == m;
    PrefixTail(n.start, k, m);
    PrefixTail(n.end, k, m);
    PrefixAgrees(n.start, n.end, k);
    Distribute(Prefix(n.start, k), Pow2(n.bits));
  }

  lemma Distribute(a: nat, p: nat)
    ensures (a + 1) * p == a * p + p
  {
  }

  lemma MulLess(a: nat, b: nat, p: nat)
    requires a < b
    ensures (a + 1) * p <= b * p
  {
    assert b * p == (a + 1) * p + (b - a - 1) * p;
  }

  /** Being in range is sharing the leading bits. */
  lemma InRangeIsPrefix(n: TreeNode, id: InfoHash)
    requires NodeOk(n)
    ensures InRange(n, id) <==> forall j :: 0 <= j < 160 - n.bits ==> GetBit(id, j) == GetBit(n.start, j)
  {
    var k, m := 160 - n.bits, 8 * |id|;
    assert m - k == n.bits;
    RangeSize(n);
    PrefixTail(id, k, m);
    PrefixAgrees(id, n.start, k);
    var x, y, p := Prefix(id, k), Prefix(n.start, k), Pow2(n.bits);
    Distribute(y, p);
    if x < y {
      MulLess(x, y, p);
    } else if y < x {
      MulLess(y, x, p);
    }
  }

  function ComputeSplit(start: InfoHash, end: InfoHash, bits: nat): ((InfoHash, InfoHash), (InfoHash, InfoHash))
    requires 1 <= bits <= 160
  {
    var changingBit := 160 - bits;
    ((start, SetBit(end, changingBit, false)), (SetBit(start, changingBit, true), end))
  }

  /** The halves computed by clearing and setting one bit partition the range. */
  lemma SplitHalves(n: TreeNode, l: TreeNode, r: TreeNode)
    requires NodeOk(n) && n.bits >= 1
    requires l.bits == r.bits == n.bits - 1
    requires ((l.start, l.end), (r.start, r.end)) == ComputeSplit(n.start, n.end, n.bits)
    ensures NodeOk(l) && NodeOk(r)
    ensures l.start == n.start && r.end == n.end && Value(l.end) + 1 == Value(r.start)
  {
    HalvesOk(n, l, r);
    hide NodeOk, Value, Prefix;
    RangeSize(n);
    RangeSize(l);
    RangeSize(r);
    assert Pow2(n.bits) == 2 * Pow2(n.bits - 1);
  }

  lemma HalvesOk(n: TreeNode, l: TreeNode, r: TreeNode)
    requires NodeOk(n) && n.bits >= 1
    requires l.bits == r.bits == n.bits - 1
    requires ((l.start, l.end), (r.start, r.end)) == ComputeSplit(n.start, n.end, n.bits)
    ensures NodeOk(l) && NodeOk(r) && l.start == n.start && r.end == n.end
  {
    hide GetBit;
  }

  // ----- the tree

  ghost predicate Sorted(nodes: seq<Contact>) {
    forall i, j :: 0 <= i < j < |nodes| ==> Value(nodes[i].id) < Value(nodes[j].id)
  }

  ghost predicate LeafOk(n: TreeNode) {
    n.body.Leaf? ==>
      && |n.body.nodes| <= BUCKET_MAX_SIZE
      && Sorted(n.body.nodes)
      && forall k :: 0 <= k < |n.body.nodes| ==> InRange(n, n.body.nodes[k].id)
  }

  ghost predicate Halves(n: TreeNode, l: TreeNode, r: TreeNode) {
    && l.bits + 1 == n.bits == r.bits + 1
    && l.start == n.start && r.end == n.end
    && Value(l.end) + 1 == Value(r.start)
  }

  ghost predicate ChildrenOk(data: seq<TreeNode>, i: nat)
    requires i < |data|
  {
    data[i].body.LeftRight? ==>
      var l, r := data[i].body.left, data[i].body.right;
      i < l < |data| && i < r < |data| && Halves(data[i], data[l], data[r])
  }

  ghost predicate IsChild(data: seq<TreeNode>, p: nat, i: nat)
    requires p < |data|
  {
    data[p].body.LeftRight? && (data[p].body.left == i || data[p].body.right == i)
  }

  ghost predicate HasParent(data: seq<TreeNode>, i: nat)
    requires i < |data|
  {
    exists p :: 0 <= p < i && IsChild(data, p, i)
  }

  ghost predicate TreeOk(data: seq<TreeNode>) {
    && |data| > 0
    && data[0].bits == 160
    && (forall i :: 0 <= i < |data| ==> NodeOk(data[i]) && LeafOk(data[i]) && ChildrenOk(data, i))
    && (forall i :: 0 < i < |data| ==> HasParent(data, i))
  }

  /** The leaf that `get_leaf` walks to from node `i`. */
  function Route(data: seq<TreeNode>, i: nat, id: InfoHash): (r: nat)
    requires TreeOk(data) && i < |data|
    ensures i <= r < |data| && data[r].body.Leaf?
    decreases |data| - i
  {
    match data[i].body
    case Leaf(_, _) => i
    case LeftRight(l, r) =>
      assert ChildrenOk(data, i);
      if InRange(data[l], id) then Route(data, l, id) else Route(data, r, id)
  }

  /** All contacts, left to right: what `iter_nodes` yields. */
  function InOrder(data: seq<TreeNode>, i: nat): seq<Contact>
    requires TreeOk(data) && i < |data|
    decreases |data| - i
  {
    match data[i].body
    case Leaf(nodes, _) => nodes
    case LeftRight(l, r) => assert ChildrenOk(data, i); InOrder(data, l) + InOrder(data, r)
  }

  lemma RootHoldsAll(data: seq<TreeNode>, id: InfoHash)
    requires TreeOk(data)
    ensures InRange(data[0], id)
  {
    InRangeIsPrefix(data[0], id);
  }

  lemma {:induction false} RouteInRange(data: seq<TreeNode>, i: nat, id: InfoHash)
    requires TreeOk(data) && i < |data| && InRange(data[i], id)
    ensures InRange(data[Route(data, i, id)], id)
    decreases |data| - i
  {
    match data[i].body
    case Leaf(_, _) =>
    case LeftRight(l, r) =>
      assert ChildrenOk(data, i);
      RouteInRange(data, if InRange(data[l], id) then l else r, id);
  }

  lemma HalvesRange(n: TreeNode, l: TreeNode, r: TreeNode, id: InfoHash)
    requires NodeOk(n) && NodeOk(l) && NodeOk(r) && Halves(n, l, r)
    ensures InRange(n, id) <==> InRange(l, id) || InRange(r, id)
    ensures !(InRange(l, id) && InRange(r, id))
  {
    RangeSize(n);
    RangeSize(l);
    RangeSize(r);
  }

  lemma RouteChild(data: seq<TreeNode>, p: nat, i: nat, id: InfoHash)
    requires TreeOk(data) && p < |data| && i < |data| && IsChild(data, p, i) && InRange(data[i], id)
    ensures InRange(data[p], id) && Route(data, p, id) == Route(data, i, id)
  {
    var l, r := data[p].body.left, data[p].body.right;
    assert ChildrenOk(data, p);
    HalvesRange(data[p], data[l], data[r], id);
  }

  /** Every node whose range holds the id lies on the walk from the root. */
  lemma {:induction false} RouteThrough(data: seq<TreeNode>, i: nat, id: InfoHash)
    requires TreeOk(data) && i < |data| && InRange(data[i], id)
    ensures Route(data, 0, id) == Route(data, i, id)
    decreases i
  {
    if i > 0 {
      assert HasParent(data, i);
      var p :| 0 <= p < i && IsChild(data, p, i);
      RouteChild(data, p, i, id);
      RouteThrough(data, p, id);
    }
  }

  /** `get_leaf` ends at the only leaf whose range holds the id. */
  lemma UniqueLeaf(data: seq<TreeNode>, id: InfoHash, i: nat)
    requires TreeOk(data) && i < |data| && data[i].body.Leaf?
    ensures InRange(data[i], id) <==> i == Route(data, 0, id)
  {
    RootHoldsAll(data, id);
    RouteInRange(data, 0, id);
    if InRange(data[i], id) {
      RouteThrough(data, i, id);
    }
  }

  /** The contacts below a node are in its range and strictly increasing. */
  lemma {:induction false} InOrderSorted(data: seq<TreeNode>, i: nat)
    requires TreeOk(data) && i < |data|
    ensures forall k :: 0 <= k < |InOrder(data, i)| ==> InRange(data[i], InOrder(data, i)[k].id)
    ensures Sorted(InOrder(data, i))
    decreases |data| - i
  {
    match data[i].body
    case Leaf(_, _) => assert LeafOk(data[i]);
    case LeftRight(l, r) =>
      assert ChildrenOk(data, i);
      InOrderSorted(data, l);
      InOrderSorted(data, r);
      RangeSize(data[l]);
      RangeSize(data[r]);
  }

  /** A contact is in the tree exactly when it is in the leaf its id routes to. */
  lemma {:induction false} FoundInItsLeaf(data: seq<TreeNode>, i: nat, n: Contact)
    requires TreeOk(data) && i < |data| && InRange(data[i], n.id)
    ensures n in InOrder(data, i) <==> n in data[Route(data, i, n.id)].body.nodes
    decreases |data| - i
  {
    match data[i].body
    case Leaf(_, _) =>
    case LeftRight(l, r) =>
      assert ChildrenOk(data, i);
      HalvesRange(data[i], data[l], data[r], n.id);
      InOrderSorted(data, l);
      InOrderSorted(data, r);
      FoundInItsLeaf(data, if InRange(data[l], n.id) then l else r, n);
  }

  // ----- changing one leaf

  /** `data1` differs from `data0` at `idx` only, and may have grown. */
  ghost predicate SameElsewhere(data0: seq<TreeNode>, data1: seq<TreeNode>, idx: nat) {
    && idx < |data0| <= |data1|
    && forall k :: 0 <= k < |data0| && k != idx ==> data1[k] == data0[k]
  }

  lemma {:induction false} InOrderUntouched(data0: seq<TreeNode>, data1: seq<TreeNode>, i: nat, idx: nat, x: InfoHash)
    requires TreeOk(data0) && TreeOk(data1) && SameElsewhere(data0, data1, idx)
    requires i < |data0| && InRange(data0[idx], x) && !InRange(data0[i], x)
    ensures InOrder(data1, i) == InOrder(data0, i)
    decreases |data0| - i
  {
    match data0[i].body
    case Leaf(_, _) =>
    case LeftRight(l, r) =>
      assert ChildrenOk(data0, i);
      HalvesRange(data0[i], data0[l], data0[r], x);
      InOrderUntouched(data0, data1, l, idx, x);
      InOrderUntouched(data0, data1, r, idx, x);
  }

  lemma Regroup(a: seq<Contact>, b: seq<Contact>, c: seq<Contact>, d: seq<Contact>)
    ensures (a + b + c) + d == a + b + (c + d)
    ensures d + (a + b + c) == (d + a) + b + c
  {
  }

  /** Changing the leaf of `x` changes the traversal in one place. */
  lemma {:induction false} InOrderReplaced(data0: seq<TreeNode>, data1: seq<TreeNode>, i: nat, idx: nat, x: InfoHash)
    returns (before: seq<Contact>, after: seq<Contact>)
    requires TreeOk(data0) && TreeOk(data1)
    requires i < |data0| && InRange(data0[i], x) && idx == Route(data0, i, x) && SameElsewhere(data0, data1, idx)
    ensures InOrder(data0, i) == before + data0[idx].body.nodes + after
    ensures InOrder(data1, i) == before + InOrder(data1, idx) + after
    decreases |data0| - i
  {
    if data0[i].body.Leaf? {
      before, after := [], [];
    } else {
      var l, r := data0[i].body.left, data0[i].body.right;
      assert ChildrenOk(data0, i);
      HalvesRange(data0[i], data0[l], data0[r], x);
      RouteInRange(data0, i, x);
      var nodes, nodes' := data0[idx].body.nodes, InOrder(data1, idx);
      if InRange(data0[l], x) {
        before, after := InOrderReplaced(data0, data1, l, idx, x);
        InOrderUntouched(data0, data1, r, idx, x);
        Regroup(before, nodes, after, InOrder(data0, r));
        Regroup(before, nodes', after, InOrder(data0, r));
        after := after + InOrder(data0, r);
      } else {
        before, after := InOrderReplaced(data0, data1, r, idx, x);
        InOrderUntouched(data0, data1, l, idx, x);
        Regroup(before, nodes, after, InOrder(data0, l));
        Regroup(before, nodes', after, InOrder(data0, l));
        before := InOrder(data0, l) + before;
      }
    }
  }

  lemma LeafUpdateOk(data: seq<TreeNode>, idx: nat, n: TreeNode)
    requires TreeOk(data) && idx < |data| && data[idx].body.Leaf? && n.body.Leaf? && LeafOk(n)
    requires n.bits == data[idx].bits && n.start == data[idx].start && n.end == data[idx].end
    ensures TreeOk(data[idx := n])
  {
    var data1 := data[idx := n];
    forall i | 0 <= i < |data1| ensures ChildrenOk(data1, i) {
      assert ChildrenOk(data, i);
    }
    forall i | 0 < i < |data1| ensures HasParent(data1, i) {
      assert HasParent(data, i);
      var p :| 0 <= p < i && IsChild(data, p, i);
      assert IsChild(data1, p, i);
    }
  }

  lemma {:induction false} RouteUnchanged(data0: seq<TreeNode>, data1: seq<TreeNode>, i: nat, id: InfoHash)
    requires TreeOk(data0) && TreeOk(data1) && |data0| == |data1| && i < |data0|
    requires forall k :: 0 <= k < |data0| ==>
      data0[k].start == data1[k].start && data0[k].end == data1[k].end
      && (data0[k].body == data1[k].body || (data0[k].body.Leaf? && data1[k].body.Leaf?))
    ensures Route(data1, i, id) == Route(data0, i, id)
    decreases |data0| - i
  {
    match data0[i].body
    case Leaf(_, _) =>
    case LeftRight(l, r) =>
      assert ChildrenOk(data0, i);
      RouteUnchanged(data0, data1, if InRange(data0[l], id) then l else r, id);
  }

  /** The arena after the leaf at `idx` has become a branch over two new leaves. */
  function Splitted(data: seq<TreeNode>, idx: nat, l: TreeNode, r: TreeNode): seq<TreeNode>
    requires idx < |data|
  {
    data[idx := data[idx].(body := LeftRight(|data|, |data| + 1))] + [l, r]
  }

  lemma SplitOk(data: seq<TreeNode>, idx: nat, l: TreeNode, r: TreeNode)
    requires TreeOk(data) && idx < |data| && data[idx].body.Leaf?
    requires l.body.Leaf? && r.body.Leaf? && LeafOk(l) && LeafOk(r) && NodeOk(l) && NodeOk(r) && Halves(data[idx], l, r)
    ensures TreeOk(Splitted(data, idx, l, r))
  {
    var data1 := Splitted(data, idx, l, r);
    forall i | 0 <= i < |data1| ensures ChildrenOk(data1, i) {
      if i < |data| {
        assert ChildrenOk(data, i);
      }
    }
    forall i | 0 < i < |data1| ensures HasParent(data1, i) {
      if i < |data| {
        assert HasParent(data, i);
        var p :| 0 <= p < i && IsChild(data, p, i);
        assert IsChild(data1, p, i);
      } else {
        assert IsChild(data1, idx, i);
      }
    }
  }

  lemma {:induction false} RouteAfterSplit(data: seq<TreeNode>, idx: nat, l: TreeNode, r: TreeNode, i: nat,
          id: InfoHash)
    requires TreeOk(data) && idx < |data| && data[idx].body.Leaf? && i < |data|
    requires l.body.Leaf? && r.body.Leaf? && LeafOk(l) && LeafOk(r) && NodeOk(l) && NodeOk(r) && Halves(data[idx], l, r)
    ensures TreeOk(Splitted(data, idx, l, r))
    ensures Route(Splitted(data, idx, l, r), i, id)
         == if Route(data, i, id) != idx then Route(data, i, id)
            else if InRange(l, id) then |data| else |data| + 1
    decreases |data| - i
  {
    SplitOk(data, idx, l, r);
    match data[i].body
    case Leaf(_, _) =>
    case LeftRight(cl, cr) =>
      assert ChildrenOk(data, i);
      RouteAfterSplit(data, idx, l, r, if InRange(data[cl], id) then cl else cr, id);
  }

  // ----- sorting a bucket

  function InsertById(n: Contact, nodes: seq<Contact>): seq<Contact> {
    if nodes == [] || !Less(nodes[0].id, n.id) then [n] + nodes
    else [nodes[0]] + InsertById(n, nodes[1..])
  }

  /** `sort_by_key(|n| n.id)` */
  function SortById(nodes: seq<Contact>): seq<Contact> {
    if nodes == [] then [] else InsertById(nodes[0], SortById(nodes[1..]))
  }

  ghost predicate DistinctIds(nodes: seq<Contact>) {
    forall i, j :: 0 <= i < j < |nodes| ==> nodes[i].id != nodes[j].id
  }

  ghost predicate SameElements(a: seq<Contact>, b: seq<Contact>) {
    |a| == |b| && forall n :: n in a <==> n in b
  }

  lemma {:induction false} InsertByIdSorts(n: Contact, nodes: seq<Contact>)
    requires Sorted(nodes) && forall k :: 0 <= k < |nodes| ==> nodes[k].id != n.id
    ensures Sorted(InsertById(n, nodes)) && SameElements(InsertById(n, nodes), [n] + nodes)
  {
    if nodes != [] {
      LessIsNumeric(nodes[0].id, n.id);
      if Less(nodes[0].id, n.id) {
        InsertByIdSorts(n, nodes[1..]);
        var rest := InsertById(n, nodes[1..]);
        forall k | 0 <= k < |rest| ensures Value(nodes[0].id) < Value(rest[k].id) {
          assert rest[k] in [n] + nodes[1..];
        }
      } else if Value(nodes[0].id) == Value(n.id) {
        ValueInjective(nodes[0].id, n.id);
      }
    }
  }

  lemma {:induction false} SortByIdSorts(nodes: seq<Contact>)
    requires DistinctIds(nodes)
    ensures Sorted(SortById(nodes)) && SameElements(SortById(nodes), nodes)
  {
    if nodes != [] {
      SortByIdSorts(nodes[1..]);
      var rest := SortById(nodes[1..]);
      forall k | 0 <= k < |rest| ensures rest[k].id != nodes[0].id {
        assert rest[k] in nodes[1..];
      }
      InsertByIdSorts(nodes[0], rest);
    }
  }

  // ----- effects on the contents

  lemma SortedParts(a: seq<Contact>, b: seq<Contact>, c: seq<Contact>, x: Contact)
    requires Sorted(a + b + c)
    ensures x in a + b + c && x !in b <==> x in a || x in c
  {
    var all := a + b + c;
    if x in b {
      var k :| 0 <= k < |b| && b[k] == x;
      assert all[|a| + k] == x;
      forall i | 0 <= i < |a| ensures a[i] != x {
        assert all[i] == a[i];
      }
      forall i | 0 <= i < |c| ensures c[i] != x {
        assert all[|a| + |b| + i] == c[i];
      }
    }
  }

  ghost predicate LeafRewritten(data0: seq<TreeNode>, idx: nat, data1: seq<TreeNode>)
    requires idx < |data0|
  {
    && |data1| == |data0| && data1 == data0[idx := data1[idx]]
    && data0[idx].body.Leaf? && data1[idx].body.Leaf? && LeafOk(data1[idx])
    && data1[idx].bits == data0[idx].bits && data1[idx].start == data0[idx].start && data1[idx].end == data0[idx].end
  }

  /** Rewriting the leaf of `id` replaces exactly that leaf's contacts. */
  lemma ContentsAfterUpdate(data0: seq<TreeNode>, idx: nat, data1: seq<TreeNode>, id: InfoHash)
    requires TreeOk(data0) && idx == Route(data0, 0, id) && LeafRewritten(data0, idx, data1)
    ensures TreeOk(data1)
    ensures |InOrder(data1, 0)| == |InOrder(data0, 0)| - |data0[idx].body.nodes| + |data1[idx].body.nodes|
    ensures forall c :: c in InOrder(data1, 0) <==>
        (c in InOrder(data0, 0) && c !in data0[idx].body.nodes) || c in data1[idx].body.nodes
  {
    LeafUpdateOk(data0, idx, data1[idx]);
    RootHoldsAll(data0, id);
    var before, after := InOrderReplaced(data0, data1, 0, idx, id);
    InOrderSorted(data0, 0);
    forall c ensures c in InOrder(data1, 0) <==>
        (c in InOrder(data0, 0) && c !in data0[idx].body.nodes) || c in data1[idx].body.nodes
    {
      SortedParts(before, data0[idx].body.nodes, after, c);
    }
  }

  lemma RoutesAfterUpdate(data0: seq<TreeNode>, idx: nat, data1: seq<TreeNode>, id: InfoHash)
    requires TreeOk(data0) && TreeOk(data1) && idx < |data0| && LeafRewritten(data0, idx, data1)
    ensures Route(data1, 0, id) == Route(data0, 0, id)
  {
    RouteUnchanged(data0, data1, 0, id);
  }

  /** Splitting moves no contact. */
  lemma ContentsAfterSplit(data: seq<TreeNode>, id: InfoHash, l: TreeNode, r: TreeNode)
    requires TreeOk(data)
    requires l.body.Leaf? && r.body.Leaf? && LeafOk(l) && LeafOk(r) && NodeOk(l) && NodeOk(r)
    requires Halves(data[Route(data, 0, id)], l, r)
    requires l.body.nodes + r.body.nodes == data[Route(data, 0, id)].body.nodes
    ensures TreeOk(Splitted(data, Route(data, 0, id), l, r))
    ensures InOrder(Splitted(data, Route(data, 0, id), l, r), 0) == InOrder(data, 0)
  {
    var idx := Route(data, 0, id);
    var data1 := Splitted(data, idx, l, r);
    SplitOk(data, idx, l, r);
    RootHoldsAll(data, id);
    var before, after := InOrderReplaced(data, data1, 0, idx, id);
    assert InOrder(data1, idx) == InOrder(data1, |data|) + InOrder(data1, |data| + 1);
  }

  /** Eight contacts and a ninth id do not fit in eight ids: a full leaf that is
      split covers at least sixteen. */
  lemma SplitNeedsFourBits(n: TreeNode, id: InfoHash)
    requires NodeOk(n) && LeafOk(n) && n.body.Leaf? && |n.body.nodes| == BUCKET_MAX_SIZE && InRange(n, id)
    requires forall k :: 0 <= k < |n.body.nodes| ==> n.body.nodes[k].id != id
    ensures n.bits >= 4
  {
    if n.bits < 4 {
      RangeSize(n);
      assert Pow2(1) == 2 && Pow2(2) == 4 && Pow2(3) == 8;
      var v := Value(n.start);
      SpreadOut(n.body.nodes, v, BUCKET_MAX_SIZE - 1);
      var k := Value(id) - v;
      SpreadOut(n.body.nodes, v, k);
      assert Value(n.body.nodes[k].id) == Value(id) by {
        SpreadUp(n.body.nodes, k, BUCKET_MAX_SIZE - 1);
      }
      ValueInjective(n.body.nodes[k].id, id);
    }
  }

  lemma {:induction false} SpreadOut(nodes: seq<Contact>, low: nat, k: nat)
    requires Sorted(nodes) && k < |nodes| && low <= Value(nodes[0].id)
    ensures low + k <= Value(nodes[k].id)
  {
    if k > 0 {
      SpreadOut(nodes, low, k - 1);
    }
  }

  lemma {:induction false} SpreadUp(nodes: seq<Contact>, k: nat, m: nat)
    requires Sorted(nodes) && k <= m < |nodes|
    ensures Value(nodes[k].id) + (m - k) <= Value(nodes[m].id)
  {
    if k < m {
      SpreadUp(nodes, k, m - 1);
    }
  }

  ghost predicate HasId(nodes: seq<Contact>, id: InfoHash) {
    exists k :: 0 <= k < |nodes| && nodes[k].id == id
  }

  lemma HasIdInItsLeaf(data: seq<TreeNode>, id: InfoHash)
    requires TreeOk(data)
    ensures HasId(InOrder(data, 0), id) <==> HasId(data[Route(data, 0, id)].body.nodes, id)
  {
    RootHoldsAll(data, id);
    var all, nodes := InOrder(data, 0), data[Route(data, 0, id)].body.nodes;
    if HasId(all, id) {
      var k :| 0 <= k < |all| && all[k].id == id;
      FoundInItsLeaf(data, 0, all[k]);
      assert all[k] in nodes;
    }
    if HasId(nodes, id) {
      var k :| 0 <= k < |nodes| && nodes[k].id == id;
      FoundInItsLeaf(data, 0, nodes[k]);
      assert nodes[k] in all;
    }
  }

  /** What a finished insertion of `added` into its leaf may have done. */
  ghost predicate Inserted(before: seq<Contact>, after: seq<Contact>, added: Contact, r: InsertResult, now: Instant) {
    match r
    case WasExisting => HasId(before, added.id) && after == before
    case Ignored => !HasId(before, added.id) && after == before
    case Added =>
      && !HasId(before, added.id)
      && |after| == |before| + 1
      && forall c :: c in after <==> c in before || c == added
    case ReplacedBad(bad) =>
      && !HasId(before, added.id)
      && bad in before && bad.Status(now) == Bad
      && |after| == |before|
      && forall c :: c in after <==> (c in before && c != bad) || c == added
  }

  /** Only the leaf around our own id has ever been split: it alone tells how many
      times that happened. */
  ghost predicate ArenaOk(data: seq<TreeNode>, selfId: InfoHash) {
    && TreeOk(data)
    && |data| == 1 + 2 * (160 - data[Route(data, 0, selfId)].bits)
    && data[Route(data, 0, selfId)].bits >= 3
  }

  lemma SplitArena(data: seq<TreeNode>, idx: nat, selfId: InfoHash, id: InfoHash, l: TreeNode, r: TreeNode,
          data1: seq<TreeNode>)
    requires ArenaOk(data, selfId) && idx == Route(data, 0, id)
    requires InRange(data[idx], selfId) && InRange(data[idx], id) && data[idx].bits >= 4
    requires SplitOf(data[idx], l, r) && data1 == Splitted(data, idx, l, r)
    ensures ArenaOk(data1, selfId) && InOrder(data1, 0) == InOrder(data, 0)
    ensures Route(data1, 0, id) == if Less(id, r.start) then |data| else |data| + 1
  {
    SplitKeepsTree(data, idx, id, l, r);
    RouteAfterSplit(data, idx, l, r, 0, id);
    RouteAfterSplit(data, idx, l, r, 0, selfId);
    UniqueLeaf(data, selfId, idx);
    LessIsNumeric(id, r.start);
    HalvesRange(data[idx], l, r, id);
  }

  /** What a leaf about to be split has. */
  lemma SplitNeeds(data: seq<TreeNode>, idx: nat, selfId: InfoHash, id: InfoHash)
    requires ArenaOk(data, selfId) && idx == Route(data, 0, id) && InRange(data[idx], id)
    requires |data[idx].body.nodes| == BUCKET_MAX_SIZE && !HasId(data[idx].body.nodes, id)
    ensures 4 <= data[idx].bits <= 160 && Sorted(data[idx].body.nodes) && |InOrder(data, 0)| >= BUCKET_MAX_SIZE
  {
    LeafIsCounted(data, id);
    hide InOrder, Route, InRange;
    assert LeafOk(data[idx]) && NodeOk(data[idx]);
    SplitNeedsFourBits(data[idx], id);
  }

  lemma SplitDone(data: seq<TreeNode>, idx: nat, selfId: InfoHash, id: InfoHash, l: TreeNode, r: TreeNode,
          data1: seq<TreeNode>)
    requires ArenaOk(data, selfId) && idx == Route(data, 0, id)
    requires InRange(data[idx], selfId) && InRange(data[idx], id) && data[idx].bits >= 4
    requires SplitOf(data[idx], l, r) && data1 == Splitted(data, idx, l, r)
    ensures ArenaOk(data1, selfId) && InOrder(data1, 0) == InOrder(data, 0) && |data1| == |data| + 2
    ensures var next := if Less(id, r.start) then |data| else |data| + 1;
      next < |data1| && next == Route(data1, 0, id) && data1[next].bits < data[idx].bits
  {
    SplitArena(data, idx, selfId, id, l, r, data1);
    hide TreeOk, Route, InOrder, InRange, Less;
  }

  lemma EndsOfTheSpace(zeros: InfoHash, ones: InfoHash)
    requires zeros == seq(20, _ => 0) && ones == seq(20, _ => 255)
    ensures forall j :: 0 <= j < 160 ==> !GetBit(zeros, j) && GetBit(ones, j)
  {
    ByteWidth();
    forall k | 0 <= k < 8 ensures !BitOf(0, k) && BitOf(255, k) {
      BitsOfZero(k);
      BitsOfOnes(8, k);
    }
  }

  lemma {:induction false} BitsOfZero(k: nat)
    ensures !BitOf(0, k)
  {
    if k > 0 {
      BitsOfZero(k - 1);
    }
  }

  lemma {:induction false} BitsOfOnes(width: nat, k: nat)
    requires k < width
    ensures BitOf(Pow2(width) - 1, k)
  {
    if k > 0 {
      BitsOfOnes(width - 1, k - 1);
      assert (Pow2(width) - 1) / 2 == Pow2(width - 1) - 1;
    }
  }

  lemma ReplaceOk(data: seq<TreeNode>, idx: nat, added: Contact, k: nat, now: Instant, data1: seq<TreeNode>)
    requires TreeOk(data) && idx == Route(data, 0, added.id)
    requires k < |data[idx].body.nodes| && !HasId(data[idx].body.nodes, added.id)
    requires data[idx].body.nodes[k].Status(now) == Bad
    requires data1 == data[idx := data[idx].(body := Leaf(SortById(data[idx].body.nodes[k := added]), now))]
    ensures TreeOk(data1) && LeafRewritten(data, idx, data1)
    ensures Inserted(InOrder(data, 0), InOrder(data1, 0), added, ReplacedBad(data[idx].body.nodes[k]), now)
    ensures InRange(data[idx], data[idx].body.nodes[k].id)
  {
    var nodes, bad := data[idx].body.nodes, data[idx].body.nodes[k];
    HasIdInItsLeaf(data, added.id);
    assert LeafOk(data[idx]);
    ReplaceLeafOk(data[idx], added, k, data1[idx]) by {
      RootHoldsAll(data, added.id);
      RouteInRange(data, 0, added.id);
    }
    ContentsAfterUpdate(data, idx, data1, added.id);
    LeafInContents(data, idx, bad);
    forall c ensures c in InOrder(data1, 0) <==> (c in InOrder(data, 0) && c != bad) || c == added {
      SetOne(nodes, k, added, c);
      if c in nodes {
        LeafInContents(data, idx, c);
      }
    }
  }

  lemma ReplaceLeafOk(leaf: TreeNode, added: Contact, k: nat, n: TreeNode)
    requires leaf.body.Leaf? && LeafOk(leaf) && InRange(leaf, added.id)
    requires k < |leaf.body.nodes| && !HasId(leaf.body.nodes, added.id)
    requires n.start == leaf.start && n.end == leaf.end
    requires n.body.Leaf? && n.body.nodes == SortById(leaf.body.nodes[k := added])
    ensures LeafOk(n) && SameElements(n.body.nodes, leaf.body.nodes[k := added])
  {
    SortByIdSorts(leaf.body.nodes[k := added]);
    SortedInRange(leaf, leaf.body.nodes[k := added], n);
  }

  lemma LeafInContents(data: seq<TreeNode>, idx: nat, c: Contact)
    requires TreeOk(data) && idx < |data| && data[idx].body.Leaf? && c in data[idx].body.nodes
    ensures c in InOrder(data, 0) && InRange(data[idx], c.id)
  {
    assert LeafOk(data[idx]);
    UniqueLeaf(data, c.id, idx);
    RootHoldsAll(data, c.id);
    FoundInItsLeaf(data, 0, c);
  }

  /** `bad` comes before every other Bad contact in the range of the leaf. */
  ghost predicate FirstBad(contents: seq<Contact>, leaf: TreeNode, bad: Contact, now: Instant) {
    && InRange(leaf, bad.id)
    && forall c :: c in contents && c.Status(now) == Bad && InRange(leaf, c.id) ==> Value(bad.id) <= Value(c.id)
  }

  lemma FirstBadOfLeaf(data: seq<TreeNode>, idx: nat, k: nat, now: Instant)
    requires TreeOk(data) && idx < |data| && data[idx].body.Leaf? && k < |data[idx].body.nodes|
    requires forall j :: 0 <= j < k ==> data[idx].body.nodes[j].Status(now) != Bad
    ensures FirstBad(InOrder(data, 0), data[idx], data[idx].body.nodes[k], now)
  {
    var nodes := data[idx].body.nodes;
    assert LeafOk(data[idx]);
    hide InOrder, InRange, Contact.Status, TreeOk;
    forall c | c in InOrder(data, 0) && c.Status(now) == Bad && InRange(data[idx], c.id)
      ensures Value(nodes[k].id) <= Value(c.id)
    {
      InTheLeaf(data, idx, c);
      var j :| 0 <= j < |nodes| && nodes[j] == c;
    }
  }

  lemma InTheLeaf(data: seq<TreeNode>, idx: nat, c: Contact)
    requires TreeOk(data) && idx < |data| && data[idx].body.Leaf? && c in InOrder(data, 0) && InRange(data[idx], c.id)
    ensures c in data[idx].body.nodes
  {
    hide InOrder;
    UniqueLeaf(data, c.id, idx);
    RootHoldsAll(data, c.id);
    FoundInItsLeaf(data, 0, c);
  }

  lemma LeafIsCounted(data: seq<TreeNode>, id: InfoHash)
    requires TreeOk(data)
    ensures |data[Route(data, 0, id)].body.nodes| <= |InOrder(data, 0)|
  {
    RootHoldsAll(data, id);
    var before, after := InOrderReplaced(data, data, 0, Route(data, 0, id), id);
  }

  lemma SetOne(nodes: seq<Contact>, k: nat, added: Contact, c: Contact)
    requires Sorted(nodes) && k < |nodes| && !HasId(nodes, added.id)
    ensures c in nodes[k := added] <==> (c in nodes && c != nodes[k]) || c == added
  {
    if c in nodes {
      var i :| 0 <= i < |nodes| && nodes[i] == c;
      if i != k {
        assert nodes[k := added][i] == c;
      }
    }
    assert nodes[k := added][k] == added;
  }

  lemma SortedInRange(leaf: TreeNode, nodes: seq<Contact>, n: TreeNode)
    requires n.start == leaf.start && n.end == leaf.end && n.body.Leaf?
    requires Sorted(n.body.nodes) && SameElements(n.body.nodes, nodes) && |nodes| <= BUCKET_MAX_SIZE
    requires forall c :: c in nodes ==> InRange(leaf, c.id)
    ensures LeafOk(n)
  {
    forall k | 0 <= k < |n.body.nodes| ensures InRange(n, n.body.nodes[k].id) {
      assert n.body.nodes[k] in nodes;
    }
  }

  lemma PushOk(data: seq<TreeNode>, idx: nat, added: Contact, now: Instant, data1: seq<TreeNode>)
    requires TreeOk(data) && idx == Route(data, 0, added.id)
    requires !HasId(data[idx].body.nodes, added.id) && |data[idx].body.nodes| < BUCKET_MAX_SIZE
    requires data1 == data[idx := data[idx].(body := Leaf(SortById(data[idx].body.nodes + [added]), now))]
    ensures TreeOk(data1) && LeafRewritten(data, idx, data1)
    ensures SameElements(data1[idx].body.nodes, data[idx].body.nodes + [added])
    ensures Inserted(InOrder(data, 0), InOrder(data1, 0), added, Added, now)
  {
    var nodes := data[idx].body.nodes;
    HasIdInItsLeaf(data, added.id);
    assert LeafOk(data[idx]);
    SortByIdSorts(nodes + [added]);
    SortedInRange(data[idx], nodes + [added], data1[idx]) by {
      RootHoldsAll(data, added.id);
      RouteInRange(data, 0, added.id);
    }
    ContentsAfterUpdate(data, idx, data1, added.id);
    forall c | c in nodes ensures c in InOrder(data, 0) {
      LeafInContents(data, idx, c);
    }
  }

  ghost predicate SplitOf(leaf: TreeNode, l: TreeNode, r: TreeNode) {
    && 1 <= leaf.bits <= 160 && l.bits == r.bits == leaf.bits - 1
    && ((l.start, l.end), (r.start, r.end)) == ComputeSplit(leaf.start, leaf.end, leaf.bits)
    && leaf.body.Leaf? && l.body.Leaf? && r.body.Leaf?
    && l.body.nodes + r.body.nodes == leaf.body.nodes
    && (forall c :: c in l.body.nodes ==> Value(c.id) < Value(r.start))
    && (forall c :: c in r.body.nodes ==> Value(r.start) <= Value(c.id))
  }

  lemma SublistOk(leaf: TreeNode, n: TreeNode, offset: nat)
    requires leaf.body.Leaf? && LeafOk(leaf) && n.body.Leaf?
    requires offset + |n.body.nodes| <= |leaf.body.nodes|
    requires n.body.nodes == leaf.body.nodes[offset..offset + |n.body.nodes|]
    requires forall c :: c in n.body.nodes && InRange(leaf, c.id) ==> InRange(n, c.id)
    ensures LeafOk(n)
  {
    forall k | 0 <= k < |n.body.nodes| ensures InRange(n, n.body.nodes[k].id) {
      assert n.body.nodes[k] == leaf.body.nodes[offset + k];
    }
  }

  lemma SplitLeavesOk(leaf: TreeNode, l: TreeNode, r: TreeNode)
    requires NodeOk(leaf) && LeafOk(leaf) && SplitOf(leaf, l, r)
    ensures NodeOk(l) && NodeOk(r) && LeafOk(l) && LeafOk(r) && Halves(leaf, l, r)
  {
    SplitHalves(leaf, l, r);
    var m := |l.body.nodes|;
    assert leaf.body.nodes[0..m] == l.body.nodes;
    assert leaf.body.nodes[m..m + |r.body.nodes|] == r.body.nodes;
    SublistOk(leaf, l, 0);
    SublistOk(leaf, r, m);
  }

  lemma SplitKeepsTree(data: seq<TreeNode>, idx: nat, id: InfoHash, l: TreeNode, r: TreeNode)
    requires TreeOk(data) && idx == Route(data, 0, id) && SplitOf(data[idx], l, r)
    ensures NodeOk(l) && NodeOk(r) && LeafOk(l) && LeafOk(r) && Halves(data[idx], l, r)
    ensures TreeOk(Splitted(data, idx, l, r))
    ensures InOrder(Splitted(data, idx, l, r), 0) == InOrder(data, 0)
  {
    assert NodeOk(data[idx]) && LeafOk(data[idx]);
    SplitLeavesOk(data[idx], l, r);
    ContentsAfterSplit(data, id, l, r);
  }

  ghost function StackNodes(data: seq<TreeNode>, queue: seq<nat>): seq<Contact>
    requires TreeOk(data) && forall k :: 0 <= k < |queue| ==> queue[k] < |data|
  {
    if queue == [] then [] else InOrder(data, queue[|queue| - 1]) + StackNodes(data, queue[..|queue| - 1])
  }

  ghost function Weight(data: seq<TreeNode>, i: nat): nat
    requires TreeOk(data) && i < |data|
    decreases |data| - i
  {
    match data[i].body
    case Leaf(_, _) => 1
    case LeftRight(l, r) => assert ChildrenOk(data, i); 1 + Weight(data, l) + Weight(data, r)
  }

  ghost function StackWeight(data: seq<TreeNode>, queue: seq<nat>): nat
    requires TreeOk(data) && forall k :: 0 <= k < |queue| ==> queue[k] < |data|
  {
    if queue == [] then 0 else Weight(data, queue[|queue| - 1]) + StackWeight(data, queue[..|queue| - 1])
  }

  /** Rewriting one contact of a leaf, keeping its id, rewrites one entry of the traversal. */
  lemma UpdateOk(data: seq<TreeNode>, idx: nat, k: nat, c: Contact, data1: seq<TreeNode>) returns (pos: nat)
    requires TreeOk(data) && idx == Route(data, 0, c.id) && LeafOk(data[idx])
    requires k < |data[idx].body.nodes| && data[idx].body.nodes[k].id == c.id
    requires |data1| == |data| && data1 == data[idx := data1[idx]]
    requires data1[idx].bits == data[idx].bits && data1[idx].start == data[idx].start && data1[idx].end == data[idx].end
    requires data1[idx].body.Leaf? && data1[idx].body.nodes == data[idx].body.nodes[k := c]
    ensures LeafRewritten(data, idx, data1) && TreeOk(data1)
    ensures pos < |InOrder(data, 0)| && InOrder(data, 0)[pos] == data[idx].body.nodes[k]
    ensures InOrder(data1, 0) == InOrder(data, 0)[pos := c]
  {
    var nodes := data[idx].body.nodes;
    UpdatedLeafOk(data[idx], data1[idx], k, c);
    LeafUpdateOk(data, idx, data1[idx]);
    RootHoldsAll(data, c.id);
    var before, after := InOrderReplaced(data, data1, 0, idx, c.id);
    pos := |before| + k;
    UpdateMiddle(before, nodes, after, k, c);
  }

  lemma UpdateMiddle(before: seq<Contact>, nodes: seq<Contact>, after: seq<Contact>, k: nat, c: Contact)
    requires k < |nodes|
    ensures (before + nodes + after)[|before| + k] == nodes[k]
    ensures before + nodes[k := c] + after == (before + nodes + after)[|before| + k := c]
  {
  }

  lemma PushedIndex(data: seq<TreeNode>, queue: seq<nat>, i: nat)
    requires TreeOk(data) && i < |data|
    requires forall k :: 0 <= k < |queue| ==> queue[k] < |data|
    ensures StackNodes(data, queue + [i]) == InOrder(data, i) + StackNodes(data, queue)
    ensures StackWeight(data, queue + [i]) == Weight(data, i) + StackWeight(data, queue)
  {
    assert (queue + [i])[..|queue|] == queue;
  }

  /** Popping a branch and pushing its children leaves the pending contacts as they were. */
  lemma PopBranch(data: seq<TreeNode>, rest: seq<nat>, idx: nat, l: nat, r: nat)
    requires TreeOk(data) && idx < |data| && data[idx].body == LeftRight(l, r)
    requires forall k :: 0 <= k < |rest| ==> rest[k] < |data|
    ensures l < |data| && r < |data|
    ensures StackNodes(data, rest + [r] + [l]) == InOrder(data, idx) + StackNodes(data, rest)
    ensures StackWeight(data, rest + [r] + [l]) < Weight(data, idx) + StackWeight(data, rest)
  {
    assert ChildrenOk(data, idx);
    PushedIndex(data, rest, r);
    PushedIndex(data, rest + [r], l);
    Associative(InOrder(data, l), InOrder(data, r), StackNodes(data, rest));
  }

  lemma Associative(a: seq<Contact>, b: seq<Contact>, c: seq<Contact>)
    ensures a + (b + c) == (a + b) + c
  {
  }

  lemma UpdatedLeafOk(leaf: TreeNode, n: TreeNode, k: nat, c: Contact)
    requires leaf.body.Leaf? && LeafOk(leaf) && n.start == leaf.start && n.end == leaf.end
    requires k < |leaf.body.nodes| && c.id == leaf.body.nodes[k].id
    requires n.body.Leaf? && n.body.nodes == leaf.body.nodes[k := c]
    ensures LeafOk(n)
  {
    assert forall i :: 0 <= i < |n.body.nodes| ==> n.body.nodes[i].id == leaf.body.nodes[i].id;
  }
}
