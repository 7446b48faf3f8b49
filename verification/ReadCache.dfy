/** Which pieces the read cache holds (src/storage.rs, `read_piece` with its LRU cache). */
module ReadCaches {
  import opened Bytes
  import opened Storage

  /** The cache after these reads, none of which it started with. */
  function AfterReads(used: seq<CacheEntry>, capacity: nat): Cache
    requires capacity > 0
  {
    if used == [] then []
    else Put(AfterReads(used[..|used| - 1], capacity), used[|used| - 1], capacity)
  }

  ghost function Indices(cache: Cache): (r: seq<nat>)
    ensures |r| == |cache| && forall k :: 0 <= k < |r| ==> r[k] == cache[k].index
  {
    seq(|cache|, k requires 0 <= k < |cache| => cache[k].index)
  }

  /** The other pieces read since this one was read last. */
  ghost function ReadSince(order: seq<nat>, i: nat): set<nat> {
    if order == [] || order[|order| - 1] == i then {}
    else ReadSince(order[..|order| - 1], i) + {order[|order| - 1]}
  }

  // ----- pieces in the order of their use

  ghost predicate Distinct(s: seq<nat>) {
    forall i, j :: 0 <= i < j < |s| ==> s[i] != s[j]
  }

  ghost function Elements(s: seq<nat>): set<nat> {
    set x | x in s
  }

  lemma {:induction false} ElementsCount(s: seq<nat>)
    requires Distinct(s)
    ensures |Elements(s)| == |s|
  {
    if s != [] {
      var n := |s| - 1;
      ElementsCount(s[..n]);
      assert s == s[..n] + [s[n]];
      assert Elements(s) == Elements(s[..n]) + {s[n]} && s[n] !in s[..n];
    }
  }

  /** Taking a piece out leaves the others in order. */
  lemma {:induction false} WithoutIs(cache: Cache, k: nat, x: nat)
    requires k < |cache| && cache[k].index == x
    requires forall j :: 0 <= j < |cache| && j != k ==> cache[j].index != x
    ensures Without(cache, x) == cache[..k] + cache[k + 1..]
    decreases k
  {
    if k > 0 {
      var rest := cache[1..];
      WithoutIs(rest, k - 1, x);
      TakeOut(cache, k);
    } else {
      assert x !in Indices(cache[1..]);
      WithoutNothing(cache[1..], x);
      assert cache[..k] + cache[k + 1..] == cache[1..];
    }
  }

  lemma TakeOut(cache: Cache, k: nat)
    requires 0 < k < |cache|
    ensures [cache[0]] + (cache[1..][..k - 1] + cache[1..][k..]) == cache[..k] + cache[k + 1..]
  {
  }

  lemma {:induction false} WithoutNothing(cache: Cache, x: nat)
    requires x !in Indices(cache)
    ensures Without(cache, x) == cache
  {
    if cache != [] {
      assert Indices(cache)[0] == cache[0].index && Indices(cache[1..]) == Indices(cache)[1..];
      WithoutNothing(cache[1..], x);
      assert cache == [cache[0]] + cache[1..];
    }
  }

  /** The new order of use: the piece read moves to the front. */
  ghost function ToFront(s: seq<nat>, x: nat): seq<nat> {
    [x] + if x in s then s[..First(s, x)] + s[First(s, x) + 1..] else s
  }

  ghost function First(s: seq<nat>, x: nat): (k: nat)
    requires x in s
    ensures k < |s| && s[k] == x
  {
    var k :| 0 <= k < |s| && s[k] == x;
    k
  }

  lemma IndicesJoin(a: Cache, b: Cache)
    ensures Indices(a + b) == Indices(a) + Indices(b)
  {
  }

  lemma IndicesCut(cache: Cache, k: nat)
    requires k <= |cache|
    ensures Indices(cache[..k]) == Indices(cache)[..k] && Indices(cache[k..]) == Indices(cache)[k..]
  {
  }

  lemma WithoutOne(cache: Cache, k: nat)
    requires Distinct(Indices(cache)) && k < |cache|
    ensures Indices(Without(cache, cache[k].index)) == Indices(cache)[..k] + Indices(cache)[k + 1..]
  {
    hide Without;
    forall j | 0 <= j < |cache| && j != k ensures cache[j].index != cache[k].index {
      assert Indices(cache)[j] != Indices(cache)[k];
    }
    WithoutIs(cache, k, cache[k].index);
    hide Indices;
    IndicesJoin(cache[..k], cache[k + 1..]);
    IndicesCut(cache, k);
    IndicesCut(cache, k + 1);
  }

  lemma FrontIndices(cache: Cache, e: CacheEntry)
    requires Distinct(Indices(cache))
    ensures Indices([e] + Without(cache, e.index)) == ToFront(Indices(cache), e.index)
  {
    hide Without, First, Distinct;
    IndicesJoin([e], Without(cache, e.index));
    assert Indices([e]) == [e.index];
    hide Indices;
    if e.index in Indices(cache) {
      WithoutOne(cache, First(Indices(cache), e.index));
    } else {
      WithoutNothing(cache, e.index);
    }
  }

  lemma PutCuts(cache: Cache, e: CacheEntry, capacity: nat)
    requires capacity > 0
    ensures var all, out := [e] + Without(cache, e.index), Put(cache, e, capacity);
      |out| == Min(capacity, |all|) && out == all[..|out|]
  {
    hide Without;
  }

  lemma PutOrders(cache: Cache, e: CacheEntry, capacity: nat)
    requires capacity > 0 && Distinct(Indices(cache))
    ensures Indices(Put(cache, e, capacity)) <= ToFront(Indices(cache), e.index)
    ensures |Put(cache, e, capacity)| == Min(capacity, |ToFront(Indices(cache), e.index)|)
  {
    hide Without, Put, ToFront;
    FrontIndices(cache, e);
    PutCuts(cache, e, capacity);
    var all, out := [e] + Without(cache, e.index), Put(cache, e, capacity);
    assert Indices(out) == Indices(all)[..|out|];
  }

  /** Where a piece stands once another one has moved to the front. */
  lemma MovesBack(s: seq<nat>, x: nat, p: nat) returns (q: nat)
    requires Distinct(s) && p < |s| && s[p] != x
    ensures 0 < q < |ToFront(s, x)| && ToFront(s, x)[q] == s[p]
    ensures Elements(ToFront(s, x)[..q]) == Elements(s[..p]) + {x}
  {
    var all := ToFront(s, x);
    if x in s && First(s, x) < p {
      var k := First(s, x);
      q := p;
      assert all[..q] == [x] + (s[..k] + s[k + 1..p]);
      assert s[..p] == s[..k] + [s[k]] + s[k + 1..p];
    } else {
      q := p + 1;
      assert all[..q] == [x] + s[..p];
    }
  }

  lemma ToFrontDistinct(s: seq<nat>, x: nat)
    requires Distinct(s)
    ensures Distinct(ToFront(s, x))
  {
    if x in s {
      var k := First(s, x);
      var rest := s[..k] + s[k + 1..];
      assert forall i :: 0 <= i < |rest| ==> rest[i] == (if i < k then s[i] else s[i + 1]);
    }
  }

  /** In front of a cached piece stand those read since; a piece read is cached unless as many
      others as there is room for were read since. */
  ghost predicate InOrderOfUse(order: seq<nat>, s: seq<nat>, capacity: nat) {
    && |s| <= capacity && Distinct(s)
    && (forall p :: 0 <= p < |s| ==> s[p] in order && ReadSince(order, s[p]) == Elements(s[..p]))
    && forall i :: i in order && |ReadSince(order, i)| < capacity ==> i in s
  }

  lemma NextRead(order: seq<nat>, x: nat, i: nat)
    ensures i in order + [x] <==> i == x || i in order
    ensures ReadSince(order + [x], i) == if i == x then {} else ReadSince(order, i) + {x}
  {
    assert (order + [x])[..|order|] == order;
  }

  lemma FrontKeepsOrder(order: seq<nat>, s: seq<nat>, capacity: nat, x: nat, out: seq<nat>)
    requires capacity > 0 && InOrderOfUse(order, s, capacity)
    requires out <= ToFront(s, x) && |out| == Min(capacity, |ToFront(s, x)|)
    ensures InOrderOfUse(order + [x], out, capacity)
  {
    var all := ToFront(s, x);
    ToFrontDistinct(s, x);
    forall p | 0 <= p < |out|
      ensures out[p] in order + [x] && ReadSince(order + [x], out[p]) == Elements(out[..p])
    {
      assert out[..p] == all[..p] && out[p] == all[p];
      KeptInOrder(order, s, capacity, x, p);
    }
    forall i | i in order + [x] && |ReadSince(order + [x], i)| < capacity ensures i in out {
      NextRead(order, x, i);
      if i == x {
        assert out[0] == x;
      } else {
        StaysCached(order, s, capacity, x, i, out);
      }
    }
  }

  lemma KeptInOrder(order: seq<nat>, s: seq<nat>, capacity: nat, x: nat, p: nat)
    requires InOrderOfUse(order, s, capacity) && p < |ToFront(s, x)|
    ensures var all := ToFront(s, x);
      all[p] in order + [x] && ReadSince(order + [x], all[p]) == Elements(all[..p])
  {
    var all := ToFront(s, x);
    NextRead(order, x, all[p]);
    ToFrontDistinct(s, x);
    if p == 0 {
      assert all[..0] == [];
    } else {
      assert all[p] != all[0] == x;
      assert all[p] in s;
      var k :| 0 <= k < |s| && s[k] == all[p];
      var q := MovesBack(s, x, k);
      assert q == p;
    }
  }

  lemma StaysCached(order: seq<nat>, s: seq<nat>, capacity: nat, x: nat, i: nat, out: seq<nat>)
    requires InOrderOfUse(order, s, capacity) && i != x && i in order
    requires |ReadSince(order, i) + {x}| < capacity
    requires out <= ToFront(s, x) && |out| == Min(capacity, |ToFront(s, x)|)
    ensures i in out
  {
    hide ReadSince, ToFront, Elements;
    var all := ToFront(s, x);
    OneMore(ReadSince(order, i), x);
    var p :| 0 <= p < |s| && s[p] == i;
    var q := MovesBack(s, x, p);
    ToFrontDistinct(s, x);
    InFront(all, q);
    assert ReadSince(order, i) == Elements(s[..p]);
    assert out[q] == all[q];
  }

  lemma InFront(s: seq<nat>, q: nat)
    requires Distinct(s) && q <= |s|
    ensures |Elements(s[..q])| == q
  {
    ElementsCount(s[..q]);
  }

  lemma OneMore(s: set<nat>, x: nat)
    ensures |s| <= |s + {x}|
  {
    if x in s {
      assert s + {x} == s;
    }
  }

  lemma AfterOneMore(used: seq<CacheEntry>, capacity: nat, e: CacheEntry)
    requires capacity > 0
    ensures AfterReads(used + [e], capacity) == Put(AfterReads(used, capacity), e, capacity)
    ensures Indices(used + [e]) == Indices(used) + [e.index]
  {
    hide Put;
    assert (used + [e])[..|used|] == used;
  }

  lemma NothingRead(capacity: nat)
    requires capacity > 0
    ensures InOrderOfUse(Indices([]), Indices(AfterReads([], capacity)), capacity)
  {
    assert Indices([]) == [];
  }

  lemma {:induction false} ReadsKeepOrder(used: seq<CacheEntry>, capacity: nat)
    requires capacity > 0
    ensures InOrderOfUse(Indices(used), Indices(AfterReads(used, capacity)), capacity)
    decreases |used|
  {
    hide InOrderOfUse, Put, ToFront, AfterReads, Distinct, Indices;
    if used == [] {
      NothingRead(capacity);
    } else {
      var before, e := used[..|used| - 1], used[|used| - 1];
      ReadsKeepOrder(before, capacity);
      var cache := AfterReads(before, capacity);
      assert before + [e] == used;
      AfterOneMore(before, capacity, e);
      OrderIsDistinct(Indices(before), Indices(cache), capacity);
      PutOrders(cache, e, capacity);
      FrontKeepsOrder(Indices(before), Indices(cache), capacity, e.index, Indices(AfterReads(used, capacity)));
    }
  }

  lemma OrderIsDistinct(order: seq<nat>, s: seq<nat>, capacity: nat)
    requires InOrderOfUse(order, s, capacity)
    ensures Distinct(s)
  {
  }

  /** After any reads a piece is cached exactly if it was read, and since then fewer other
      pieces than the cache has room for. */
  lemma CachedExactly(used: seq<CacheEntry>, capacity: nat, i: nat)
    requires capacity > 0
    ensures i in Indices(AfterReads(used, capacity)) <==>
      i in Indices(used) && |ReadSince(Indices(used), i)| < capacity
  {
    ReadsKeepOrder(used, capacity);
    var s := Indices(AfterReads(used, capacity));
    hide AfterReads, ReadSince, Elements;
    if i in s {
      var p :| 0 <= p < |s| && s[p] == i;
      InFront(s, p);
    }
  }
}
