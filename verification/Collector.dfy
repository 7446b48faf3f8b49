/** Collecting the blocks of one piece from many peers (src/piece.rs, `PieceCollector`). */
module Collectors {
  import opened Bytes

  const BLOCK_SIZE := 16384
  const ISSUED_TIMEOUT_SECS := 30
  const SECOND := 1_000_000_000

  type Instant = nat
  type Digest = Bytes

  /** The fields of a collector at one moment. */
  datatype Collector = Collector(
    index: nat,
    pieceSize: nat,
    expected: Digest,
    blocks: map<nat, Bytes>,
    issued: map<nat, Instant>)
  {
    function NumBlocks(): nat {
      (pieceSize + BLOCK_SIZE - 1) / BLOCK_SIZE
    }

    predicate IsComplete() {
      |blocks| >= NumBlocks()
    }

    /** The first block stored at an offset stays. */
    function AddBlock(offset: nat, data: Bytes): Collector {
      if offset in blocks then this
      else this.(blocks := blocks[offset := data], issued := issued - {offset})
    }

    ghost function Assembled(): Bytes {
      Truncate(Joined(blocks, Ascending(blocks.Keys)), pieceSize)
    }

    predicate IsFresh(offset: nat, now: Instant) {
      offset in issued && issued[offset] + ISSUED_TIMEOUT_SECS * SECOND > now
    }

    /** The offsets `claim_blocks` may hand out now. */
    function Eligible(now: Instant): set<nat> {
      set k | 0 <= k < NumBlocks() && k * BLOCK_SIZE !in blocks && !IsFresh(k * BLOCK_SIZE, now) :: k * BLOCK_SIZE
    }
  }

  function NewCollector(index: nat, pieceSize: nat, expected: Digest): Collector {
    Collector(index, pieceSize, expected, map[], map[])
  }

  function Truncate(b: Bytes, n: nat): Bytes {
    if |b| <= n then b else b[..n]
  }

  /** The blocks at the given offsets, one after the other. */
  ghost function Joined(blocks: map<nat, Bytes>, offsets: seq<nat>): Bytes
    requires forall o :: o in offsets ==> o in blocks
  {
    if offsets == [] then [] else blocks[offsets[0]] + Joined(blocks, offsets[1..])
  }

  // ----- ascending enumeration of a finite set

  ghost predicate IsAscending(s: seq<nat>) {
    forall i, j :: 0 <= i < j < |s| ==> s[i] < s[j]
  }

  lemma {:induction false} LeastExists(s: set<nat>) returns (m: nat)
    requires s != {}
    ensures m in s && forall x :: x in s ==> m <= x
  {
    var y :| y in s;
    if s == {y} {
      m := y;
    } else {
      m := LeastExists(s - {y});
      assert forall x :: x in s ==> x == y || x in s - {y};
      if y < m {
        m := y;
      }
    }
  }

  ghost predicate IsLeast(m: nat, s: set<nat>) {
    m in s && forall x :: x in s ==> m <= x
  }

  ghost function Ascending(s: set<nat>): (r: seq<nat>)
    ensures forall x :: x in r <==> x in s
  {
    if s == {} then []
    else
      assert exists m :: IsLeast(m, s) by {
        var m := LeastExists(s);
        assert IsLeast(m, s);
      }
      var m :| IsLeast(m, s);
      [m] + Ascending(s - {m})
  }

  /** There is only one ascending enumeration. */
  lemma {:induction false} AscendingUnique(s: set<nat>, r: seq<nat>)
    requires IsAscending(r) && forall x :: x in r <==> x in s
    ensures r == Ascending(s)
  {
    if r != [] {
      assert r[0] in s;
      var head := LeastFirst(s);
      var k :| 0 <= k < |r| && r[k] == head;
      assert r[0] <= r[k];
      assert r == [r[0]] + r[1..];
      RestOfAscending(s, r);
      hide Ascending;
      AscendingUnique(s - {head}, r[1..]);
    } else {
      assert forall x :: x in s ==> x in r;
    }
  }

  lemma LeastFirst(s: set<nat>) returns (head: nat)
    requires s != {}
    ensures IsLeast(head, s) && Ascending(s) == [head] + Ascending(s - {head})
  {
    head := Ascending(s)[0];
  }

  lemma RestOfAscending(s: set<nat>, r: seq<nat>)
    requires r != [] && IsAscending(r) && forall x :: x in r <==> x in s
    ensures IsAscending(r[1..]) && forall x :: x in r[1..] <==> x in s - {r[0]}
  {
    forall x ensures x in r[1..] <==> x in s - {r[0]} {
      if x in s - {r[0]} {
        var k :| 0 <= k < |r| && r[k] == x;
        assert r[1..][k - 1] == x;
      }
      if x in r[1..] {
        var k :| 0 <= k < |r[1..]| && r[1..][k] == x;
        assert r[k + 1] == x && r[k + 1] in r;
      }
    }
  }

  // ----- tiles

  /** The blocks a truthful peer sends: aligned, below the piece size, the true bytes. */
  ghost predicate IsTrueBlock(truth: Bytes, offset: nat, data: Bytes) {
    offset % BLOCK_SIZE == 0 && offset < |truth| && data == truth[offset..Min(offset + BLOCK_SIZE, |truth|)]
  }

  ghost predicate TrueBlocks(c: Collector, truth: Bytes) {
    |truth| == c.pieceSize && forall o :: o in c.blocks ==> IsTrueBlock(truth, o, c.blocks[o])
  }

  ghost function Tiles(n: nat): set<nat> {
    set k | 0 <= k < n :: k * BLOCK_SIZE
  }

  lemma {:induction false} TilesCount(n: nat)
    ensures |Tiles(n)| == n
  {
    if n > 0 {
      TilesCount(n - 1);
      var last := (n - 1) * BLOCK_SIZE;
      assert Tiles(n) == Tiles(n - 1) + {last} by {
        forall x | x in Tiles(n) ensures x in Tiles(n - 1) + {last} {
          var k :| 0 <= k < n && x == k * BLOCK_SIZE;
          if k < n - 1 {
            assert x in Tiles(n - 1);
          }
        }
      }
      assert last !in Tiles(n - 1);
    }
  }

  lemma {:induction false} SubsetOfSameSize(a: set<nat>, b: set<nat>)
    requires a <= b
    ensures |a| <= |b| && (|a| == |b| ==> a == b)
  {
    if a != {} {
      var x :| x in a;
      SubsetOfSameSize(a - {x}, b - {x});
      assert a == (a - {x}) + {x} && b == (b - {x}) + {x};
    }
  }

  predicate IsTileOffset(pieceSize: nat, o: nat) {
    o % BLOCK_SIZE == 0 && o < pieceSize
  }

  lemma AlignedOffsetIsTile(c: Collector, o: nat)
    ensures IsTileOffset(c.pieceSize, o) <==> o in Tiles(c.NumBlocks())
  {
    if IsTileOffset(c.pieceSize, o) {
      var k := o / BLOCK_SIZE;
      assert o == k * BLOCK_SIZE && k < c.NumBlocks();
    }
  }

  /** With truthful blocks, counting them decides whether every tile is present. */
  lemma CompleteMeansAllPresent(c: Collector, truth: Bytes)
    requires TrueBlocks(c, truth)
    ensures c.IsComplete() <==> forall o :: IsTileOffset(c.pieceSize, o) ==> o in c.blocks
    ensures c.IsComplete() <==> c.blocks.Keys == Tiles(c.NumBlocks())
  {
    var n := c.NumBlocks();
    TilesCount(n);
    forall o ensures IsTileOffset(c.pieceSize, o) <==> o in Tiles(n) {
      AlignedOffsetIsTile(c, o);
    }
    forall o | o in c.blocks ensures o in Tiles(n) {
      assert IsTrueBlock(truth, o, c.blocks[o]) && IsTileOffset(c.pieceSize, o);
    }
    if forall o :: IsTileOffset(c.pieceSize, o) ==> o in c.blocks {
      assert forall x :: x in Tiles(n) ==> IsTileOffset(c.pieceSize, x);
      assert c.blocks.Keys == Tiles(n);
    }
    assert |c.blocks| == |c.blocks.Keys|;
    SubsetOfSameSize(c.blocks.Keys, Tiles(n));
  }

  function TileSeq(from: nat, n: nat): seq<nat>
    requires from <= n
  {
    seq(n - from, k requires 0 <= k < n - from => (from + k) * BLOCK_SIZE)
  }

  lemma {:induction false} JoinedTiles(c: Collector, truth: Bytes, from: nat)
    requires TrueBlocks(c, truth) && c.blocks.Keys == Tiles(c.NumBlocks()) && from <= c.NumBlocks()
    ensures forall o :: o in TileSeq(from, c.NumBlocks()) ==> o in c.blocks
    ensures Joined(c.blocks, TileSeq(from, c.NumBlocks())) == truth[Min(from * BLOCK_SIZE, |truth|)..]
    decreases c.NumBlocks() - from
  {
    var n := c.NumBlocks();
    assert forall o :: o in TileSeq(from, n) ==> o in Tiles(n);
    if from < n {
      JoinedTiles(c, truth, from + 1);
      hide Tiles, TrueBlocks;
      var o: nat := from * BLOCK_SIZE;
      TrueTile(c, truth, from);
      assert TileSeq(from, n)[1..] == TileSeq(from + 1, n);
      CutTail(truth, o);
    }
  }

  lemma TrueTile(c: Collector, truth: Bytes, k: nat)
    requires TrueBlocks(c, truth) && c.blocks.Keys == Tiles(c.NumBlocks()) && k < c.NumBlocks()
    ensures k * BLOCK_SIZE in c.blocks && IsTrueBlock(truth, k * BLOCK_SIZE, c.blocks[k * BLOCK_SIZE])
  {
    assert k * BLOCK_SIZE in Tiles(c.NumBlocks());
  }

  lemma CutTail(truth: Bytes, o: nat)
    requires o < |truth|
    ensures truth[o..] == truth[o..Min(o + BLOCK_SIZE, |truth|)] + truth[Min(o + BLOCK_SIZE, |truth|)..]
  {
  }

  lemma TilesInOrder(n: nat)
    ensures Ascending(Tiles(n)) == TileSeq(0, n)
  {
    var tiles := TileSeq(0, n);
    forall x ensures x in tiles <==> x in Tiles(n) {
      if x in Tiles(n) {
        var k :| 0 <= k < n && x == k * BLOCK_SIZE;
        assert tiles[k] == x;
      }
    }
    AscendingUnique(Tiles(n), tiles);
  }

  /** A complete collector of truthful blocks assembles the piece itself. */
  lemma AssembledIsTruth(c: Collector, truth: Bytes)
    requires TrueBlocks(c, truth) && c.IsComplete()
    ensures c.Assembled() == truth
  {
    CompleteMeansAllPresent(c, truth);
    TilesInOrder(c.NumBlocks());
    JoinedTiles(c, truth, 0);
  }

  /** Never more than the piece, whatever was sent. */
  lemma NeverTooLong(c: Collector)
    ensures |c.Assembled()| <= c.pieceSize
  {
    hide Joined, Ascending;
  }

  /** All blocks are true but the last one, which may go on behind the end of the piece. */
  ghost predicate LongTail(c: Collector, truth: Bytes) {
    && |truth| == c.pieceSize
    && forall o :: o in c.blocks ==>
      && IsTileOffset(c.pieceSize, o)
      && if o + BLOCK_SIZE < c.pieceSize then IsTrueBlock(truth, o, c.blocks[o]) else truth[o..] <= c.blocks[o]
  }

  lemma {:induction false} JoinedWithTail(c: Collector, truth: Bytes, from: nat)
    requires LongTail(c, truth) && c.blocks.Keys == Tiles(c.NumBlocks()) && from < c.NumBlocks()
    ensures forall o :: o in TileSeq(from, c.NumBlocks()) ==> o in c.blocks
    ensures from * BLOCK_SIZE < |truth|
    ensures truth[from * BLOCK_SIZE..] <= Joined(c.blocks, TileSeq(from, c.NumBlocks()))
    decreases c.NumBlocks() - from
  {
    var n := c.NumBlocks();
    assert forall o :: o in TileSeq(from, n) ==> o in Tiles(n);
    var o: nat := from * BLOCK_SIZE;
    assert o in Tiles(n);
    assert TileSeq(from, n)[1..] == TileSeq(from + 1, n);
    if from + 1 < n {
      JoinedWithTail(c, truth, from + 1);
      hide Tiles;
      CutTail(truth, o);
      assert o + BLOCK_SIZE == (from + 1) * BLOCK_SIZE;
    } else {
      assert Joined(c.blocks, TileSeq(from, n)) == c.blocks[o] + Joined(c.blocks, []);
    }
  }

  /** What is sent behind the end of the piece is cut off. */
  lemma TailIsCut(c: Collector, truth: Bytes)
    requires LongTail(c, truth) && c.IsComplete()
    ensures c.Assembled() == truth
  {
    AllTilesThere(c, truth);
    var n := c.NumBlocks();
    TilesInOrder(n);
    hide Tiles, Ascending;
    if n > 0 {
      JoinedWithTail(c, truth, 0);
      assert truth[0..] == truth;
    }
  }

  lemma AllTilesThere(c: Collector, truth: Bytes)
    requires LongTail(c, truth) && c.IsComplete()
    ensures c.blocks.Keys == Tiles(c.NumBlocks())
  {
    var n := c.NumBlocks();
    TilesCount(n);
    forall o | o in c.blocks ensures o in Tiles(n) {
      AlignedOffsetIsTile(c, o);
    }
    assert |c.blocks| == |c.blocks.Keys|;
    SubsetOfSameSize(c.blocks.Keys, Tiles(n));
  }

  // ----- deliveries in any order

  datatype Delivery = Delivery(offset: nat, data: Bytes)

  function DeliverAll(c: Collector, ds: seq<Delivery>): Collector
    decreases |ds|
  {
    if ds == [] then c else DeliverAll(c.AddBlock(ds[0].offset, ds[0].data), ds[1..])
  }

  ghost predicate Delivered(ds: seq<Delivery>, o: nat) {
    exists k :: 0 <= k < |ds| && ds[k].offset == o
  }

  lemma {:induction false} DeliverAllKeys(c: Collector, ds: seq<Delivery>, truth: Bytes)
    requires TrueBlocks(c, truth) && forall d :: d in ds ==> IsTrueBlock(truth, d.offset, d.data)
    ensures TrueBlocks(DeliverAll(c, ds), truth)
    ensures DeliverAll(c, ds).pieceSize == c.pieceSize
    ensures forall o :: o in DeliverAll(c, ds).blocks <==> o in c.blocks || Delivered(ds, o)
    decreases |ds|
  {
    if ds != [] {
      DeliverAllKeys(c.AddBlock(ds[0].offset, ds[0].data), ds[1..], truth);
      forall o: nat ensures Delivered(ds, o) <==> ds[0].offset == o || Delivered(ds[1..], o) {
        if Delivered(ds[1..], o) {
          var k :| 0 <= k < |ds[1..]| && ds[1..][k].offset == o;
          assert ds[k + 1].offset == o;
        }
        if Delivered(ds, o) && ds[0].offset != o {
          var k :| 0 <= k < |ds| && ds[k].offset == o;
          assert ds[1..][k - 1].offset == o;
        }
      }
    }
  }

  /** Whatever the order and the repetitions, a fresh collector fed truthful blocks is
      complete once every offset was delivered, and then holds the piece. */
  lemma AnyDeliveryOrder(index: nat, expected: Digest, truth: Bytes, ds: seq<Delivery>)
    requires forall d :: d in ds ==> IsTrueBlock(truth, d.offset, d.data)
    ensures var c := DeliverAll(NewCollector(index, |truth|, expected), ds);
      && (c.IsComplete() <==> forall o :: IsTileOffset(|truth|, o) ==> Delivered(ds, o))
      && (c.IsComplete() ==> c.Assembled() == truth)
  {
    var c := DeliverAll(NewCollector(index, |truth|, expected), ds);
    DeliverAllKeys(NewCollector(index, |truth|, expected), ds, truth);
    CompleteMeansAllPresent(c, truth);
    if c.IsComplete() {
      AssembledIsTruth(c, truth);
    }
  }

  // ----- claims

  ghost predicate DistinctOffsets(claims: seq<(nat, nat)>) {
    forall i, j :: 0 <= i < j < |claims| ==> claims[i].0 != claims[j].0
  }

  ghost function Offsets(claims: seq<(nat, nat)>): set<nat> {
    set k | 0 <= k < |claims| :: claims[k].0
  }

  /** What one call of `claim_blocks` returns and records. */
  ghost predicate Claims(before: Collector, after: Collector, now: Instant, count: nat, claimed: seq<(nat, nat)>) {
    && DistinctOffsets(claimed)
    && |claimed| == Min(count, |before.Eligible(now)|)
    && Offsets(claimed) <= before.Eligible(now)
    && (forall k :: 0 <= k < |claimed| ==> claimed[k].1 == Min(BLOCK_SIZE, before.pieceSize - claimed[k].0) > 0)
    && after == before.(issued := after.issued)
    && after.issued.Keys == before.issued.Keys + Offsets(claimed)
    && (forall o :: o in after.issued ==> after.issued[o] == if o in Offsets(claimed) then now else before.issued[o])
  }

  datatype Event =
    | Claim(now: Instant, count: nat, claimed: seq<(nat, nat)>)
    | Deliver(offset: nat, data: Bytes)
    | Release(offset: nat)

  ghost predicate Step(before: Collector, e: Event, after: Collector) {
    match e
    case Claim(now, count, claimed) => Claims(before, after, now, count, claimed)
    case Deliver(offset, data) => after == before.AddBlock(offset, data)
    case Release(offset) => after == before.(issued := before.issued - {offset})
  }

  ghost predicate Run(cs: seq<Collector>, es: seq<Event>) {
    && |cs| == |es| + 1
    && (forall k :: 0 <= k < |es| ==> Step(cs[k], es[k], cs[k + 1]))
    && (forall i, j :: 0 <= i < j < |es| && es[i].Claim? && es[j].Claim? ==> es[i].now <= es[j].now)
  }

  /** After a claim, the offset is stored or still carries a stamp at least as recent,
      as long as nobody released it. */
  lemma {:induction false} StampStays(cs: seq<Collector>, es: seq<Event>, i: nat, k: nat, o: nat)
    requires Run(cs, es) && i < k <= |es| && es[i].Claim? && o in Offsets(es[i].claimed)
    requires forall m :: i < m < k ==> es[m] != Release(o)
    ensures o in cs[k].blocks || (o in cs[k].issued && es[i].now <= cs[k].issued[o])
  {
    assert Step(cs[k - 1], es[k - 1], cs[k]);
    if k > i + 1 {
      StampStays(cs, es, i, k - 1, o);
    }
  }

  /** Two claims of one offset are thirty seconds apart unless it was released between them. */
  lemma ClaimsAreSpaced(cs: seq<Collector>, es: seq<Event>, i: nat, j: nat, o: nat)
    requires Run(cs, es) && i < j < |es| && es[i].Claim? && es[j].Claim?
    requires o in Offsets(es[i].claimed) && o in Offsets(es[j].claimed)
    requires forall m :: i < m < j ==> es[m] != Release(o)
    ensures es[j].now >= es[i].now + 30_000_000_000
  {
    StampStays(cs, es, i, j, o);
    assert Step(cs[j], es[j], cs[j + 1]);
    assert o in cs[j].Eligible(es[j].now);
  }

  lemma {:induction false} BlocksStay(cs: seq<Collector>, es: seq<Event>, i: nat, k: nat, o: nat)
    requires Run(cs, es) && i <= k <= |es| && o in cs[i].blocks
    ensures o in cs[k].blocks && cs[k].blocks[o] == cs[i].blocks[o]
  {
    if i < k {
      BlocksStay(cs, es, i, k - 1, o);
      assert Step(cs[k - 1], es[k - 1], cs[k]);
    }
  }

  /** A stored offset is never claimed again, released or not. */
  lemma StoredNeverClaimed(cs: seq<Collector>, es: seq<Event>, i: nat, j: nat, o: nat)
    requires Run(cs, es) && i <= j < |es| && o in cs[i].blocks && es[j].Claim?
    ensures o !in Offsets(es[j].claimed)
  {
    BlocksStay(cs, es, i, j, o);
    assert Step(cs[j], es[j], cs[j + 1]);
  }

  // ----- when a block is handed out again

  ghost predicate ClaimedAt(es: seq<Event>, i: nat, o: nat) {
    i < |es| && es[i].Claim? && o in Offsets(es[i].claimed)
  }

  ghost predicate DeliveredBefore(es: seq<Event>, k: nat, o: nat)
    requires k <= |es|
  {
    exists m :: 0 <= m < k && es[m].Deliver? && es[m].offset == o
  }

  ghost predicate ReleasedBetween(es: seq<Event>, i: nat, k: nat, o: nat)
    requires k <= |es|
  {
    exists m :: i < m < k && es[m] == Release(o)
  }

  /** From a new collector, the stored offsets are those that were delivered. */
  lemma {:induction false} StoredAreDelivered(cs: seq<Collector>, es: seq<Event>, k: nat, o: nat)
    requires Run(cs, es) && cs[0].blocks == map[] && k <= |es|
    ensures o in cs[k].blocks <==> DeliveredBefore(es, k, o)
  {
    if k > 0 {
      StoredAreDelivered(cs, es, k - 1, o);
      assert Step(cs[k - 1], es[k - 1], cs[k]);
      if es[k - 1].Deliver? && es[k - 1].offset == o {
        assert DeliveredBefore(es, k, o);
      }
    }
  }

  /** A stamp is that of a claim which has not been released since. */
  lemma {:induction false} StampIsOfClaim(cs: seq<Collector>, es: seq<Event>, k: nat, o: nat) returns (i: nat)
    requires Run(cs, es) && cs[0].issued == map[] && k <= |es| && o in cs[k].issued
    ensures i < k && ClaimedAt(es, i, o) && es[i].now == cs[k].issued[o] && !ReleasedBetween(es, i, k, o)
  {
    assert Step(cs[k - 1], es[k - 1], cs[k]);
    if ClaimedAt(es, k - 1, o) {
      i := k - 1;
    } else {
      i := StampIsOfClaim(cs, es, k - 1, o);
    }
  }

  lemma {:induction false} SizeStays(cs: seq<Collector>, es: seq<Event>, k: nat)
    requires Run(cs, es) && k <= |es|
    ensures cs[k].pieceSize == cs[0].pieceSize
  {
    if k > 0 {
      SizeStays(cs, es, k - 1);
      assert Step(cs[k - 1], es[k - 1], cs[k]);
    }
  }

  /** A call that returns fewer blocks than it might hands out exactly the aligned offsets of the
      piece that were never delivered and whose every claim was released since or is at least
      thirty seconds old. */
  lemma ClaimedExactly(cs: seq<Collector>, es: seq<Event>, index: nat, pieceSize: nat, expected: Digest, j: nat, o: nat)
    requires Run(cs, es) && cs[0] == NewCollector(index, pieceSize, expected)
    requires j < |es| && es[j].Claim? && |es[j].claimed| < es[j].count
    ensures o in Offsets(es[j].claimed) <==>
      && o % 16384 == 0 && o < pieceSize && !DeliveredBefore(es, j, o)
      && forall i :: 0 <= i < j && ClaimedAt(es, i, o) ==>
           ReleasedBetween(es, i, j, o) || es[j].now >= es[i].now + 30_000_000_000
  {
    assert Step(cs[j], es[j], cs[j + 1]);
    SizeStays(cs, es, j);
    StoredAreDelivered(cs, es, j, o);
    FewerMeansAll(cs[j], es[j].now, es[j].claimed);
    AlignedOffsetIsTile(cs[j], o);
    EligibleMeans(cs[j], o, es[j].now);
    if o in Offsets(es[j].claimed) {
      forall i | 0 <= i < j && ClaimedAt(es, i, o) && !ReleasedBetween(es, i, j, o)
        ensures es[j].now >= es[i].now + 30_000_000_000
      {
        ClaimsAreSpaced(cs, es, i, j, o);
      }
    } else if o in cs[j].issued {
      var i := StampIsOfClaim(cs, es, j, o);
    }
  }

  lemma FewerMeansAll(c: Collector, now: Instant, claimed: seq<(nat, nat)>)
    requires DistinctOffsets(claimed) && Offsets(claimed) <= c.Eligible(now) && |claimed| == |c.Eligible(now)|
    ensures Offsets(claimed) == c.Eligible(now)
  {
    DistinctCount(claimed);
    SubsetOfSameSize(Offsets(claimed), c.Eligible(now));
  }

  lemma EligibleMeans(c: Collector, o: nat, now: Instant)
    ensures o in c.Eligible(now) <==> o in Tiles(c.NumBlocks()) && o !in c.blocks && !c.IsFresh(o, now)
  {
  }

  // ----- the collector object

  class PieceCollector {
    const index: nat
    const pieceSize: nat
    const expectedHash: Digest
    var blocks: map<nat, Bytes>
    var issued: map<nat, Instant>
    const numBlocks: nat

    ghost predicate Valid() {
      numBlocks == (pieceSize + BLOCK_SIZE - 1) / BLOCK_SIZE
    }

    function State(): Collector
      reads this
    {
      Collector(index, pieceSize, expectedHash, blocks, issued)
    }

    constructor (index: nat, pieceSize: nat, expectedHash: Digest)
      ensures Valid() && State() == NewCollector(index, pieceSize, expectedHash)
    {
      this.index := index;
      this.pieceSize := pieceSize;
      this.expectedHash := expectedHash;
      this.blocks := map[];
      this.issued := map[];
      this.numBlocks := (pieceSize + BLOCK_SIZE - 1) / BLOCK_SIZE;
    }

    method IsComplete() returns (r: bool)
      requires Valid()
      ensures r <==> State().IsComplete()
    {
      r := |blocks| >= numBlocks;
    }

    method AddBlock(offset: nat, data: Bytes) returns (complete: bool)
      requires Valid()
      modifies this
      ensures State() == old(State()).AddBlock(offset, data)
      ensures complete <==> State().IsComplete()
    {
      var wasComplete := IsComplete();
      if offset in blocks {
        return wasComplete;
      }
      issued := issued - {offset};
      blocks := blocks[offset := data];
      complete := IsComplete();
    }

    method Assemble() returns (r: Option<Bytes>)
      requires Valid()
      ensures r == if State().IsComplete() then Some(State().Assembled()) else None
    {
      var complete := IsComplete();
      if !complete {
        return None;
      }
      var offsets := SortedOffsets(blocks.Keys);
      var result: Bytes := [];
      for k := 0 to |offsets|
        invariant result + Joined(blocks, offsets[k..]) == Joined(blocks, offsets)
      {
        JoinedStep(blocks, offsets, k, result);
        result := result + blocks[offsets[k]];
      }
      assert result == Joined(blocks, offsets);
      return Some(Truncate(result, pieceSize));
    }

    /** `shuffle(i)` is the random number drawn for position `i`. */
    method ClaimBlocks(count: nat, now: Instant, shuffle: nat -> nat) returns (claimed: seq<(nat, nat)>)
      requires Valid()
      modifies this`issued
      ensures Claims(old(State()), State(), now, count, claimed)
    {
      var missing := MissingTiles();
      missing := Shuffled(missing, shuffle);
      claimed := [];
      ghost var c0 := State();
      for k := 0 to |missing|
        invariant ClaimedSoFar(c0, issued, now, claimed) && |claimed| <= count
        invariant State() == c0.(issued := issued)
        invariant forall m :: 0 <= m < |claimed| ==> claimed[m] in missing[..k]
        invariant forall m :: 0 <= m < k && missing[m].0 in c0.Eligible(now) ==> missing[m].0 in Offsets(claimed)
      {
        if |claimed| >= count {
          break;
        }
        var (offset, length) := missing[k];
        assert missing[k] in missing;
        NotYetClaimed(missing, k, claimed);
        assert missing[..k + 1] == missing[..k] + [missing[k]];
        if offset in issued && (now - issued[offset]) / SECOND < ISSUED_TIMEOUT_SECS {
          assert c0.IsFresh(offset, now);
          continue;
        }
        EligibleTile(c0, offset, now);
        ClaimOneMore(c0, issued, now, claimed, missing[k]);
        issued := issued[offset := now];
        claimed := claimed + [(offset, length)];
      }
      AllEligibleMissing(c0, now, missing);
      CountClaims(c0, now, count, claimed);
    }

    /** The tiles not stored yet, in ascending order. */
    method MissingTiles() returns (missing: seq<(nat, nat)>)
      requires Valid()
      ensures DistinctOffsets(missing)
      ensures forall t :: t in missing <==>
        t.0 in Tiles(numBlocks) && t.0 !in blocks && t.1 == Min(BLOCK_SIZE, pieceSize - t.0)
    {
      missing := [];
      var k := 0;
      while k * BLOCK_SIZE < pieceSize
        invariant k <= numBlocks && DistinctOffsets(missing)
        invariant forall t :: t in missing <==>
          t.0 in Tiles(k) && t.0 !in blocks && t.1 == Min(BLOCK_SIZE, pieceSize - t.0)
        decreases pieceSize - k * BLOCK_SIZE
      {
        var offset := k * BLOCK_SIZE;
        assert Tiles(k + 1) == Tiles(k) + {offset};
        assert offset !in Tiles(k);
        if offset !in blocks {
          missing := missing + [(offset, Min(BLOCK_SIZE, pieceSize - offset))];
        }
        k := k + 1;
      }
    }
  }

  lemma JoinedStep(blocks: map<nat, Bytes>, offsets: seq<nat>, k: nat, before: Bytes)
    requires k < |offsets| && forall o :: o in offsets ==> o in blocks
    ensures before + Joined(blocks, offsets[k..]) == before + blocks[offsets[k]] + Joined(blocks, offsets[k + 1..])
  {
    assert offsets[k..][1..] == offsets[k + 1..];
  }

  method SortedOffsets(keys: set<nat>) returns (offsets: seq<nat>)
    ensures offsets == Ascending(keys)
  {
    offsets := [];
    var rest := keys;
    while rest != {}
      invariant rest <= keys && IsAscending(offsets)
      invariant forall x :: x in offsets <==> x in keys - rest
      decreases rest
    {
      var x :| x in rest;
      offsets := InsertSorted(offsets, x);
      rest := rest - {x};
    }
    AscendingUnique(keys, offsets);
  }

  function InsertSorted(s: seq<nat>, x: nat): (r: seq<nat>)
    requires IsAscending(s) && x !in s
    ensures IsAscending(r) && forall y :: y in r <==> y == x || y in s
  {
    if s == [] || x < s[0] then [x] + s
    else
      HeadIsLeast(s);
      var rest := InsertSorted(s[1..], x);
      StaysAscending(s[0], rest);
      assert s == [s[0]] + s[1..];
      [s[0]] + rest
  }

  lemma HeadIsLeast(s: seq<nat>)
    requires IsAscending(s) && s != []
    ensures IsAscending(s[1..]) && forall y :: y in s[1..] ==> s[0] < y
  {
    forall y | y in s[1..] ensures s[0] < y {
      var k :| 0 <= k < |s[1..]| && s[1..][k] == y;
      assert s[k + 1] == y;
    }
  }

  lemma StaysAscending(head: nat, rest: seq<nat>)
    requires IsAscending(rest) && forall y :: y in rest ==> head < y
    ensures IsAscending([head] + rest)
  {
    var all := [head] + rest;
    forall i, j | 0 <= i < j < |all| ensures all[i] < all[j] {
      assert all[j] == rest[j - 1] && all[j] in rest;
    }
  }

  /** The Fisher-Yates loop of `claim_blocks`. */
  method Shuffled(items: seq<(nat, nat)>, draw: nat -> nat) returns (r: seq<(nat, nat)>)
    requires DistinctOffsets(items)
    ensures |r| == |items| && DistinctOffsets(r) && forall t :: t in r <==> t in items
  {
    r := items;
    var i := |items|;
    while i > 1
      invariant |r| == |items| && i <= |items| && DistinctOffsets(r) && forall t :: t in r <==> t in items
    {
      i := i - 1;
      var j := draw(i) % (i + 1);
      SwapKeeps(r, i, j);
      r := r[i := r[j]][j := r[i]];
    }
  }

  lemma SwapKeeps(s: seq<(nat, nat)>, i: nat, j: nat)
    requires i < |s| && j < |s| && DistinctOffsets(s)
    ensures DistinctOffsets(s[i := s[j]][j := s[i]]) && forall t :: t in s[i := s[j]][j := s[i]] <==> t in s
  {
    var r := s[i := s[j]][j := s[i]];
    forall t | t in s ensures t in r {
      var k :| 0 <= k < |s| && s[k] == t;
      assert r[if k == i then j else if k == j then i else k] == t;
    }
  }

  lemma NotYetClaimed(missing: seq<(nat, nat)>, k: nat, claimed: seq<(nat, nat)>)
    requires k < |missing| && DistinctOffsets(missing)
    requires forall m :: 0 <= m < |claimed| ==> claimed[m] in missing[..k]
    ensures missing[k].0 !in Offsets(claimed)
  {
  }

  ghost predicate ClaimedSoFar(c: Collector, issued: map<nat, Instant>, now: Instant, claimed: seq<(nat, nat)>) {
    && DistinctOffsets(claimed)
    && Offsets(claimed) <= c.Eligible(now)
    && (forall k :: 0 <= k < |claimed| ==> claimed[k].1 == Min(BLOCK_SIZE, c.pieceSize - claimed[k].0) > 0)
    && issued.Keys == c.issued.Keys + Offsets(claimed)
    && (forall o :: o in issued ==> issued[o] == if o in Offsets(claimed) then now else c.issued[o])
  }

  lemma ClaimOneMore(c: Collector, issued: map<nat, Instant>, now: Instant, claimed: seq<(nat, nat)>, t: (nat, nat))
    requires ClaimedSoFar(c, issued, now, claimed)
    requires t.0 in c.Eligible(now) && t.0 !in Offsets(claimed) && t.1 == Min(BLOCK_SIZE, c.pieceSize - t.0)
    ensures ClaimedSoFar(c, issued[t.0 := now], now, claimed + [t])
    ensures Offsets(claimed + [t]) == Offsets(claimed) + {t.0}
  {
    OffsetsGrow(claimed, t);
    assert forall k :: 0 <= k < |claimed| ==> claimed[k].0 in Offsets(claimed);
    EligibleInPiece(c, now, t.0);
    hide Offsets;
  }

  lemma EligibleInPiece(c: Collector, now: Instant, o: nat)
    requires o in c.Eligible(now)
    ensures o < c.pieceSize
  {
  }

  lemma AllEligibleMissing(c: Collector, now: Instant, missing: seq<(nat, nat)>)
    requires forall t :: t in missing <==>
      t.0 in Tiles(c.NumBlocks()) && t.0 !in c.blocks && t.1 == Min(BLOCK_SIZE, c.pieceSize - t.0)
    ensures forall o :: o in c.Eligible(now) ==> exists m :: 0 <= m < |missing| && missing[m].0 == o
  {
    forall o | o in c.Eligible(now) ensures exists m :: 0 <= m < |missing| && missing[m].0 == o {
      var t: (nat, nat) := (o, Min(BLOCK_SIZE, c.pieceSize - o));
      assert t in missing;
    }
  }

  lemma OffsetsGrow(claimed: seq<(nat, nat)>, t: (nat, nat))
    ensures Offsets(claimed + [t]) == Offsets(claimed) + {t.0}
  {
    var more := claimed + [t];
    assert more[|claimed|] == t;
    forall k | 0 <= k < |claimed| ensures more[k] == claimed[k] {
    }
  }

  lemma EligibleTile(c: Collector, o: nat, now: Instant)
    requires o in Tiles(c.NumBlocks()) && o !in c.blocks && !c.IsFresh(o, now)
    ensures o in c.Eligible(now)
  {
  }

  lemma {:induction false} DistinctCount(claims: seq<(nat, nat)>)
    requires DistinctOffsets(claims)
    ensures |Offsets(claims)| == |claims|
  {
    if claims != [] {
      var n := |claims| - 1;
      DistinctCount(claims[..n]);
      OffsetsGrow(claims[..n], claims[n]);
      assert claims[..n] + [claims[n]] == claims;
      assert claims[n].0 !in Offsets(claims[..n]);
    }
  }

  lemma CountClaims(c: Collector, now: Instant, count: nat, claimed: seq<(nat, nat)>)
    requires DistinctOffsets(claimed) && |claimed| <= count && Offsets(claimed) <= c.Eligible(now)
    requires |claimed| < count ==> c.Eligible(now) <= Offsets(claimed)
    ensures |claimed| == Min(count, |c.Eligible(now)|)
  {
    DistinctCount(claimed);
    SubsetOfSameSize(Offsets(claimed), c.Eligible(now));
    if |claimed| < count {
      assert Offsets(claimed) == c.Eligible(now);
    }
  }
}
