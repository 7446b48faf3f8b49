/** The chunks of an info dictionary being fetched (src/peer.rs, `MetadataState`). */
module MetadataStates {
  import opened Bytes
  import Collectors

  const CHUNK: nat := Collectors.BLOCK_SIZE

  /** The fields of a `MetadataState` that change. */
  datatype Chunks = Chunks(pieces: seq<Option<Bytes>>, totalSize: nat)
  {
    predicate AllPresent() {
      forall i :: 0 <= i < |pieces| ==> pieces[i].Some?
    }

    function Stored(index: nat, data: Bytes): Chunks {
      if index < |pieces| then this.(pieces := pieces[index := Some(data)]) else this
    }

    function Assembled(): Option<Bytes> {
      if AllPresent() then Some(Collectors.Truncate(Concat(pieces), totalSize)) else None
    }
  }

  const NEW_STATE := Chunks([], 0)

  function NumChunks(totalSize: nat): nat {
    (totalSize + CHUNK - 1) / CHUNK
  }

  function Sized(totalSize: nat): Chunks {
    Chunks(seq(NumChunks(totalSize), _ => None), totalSize)
  }

  function Concat(pieces: seq<Option<Bytes>>): Bytes {
    if pieces == [] then []
    else Concat(pieces[..|pieces| - 1]) + match pieces[|pieces| - 1] case None => [] case Some(data) => data
  }

  class MetadataState {
    var pieces: seq<Option<Bytes>>
    var totalSize: nat
    var numPieces: nat

    function State(): Chunks
      reads this
    {
      Chunks(pieces, totalSize)
    }

    constructor ()
      ensures State() == NEW_STATE && numPieces == 0
    {
      pieces, totalSize, numPieces := [], 0, 0;
    }

    method SetTotalSize(size: nat)
      modifies this
      ensures State() == Sized(size) && totalSize == size && numPieces == |pieces| == (size + 16383) / 16384
      ensures forall k :: 0 <= k < |pieces| ==> pieces[k] == None
    {
      totalSize := size;
      numPieces := (size + CHUNK - 1) / CHUNK;
      pieces := seq(numPieces, _ => None);
    }

    method StorePiece(index: nat, data: Bytes) returns (done: bool)
      modifies this`pieces
      ensures State() == old(State()).Stored(index, data)
      ensures pieces == if index < |old(pieces)| then old(pieces)[index := Some(data)] else old(pieces)
      ensures done <==> forall k :: 0 <= k < |pieces| ==> pieces[k] != None
      ensures done <==> State().AllPresent()
    {
      if index < |pieces| {
        pieces := pieces[index := Some(data)];
      }
      done := AllSome();
    }

    method AllSome() returns (r: bool)
      ensures r <==> State().AllPresent()
    {
      for i := 0 to |pieces|
        invariant forall j :: 0 <= j < i ==> pieces[j].Some?
      {
        if pieces[i].None? {
          return false;
        }
      }
      return true;
    }

    method Assemble() returns (r: Option<Bytes>)
      ensures r == State().Assembled()
    {
      var all := AllSome();
      if !all {
        return None;
      }
      var result: Bytes := [];
      for i := 0 to |pieces|
        invariant result == Concat(pieces[..i])
      {
        assert pieces[..i + 1][..i] == pieces[..i];
        if pieces[i].Some? {
          result := result + pieces[i].value;
        }
      }
      assert pieces[..|pieces|] == pieces;
      return Some(Collectors.Truncate(result, totalSize));
    }
  }

  /** What a data message does to the chunks: the message for piece 0 that carries the total
      size starts over. */
  function Received(c: Chunks, piece: nat, size: nat, data: Bytes): Chunks {
    var c1 := if piece == 0 && size > 0 then Sized(size) else c;
    if piece == 0 && c1.totalSize == 0 then c1 else c1.Stored(piece, data)
  }

  // ----- the chunks of an honest peer

  function Chunk(dict: Bytes, k: nat): (chunk: Bytes)
    requires k < NumChunks(|dict|)
    ensures 16384 * k < |dict| && chunk == dict[16384 * k..Min(16384 * k + 16384, |dict|)]
  {
    dict[k * CHUNK..Min((k + 1) * CHUNK, |dict|)]
  }

  /** Sized for `dict`, and whatever is stored is right. */
  ghost predicate Truthful(c: Chunks, dict: Bytes) {
    && c.totalSize == |dict| && |c.pieces| == NumChunks(|dict|)
    && forall k :: 0 <= k < |c.pieces| && c.pieces[k].Some? ==> c.pieces[k].value == Chunk(dict, k)
  }

  lemma {:induction false} ConcatChunks(c: Chunks, dict: Bytes, n: nat)
    requires Truthful(c, dict) && c.AllPresent() && n <= |c.pieces|
    ensures Concat(c.pieces[..n]) == dict[..Min(n * CHUNK, |dict|)]
  {
    if n > 0 {
      ConcatChunks(c, dict, n - 1);
      assert c.pieces[..n][..n - 1] == c.pieces[..n - 1];
      assert c.pieces[..n][n - 1] == c.pieces[n - 1];
      assert (n - 1) * CHUNK < |dict|;
    }
  }

  /** Truthful chunks assemble exactly when none is missing, and then to the dictionary. */
  lemma AssembledIsDict(c: Chunks, dict: Bytes)
    requires Truthful(c, dict)
    ensures c.Assembled() == if c.AllPresent() then Some(dict) else None
  {
    if c.AllPresent() {
      ConcatChunks(c, dict, |c.pieces|);
      assert c.pieces[..|c.pieces|] == c.pieces;
      assert dict[..|dict|] == dict;
    }
  }

  // ----- chunks stored in any order

  ghost predicate AllBelow(order: seq<nat>, n: nat) {
    forall i :: 0 <= i < |order| ==> order[i] < n
  }

  /** The true chunks come in this order, the first one always with the total size. */
  ghost function StoredAll(c: Chunks, dict: Bytes, order: seq<nat>): Chunks
    requires AllBelow(order, NumChunks(|dict|))
  {
    if order == [] then c
    else
      var n := |order| - 1;
      StoredNext(StoredAll(c, dict, order[..n]), dict, order[n])
  }

  function StoredNext(c: Chunks, dict: Bytes, k: nat): Chunks
    requires k < NumChunks(|dict|)
  {
    (if k == 0 then Sized(|dict|) else c).Stored(k, Chunk(dict, k))
  }

  /** Piece `k` came, and the first piece did not come (again) after it. */
  ghost predicate LastsIn(order: seq<nat>, k: nat) {
    exists j :: 0 <= j < |order| && order[j] == k && forall l :: j < l < |order| ==> order[l] != 0
  }

  lemma LastsOneMore(order: seq<nat>, last: nat, k: nat)
    ensures LastsIn(order + [last], k) <==> last == k || (last != 0 && LastsIn(order, k))
  {
    var more := order + [last];
    assert more[|order|] == last;
    if last != k && LastsIn(more, k) {
      var j :| 0 <= j < |more| && more[j] == k && forall l :: j < l < |more| ==> more[l] != 0;
      assert forall l :: j < l < |order| ==> order[l] == more[l];
      assert order[j] == k;
    }
    if last != 0 && LastsIn(order, k) {
      var j :| 0 <= j < |order| && order[j] == k && forall l :: j < l < |order| ==> order[l] != 0;
      assert more[j] == k;
    }
  }

  lemma {:induction false} TruthfulAfter(c: Chunks, dict: Bytes, order: seq<nat>)
    requires AllBelow(order, NumChunks(|dict|)) && Truthful(c, dict)
    ensures Truthful(StoredAll(c, dict, order), dict)
    decreases |order|
  {
    hide Chunk;
    if order != [] {
      TruthfulAfter(c, dict, order[..|order| - 1]);
    }
  }

  /** Chunk `k` came since the first one last came, or nothing started over and it was there. */
  ghost predicate Covered(c: Chunks, order: seq<nat>, k: nat)
    requires k < |c.pieces|
  {
    LastsIn(order, k) || (0 !in order && c.pieces[k].Some?)
  }

  /** After true chunks in any order, with any repetitions, a chunk is present exactly when it
      came and the first one did not come after it, or when the first one did not come at all
      and it was there before. */
  lemma {:induction false} PresentAfter(c: Chunks, dict: Bytes, order: seq<nat>, k: nat)
    requires AllBelow(order, NumChunks(|dict|)) && Truthful(c, dict) && k < NumChunks(|dict|)
    ensures var c1 := StoredAll(c, dict, order); k < |c1.pieces| && (c1.pieces[k].Some? <==> Covered(c, order, k))
    decreases |order|
  {
    hide Chunk, LastsIn;
    if order != [] {
      var n := |order| - 1;
      TruthfulAfter(c, dict, order[..n]);
      PresentAfter(c, dict, order[..n], k);
      assert order == order[..n] + [order[n]];
      LastsOneMore(order[..n], order[n], k);
    } else {
      NothingLasts(k);
    }
  }

  lemma NothingLasts(k: nat)
    ensures !LastsIn([], k)
  {
  }

  /** Every chunk of the dictionary is covered. */
  ghost predicate Complete(c: Chunks, dict: Bytes, order: seq<nat>)
    requires Truthful(c, dict)
  {
    forall k :: 0 <= k < NumChunks(|dict|) ==> Covered(c, order, k)
  }

  /** What is assembled after true chunks in any order. */
  lemma AnyChunkOrder(c: Chunks, dict: Bytes, order: seq<nat>)
    requires AllBelow(order, NumChunks(|dict|)) && Truthful(c, dict)
    ensures StoredAll(c, dict, order).AllPresent() <==> Complete(c, dict, order)
    ensures StoredAll(c, dict, order).Assembled() == if Complete(c, dict, order) then Some(dict) else None
  {
    hide StoredAll, Covered, Chunk, NumChunks, AllBelow;
    var c1 := StoredAll(c, dict, order);
    TruthfulAfter(c, dict, order);
    AssembledIsDict(c1, dict);
    forall k | 0 <= k < NumChunks(|dict|) ensures k < |c1.pieces| && (c1.pieces[k].Some? <==> Covered(c, order, k)) {
      PresentAfter(c, dict, order, k);
    }
  }
}
