/** Piece bitfields: a peer's (src/peer.rs) and our own (src/piece.rs, `have_bitfield`),
    the high bit of the first byte standing for piece 0. */
module Bitfields {
  import opened Bytes
  import opened InfoHashes
  import opened Layouts

  /** Pieces beyond the end are not there. */
  predicate HasPiece(bitfield: Bytes, index: nat) {
    index / 8 < |bitfield| && BitOf(bitfield[index / 8], 7 - index % 8)
  }

  function WithPiece(bitfield: Bytes, index: nat): (r: Bytes)
    requires index / 8 < |bitfield|
    ensures |r| == |bitfield|
  {
    ByteWidth();
    WithBitFits(bitfield[index / 8], 7 - index % 8, true, 8);
    bitfield[index / 8 := WithBit(bitfield[index / 8], 7 - index % 8, true)]
  }

  lemma WithPieceHas(bitfield: Bytes, index: nat, j: nat)
    requires index / 8 < |bitfield|
    ensures HasPiece(WithPiece(bitfield, index), j) <==> j == index || HasPiece(bitfield, j)
  {
    if j / 8 == index / 8 {
      WithBitBits(bitfield[index / 8], 7 - index % 8, true, 7 - j % 8);
    }
  }

  lemma {:induction false} ShrZero(k: nat)
    ensures Shr(0, k) == 0
  {
    if k > 0 {
      ShrZero(k - 1);
    }
  }

  lemma ZeroHasNothing(n: nat, index: nat)
    ensures !HasPiece(seq(n, _ => 0), index)
  {
    if index / 8 < n {
      ShrZero(7 - index % 8);
    }
  }

  lemma PaddingHasNothing(bitfield: Bytes, index: nat)
    ensures HasPiece(bitfield + [0], index) <==> HasPiece(bitfield, index)
  {
    if index / 8 == |bitfield| {
      ShrZero(7 - index % 8);
    }
  }

  lemma {:induction false} ShrDivides(n: nat, k: nat)
    ensures Shr(n, k) == n / Pow2(k)
  {
    if k > 0 {
      ShrDivides(n / 2, k - 1);
      DivideTwice(n, Pow2(k - 1));
    }
  }

  lemma DivideTwice(n: nat, d: nat)
    requires d > 0
    ensures n / 2 / d == n / (2 * d)
  {
    var q, r := n / 2 / d, n / 2 % d;
    assert n / 2 == q * d + r;
    assert n == q * (2 * d) + (2 * r + n % 2);
    DivideExact(q, 2 * r + n % 2, 2 * d);
  }

  /** The first piece of every eight is the highest bit of their byte. */
  lemma HighBitFirst(bitfield: Bytes, index: nat)
    ensures HasPiece(bitfield, index) <==>
      index / 8 < |bitfield| && bitfield[index / 8] / [128, 64, 32, 16, 8, 4, 2, 1][index % 8] % 2 == 1
  {
    if index / 8 < |bitfield| {
      ShrDivides(bitfield[index / 8], 7 - index % 8);
      PlacesOfBits();
    }
  }

  lemma PlacesOfBits()
    ensures Pow2(0) == 1 && Pow2(1) == 2 && Pow2(2) == 4 && Pow2(3) == 8
    ensures Pow2(4) == 16 && Pow2(5) == 32 && Pow2(6) == 64 && Pow2(7) == 128
  {
  }

  class PeerConnection {
    var bitfield: Bytes

    /** A Have message: this piece is there from now on, every other piece as before. */
    method SetPiece(index: nat)
      modifies this
      ensures forall j: nat :: HasPiece(bitfield, j) <==> j == index || HasPiece(old(bitfield), j)
      ensures |bitfield| == Max(|old(bitfield)|, index / 8 + 1)
    {
      hide HasPiece;
      while |bitfield| <= index / 8
        invariant forall j: nat :: HasPiece(bitfield, j) <==> HasPiece(old(bitfield), j)
        invariant |old(bitfield)| <= |bitfield| <= Max(|old(bitfield)|, index / 8 + 1)
        decreases index / 8 + 1 - |bitfield|
      {
        forall j: nat ensures HasPiece(bitfield + [0], j) <==> HasPiece(bitfield, j) {
          PaddingHasNothing(bitfield, j);
        }
        bitfield := bitfield + [0];
      }
      forall j: nat ensures HasPiece(WithPiece(bitfield, index), j) <==> j == index || HasPiece(bitfield, j) {
        WithPieceHas(bitfield, index, j);
      }
      bitfield := WithPiece(bitfield, index);
    }
  }

  /** A peer reading our bitfield sees exactly the pieces we have; the spare bits of the
      last byte are clear. */
  method HaveBitfield(have: seq<bool>) returns (bitfield: Bytes)
    ensures |bitfield| == (|have| + 7) / 8
    ensures forall j: nat :: HasPiece(bitfield, j) <==> j < |have| && have[j]
  {
    hide HasPiece;
    bitfield := seq((|have| + 7) / 8, _ => 0);
    forall j: nat ensures !HasPiece(bitfield, j) {
      ZeroHasNothing((|have| + 7) / 8, j);
    }
    for i := 0 to |have|
      invariant |bitfield| == (|have| + 7) / 8
      invariant forall j: nat :: HasPiece(bitfield, j) <==> j < i && have[j]
    {
      if have[i] {
        forall j: nat ensures HasPiece(WithPiece(bitfield, i), j) <==> j == i || HasPiece(bitfield, j) {
          WithPieceHas(bitfield, i, j);
        }
        bitfield := WithPiece(bitfield, i);
      }
    }
  }
}
