/** 160-bit identifiers (src/types.rs): 20 bytes, compared byte by byte, read and
    written one bit at a time, measured by XOR. */
module InfoHashes {
  import opened Bytes

  type InfoHash = s: Bytes | |s| == 20 witness seq(20, _ => 0)

  /** `n >> k` */
  function Shr(n: nat, k: nat): nat {
    if k == 0 then n else Shr(n / 2, k - 1)
  }

  /** `n & (1 << k) > 0` */
  predicate BitOf(n: nat, k: nat) {
    Shr(n, k) % 2 == 1
  }

  /** `n | (1 << k)` when `value`, `n & !(1 << k)` otherwise. */
  function WithBit(n: nat, k: nat, value: bool): nat {
    if k == 0 then n - n % 2 + (if value then 1 else 0)
    else 2 * WithBit(n / 2, k - 1, value) + n % 2
  }

  function Xor(a: nat, b: nat): nat {
    if a == 0 then b
    else if b == 0 then a
    else 2 * Xor(a / 2, b / 2) + if a % 2 != b % 2 then 1 else 0
  }

  lemma {:induction false} WithBitBits(n: nat, k: nat, value: bool, j: nat)
    ensures BitOf(WithBit(n, k, value), j) == if j == k then value else BitOf(n, j)
  {
    if k > 0 && j > 0 {
      WithBitBits(n / 2, k - 1, value, j - 1);
      assert WithBit(n, k, value) / 2 == WithBit(n / 2, k - 1, value);
    } else if j > 0 {
      assert WithBit(n, k, value) / 2 == n / 2;
    }
  }

  lemma {:induction false} WithBitFits(n: nat, k: nat, value: bool, width: nat)
    requires n < Pow2(width) && k < width
    ensures WithBit(n, k, value) < Pow2(width)
  {
    assert Pow2(width) == 2 * Pow2(width - 1);
    assert n / 2 < Pow2(width - 1);
    if k > 0 {
      WithBitFits(n / 2, k - 1, value, width - 1);
      assert WithBit(n, k, value) <= 2 * WithBit(n / 2, k - 1, value) + 1;
    }
  }

  lemma {:induction false} XorFits(a: nat, b: nat, width: nat)
    requires a < Pow2(width) && b < Pow2(width)
    ensures Xor(a, b) < Pow2(width)
  {
    if a != 0 && b != 0 {
      XorFits(a / 2, b / 2, width - 1);
    }
  }

  lemma ByteWidth()
    ensures Pow2(8) == 256
  {
    assert Pow2(2) == 2 * Pow2(1);
    assert Pow2(4) == 2 * Pow2(3);
    assert Pow2(6) == 2 * Pow2(5);
  }

  function GetBit(h: InfoHash, bit: nat): bool
    requires bit < 160
  {
    BitOf(h[bit / 8], 7 - bit % 8)
  }

  function SetBit(h: InfoHash, bit: nat, value: bool): (r: InfoHash)
    requires bit < 160
    ensures GetBit(r, bit) == value
    ensures forall j :: 0 <= j < 160 && j != bit ==> GetBit(r, j) == GetBit(h, j)
  {
    ByteWidth();
    WithBitFits(h[bit / 8], 7 - bit % 8, value, 8);
    var r := h[bit / 8 := WithBit(h[bit / 8], 7 - bit % 8, value)];
    SetBitBits(h, bit, value, r);
    r
  }

  lemma SetBitBits(h: InfoHash, bit: nat, value: bool, r: InfoHash)
    requires bit < 160
    requires |r| == |h| && r[bit / 8] == WithBit(h[bit / 8], 7 - bit % 8, value)
    requires forall i :: 0 <= i < 20 && i != bit / 8 ==> r[i] == h[i]
    ensures forall j :: 0 <= j < 160 ==> GetBit(r, j) == if j == bit then value else GetBit(h, j)
  {
    forall j | 0 <= j < 160
      ensures GetBit(r, j) == if j == bit then value else GetBit(h, j)
    {
      if j / 8 == bit / 8 {
        WithBitBits(h[bit / 8], 7 - bit % 8, value, 7 - j % 8);
      }
    }
  }

  /** The derived ordering of a byte array: the first differing byte decides. */
  predicate LessFrom(a: InfoHash, b: InfoHash, j: nat)
    requires j <= 20
    decreases 20 - j
  {
    j < 20 && (a[j] < b[j] || (a[j] == b[j] && LessFrom(a, b, j + 1)))
  }

  predicate Less(a: InfoHash, b: InfoHash) {
    LessFrom(a, b, 0)
  }

  /** The number whose binary digits are the first `n` bits. */
  ghost function Prefix(h: InfoHash, n: nat): nat
    requires n <= 160
  {
    if n == 0 then 0 else 2 * Prefix(h, n - 1) + if GetBit(h, n - 1) then 1 else 0
  }

  ghost function Value(h: InfoHash): nat {
    Prefix(h, 8 * |h|)
  }

  lemma {:induction false} ShrStep(n: nat, k: nat)
    ensures Shr(n, k) == 2 * Shr(n, k + 1) + (if BitOf(n, k) then 1 else 0)
  {
    if k > 0 {
      ShrStep(n / 2, k - 1);
    }
  }

  lemma {:induction false} ShrByte(n: nat, width: nat)
    requires n < Pow2(width)
    ensures Shr(n, width) == 0
  {
    if width > 0 {
      ShrByte(n / 2, width - 1);
    }
  }

  lemma PrefixBit(h: InfoHash, j: nat, t: nat)
    requires j < 20 && t < 8
    ensures Prefix(h, 8 * j + t + 1) == 2 * Prefix(h, 8 * j + t) + if BitOf(h[j], 7 - t) then 1 else 0
  {
    assert (8 * j + t) / 8 == j && (8 * j + t) % 8 == t;
  }

  /** Inside byte `j`, the prefix grows by the leading bits of that byte. */
  lemma {:induction false} PrefixInByte(h: InfoHash, j: nat, t: nat, before: nat)
    requires j < 20 && t <= 8
    requires before == Prefix(h, 8 * j)
    ensures Prefix(h, 8 * j + t) == before * Pow2(t) + Shr(h[j], 8 - t)
  {
    if t == 0 {
      ByteWidth();
      ShrByte(h[j], 8);
      assert before * Pow2(0) == before;
    } else {
      PrefixInByte(h, j, t - 1, before);
      ShrStep(h[j], 8 - t);
      PrefixBit(h, j, t - 1);
      Doubling(before, t);
    }
  }

  lemma Doubling(x: nat, t: nat)
    requires t > 0
    ensures x * Pow2(t) == 2 * (x * Pow2(t - 1))
  {
    assert Pow2(t) == 2 * Pow2(t - 1);
  }

  lemma PrefixByte(h: InfoHash, j: nat)
    requires j < 20
    ensures Prefix(h, 8 * (j + 1)) == 256 * Prefix(h, 8 * j) + h[j]
  {
    hide Prefix;
    assert 8 * (j + 1) == 8 * j + 8;
    PrefixInByte(h, j, 8, Prefix(h, 8 * j));
    ByteWidth();
  }

  lemma {:induction false} PrefixLessStays(a: InfoHash, b: InfoHash, n: nat, m: nat)
    requires n <= m <= 160
    requires Prefix(a, n) < Prefix(b, n)
    ensures Prefix(a, m) < Prefix(b, m)
  {
    if n < m {
      PrefixLessStays(a, b, n, m - 1);
    }
  }

  lemma {:induction false} LessFromIsNumeric(a: InfoHash, b: InfoHash, j: nat)
    requires j <= 20
    requires Prefix(a, 8 * j) == Prefix(b, 8 * j)
    ensures LessFrom(a, b, j) <==> Value(a) < Value(b)
    decreases 20 - j
  {
    if j < 20 {
      PrefixByte(a, j);
      PrefixByte(b, j);
      if a[j] == b[j] {
        LessFromIsNumeric(a, b, j + 1);
      } else if a[j] < b[j] {
        PrefixLessStays(a, b, 8 * (j + 1), 8 * |a|);
      } else {
        PrefixLessStays(b, a, 8 * (j + 1), 8 * |a|);
      }
    }
  }

  /** Comparing the bytes left to right is comparing the 160-bit numbers. */
  lemma LessIsNumeric(a: InfoHash, b: InfoHash)
    ensures Less(a, b) <==> Value(a) < Value(b)
  {
    LessFromIsNumeric(a, b, 0);
  }

  lemma {:induction false} PrefixDeterminesBytes(a: InfoHash, b: InfoHash, j: nat)
    requires j <= 20
    requires Prefix(a, 8 * j) == Prefix(b, 8 * j)
    ensures a[..j] == b[..j]
  {
    if j > 0 {
      PrefixByte(a, j - 1);
      PrefixByte(b, j - 1);
      PrefixDeterminesBytes(a, b, j - 1);
      assert a[..j] == a[..j - 1] + [a[j - 1]];
      assert b[..j] == b[..j - 1] + [b[j - 1]];
    }
  }

  lemma ValueInjective(a: InfoHash, b: InfoHash)
    requires Value(a) == Value(b)
    ensures a == b
  {
    PrefixDeterminesBytes(a, b, 20);
    assert a[..20] == a && b[..20] == b;
  }

  lemma {:induction false} PrefixAgrees(a: InfoHash, b: InfoHash, n: nat)
    requires n <= 160
    ensures Prefix(a, n) == Prefix(b, n) <==> forall j :: 0 <= j < n ==> GetBit(a, j) == GetBit(b, j)
  {
    if n > 0 {
      PrefixAgrees(a, b, n - 1);
    }
  }

  function XorByte(a: byte, b: byte): (r: byte) {
    ByteWidth();
    XorFits(a, b, 8);
    Xor(a, b)
  }

  /** The distance of two ids: their bytes XOR-ed one by one. */
  function Distance(a: InfoHash, b: InfoHash): (r: InfoHash) {
    var r: seq<byte> := seq(20, i requires 0 <= i < 20 => XorByte(a[i], b[i]));
    r
  }

  lemma {:induction false} XorBits(a: nat, b: nat, k: nat)
    ensures BitOf(Xor(a, b), k) <==> BitOf(a, k) != BitOf(b, k)
  {
    if a == 0 || b == 0 {
      NoBits(k);
    } else if k > 0 {
      assert Xor(a, b) / 2 == Xor(a / 2, b / 2);
      XorBits(a / 2, b / 2, k - 1);
    }
  }

  lemma {:induction false} NoBits(k: nat)
    ensures !BitOf(0, k)
  {
    if k > 0 {
      NoBits(k - 1);
    }
  }

  /** A bit of the distance is set exactly where the two ids differ. */
  lemma DistanceBits(a: InfoHash, b: InfoHash, j: nat)
    requires j < 160
    ensures GetBit(Distance(a, b), j) <==> GetBit(a, j) != GetBit(b, j)
  {
    XorBits(a[j / 8], b[j / 8], 7 - j % 8);
  }

  /** The first bit in which two ids differ decides which is nearer: the one that has the
      target's. So an id that shares a longer prefix with the target is strictly nearer. */
  lemma FirstDifferenceDecides(target: InfoHash, a: InfoHash, b: InfoHash, n: nat)
    requires n < 160 && GetBit(a, n) != GetBit(b, n) && forall j :: 0 <= j < n ==> GetBit(a, j) == GetBit(b, j)
    ensures Less(Distance(target, a), Distance(target, b)) <==> GetBit(a, n) == GetBit(target, n)
  {
    hide GetBit, Distance, Less;
    var x, y := Distance(target, a), Distance(target, b);
    forall j | 0 <= j <= n
      ensures GetBit(x, j) <==> GetBit(target, j) != GetBit(a, j)
      ensures GetBit(y, j) <==> GetBit(target, j) != GetBit(b, j)
    {
      DistanceBits(target, a, j);
      DistanceBits(target, b, j);
    }
    LessIsNumeric(x, y);
    LessByFirstBit(x, y, n);
  }

  lemma LessByFirstBit(x: InfoHash, y: InfoHash, n: nat)
    requires n < 160 && GetBit(x, n) != GetBit(y, n) && forall j :: 0 <= j < n ==> GetBit(x, j) == GetBit(y, j)
    ensures Value(x) < Value(y) <==> !GetBit(x, n)
  {
    hide GetBit;
    PrefixAgrees(x, y, n);
    if GetBit(x, n) {
      PrefixLessStays(y, x, n + 1, 8 * |x|);
    } else {
      PrefixLessStays(x, y, n + 1, 8 * |x|);
    }
  }
}
