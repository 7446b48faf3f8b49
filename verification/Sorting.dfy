/** The stable sort of the standard library, as insertion behind equals. */
module Sorting {
  function InsertStable<T>(cs: seq<T>, c: T, before: (T, T) -> bool): seq<T> {
    if cs != [] && before(c, cs[|cs| - 1]) then InsertStable(cs[..|cs| - 1], c, before) + [cs[|cs| - 1]]
    else cs + [c]
  }

  function StableSort<T>(cs: seq<T>, before: (T, T) -> bool): seq<T> {
    if cs == [] then [] else InsertStable(StableSort(cs[..|cs| - 1], before), cs[|cs| - 1], before)
  }

  ghost predicate Sorted<T>(cs: seq<T>, sooner: (T, T) -> bool) {
    forall i, j :: 0 <= i < j < |cs| ==> sooner(cs[i], cs[j])
  }

  /** `sooner` decides by `before` and, where that is silent, by position. */
  ghost predicate BreaksTies<T(!new)>(before: (T, T) -> bool, sooner: (T, T) -> bool, position: T -> int) {
    && (forall a, b :: sooner(a, b) <==> before(a, b) || (!before(b, a) && position(a) < position(b)))
    && (forall a, b, c :: sooner(a, b) && sooner(b, c) ==> sooner(a, c))
  }

  lemma {:induction false} InsertStableSorts<T(!new)>(cs: seq<T>, c: T, before: (T, T) -> bool,
          sooner: (T, T) -> bool, position: T -> int)
    requires BreaksTies(before, sooner, position)
    requires Sorted(cs, sooner) && forall x :: x in cs ==> position(x) < position(c)
    ensures Sorted(InsertStable(cs, c, before), sooner)
    ensures forall x :: x in InsertStable(cs, c, before) <==> x == c || x in cs
    ensures |InsertStable(cs, c, before)| == |cs| + 1
  {
    if cs != [] {
      var rest, last := cs[..|cs| - 1], cs[|cs| - 1];
      assert cs == rest + [last];
      if before(c, last) {
        InsertStableSorts(rest, c, before, sooner, position);
        var r := InsertStable(rest, c, before);
        assert sooner(c, last);
        forall k | 0 <= k < |r| ensures sooner(r[k], last) {
          assert r[k] in r;
        }
      } else {
        forall k | 0 <= k < |cs| ensures sooner(cs[k], c) {
          assert last in cs && sooner(last, c);
          if k < |rest| {
            assert sooner(cs[k], last);
          }
        }
      }
    }
  }

  /** Sorting elements listed by position orders them, ties by position. */
  lemma {:induction false} StableSortSorts<T(!new)>(cs: seq<T>, before: (T, T) -> bool, sooner: (T, T) -> bool,
          position: T -> int)
    requires BreaksTies(before, sooner, position)
    requires forall i, j :: 0 <= i < j < |cs| ==> position(cs[i]) < position(cs[j])
    ensures Sorted(StableSort(cs, before), sooner)
    ensures forall x :: x in StableSort(cs, before) <==> x in cs
    ensures |StableSort(cs, before)| == |cs|
  {
    if cs != [] {
      var rest, last := cs[..|cs| - 1], cs[|cs| - 1];
      assert cs == rest + [last];
      StableSortSorts(rest, before, sooner, position);
      InsertStableSorts(StableSort(rest, before), last, before, sooner, position);
    }
  }

  // ----- filter and take

  /** `filter(keep).take(n)` */
  function TakeWhere<T>(cs: seq<T>, keep: T -> bool, n: nat): seq<T> {
    if cs == [] || n == 0 then []
    else if keep(cs[0]) then [cs[0]] + TakeWhere(cs[1..], keep, n - 1)
    else TakeWhere(cs[1..], keep, n)
  }

  /** `r` holds the first kept elements of `cs`: whatever was passed over although it is
      kept comes later than everything taken, of which there are then `n`. */
  ghost predicate FirstKept<T(!new)>(r: seq<T>, cs: seq<T>, keep: T -> bool, sooner: (T, T) -> bool, n: nat) {
    && |r| <= n && Sorted(r, sooner)
    && (forall c :: c in r ==> c in cs && keep(c))
    && (forall c :: c in cs && keep(c) && c !in r ==> |r| == n && forall x :: x in r ==> sooner(x, c))
  }

  lemma {:induction false} TakesFirstKept<T(!new)>(cs: seq<T>, keep: T -> bool, sooner: (T, T) -> bool, n: nat)
    requires Sorted(cs, sooner)
    ensures FirstKept(TakeWhere(cs, keep, n), cs, keep, sooner, n)
  {
    if cs != [] && n > 0 {
      var c := cs[0];
      assert cs == [c] + cs[1..];
      assert forall x :: x in cs[1..] ==> sooner(c, x);
      TakesFirstKept(cs[1..], keep, sooner, if keep(c) then n - 1 else n);
    }
  }
}
