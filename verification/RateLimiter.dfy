/** The token bucket (src/types.rs, `RateLimiter`) over real-valued time in seconds. */
module RateLimiters {
  import opened Bytes

  const MIN_BURST: nat := 4 * 16384

  function Earned(rate: nat, elapsed: real): (bytes: real)
    ensures elapsed >= 0.0 ==> bytes >= 0.0
  {
    rate as real * elapsed
  }

  lemma EarnedAdds(rate: nat, a: real, b: real)
    ensures Earned(rate, a + b) == Earned(rate, a) + Earned(rate, b)
  {
  }

  /** The fields of a limiter. */
  datatype Bucket = Bucket(maxRate: nat, tokens: nat, fraction: real, lastRefill: real)
  {
    function Cap(): nat {
      Max(maxRate, MIN_BURST)
    }

    /** At a fixed positive rate. */
    predicate Ok() {
      maxRate > 0 && tokens <= Cap() && 0.0 <= fraction < 1.0
    }

    function Refilled(now: real): Bucket
      requires fraction >= 0.0
    {
      if now <= lastRefill then this
      else
        var earned := fraction + Earned(maxRate, now - lastRefill);
        var whole := earned.Floor as int;
        var b := this.(lastRefill := now, fraction := earned - whole as real);
        if whole > 0 then b.(tokens := Min(tokens + whole, Cap())) else b
    }

    function Grants(amount: nat, now: real): bool
      requires fraction >= 0.0
    {
      maxRate == 0 || Refilled(now).tokens >= amount
    }

    function Consumed(amount: nat, now: real): Bucket
      requires fraction >= 0.0
    {
      if maxRate == 0 then this
      else
        var b := Refilled(now);
        if b.tokens >= amount then b.(tokens := b.tokens - amount) else b
    }

    /** Tokens, the fraction of one, and what has been earned since the last refill. */
    function Worth(now: real): real {
      tokens as real + fraction + if now <= lastRefill then 0.0 else Earned(maxRate, now - lastRefill)
    }
  }

  class RateLimiter {
    var maxRate: nat
    var tokens: nat
    var fraction: real
    var lastRefill: real

    ghost predicate Valid()
      reads this
    {
      0.0 <= fraction < 1.0
    }

    function State(): Bucket
      reads this
    {
      Bucket(maxRate, tokens, fraction, lastRefill)
    }

    constructor (maxRate: nat, now: real)
      ensures Valid() && this.maxRate == maxRate
      ensures maxRate > 0 ==> State().Ok() && tokens == Max(maxRate, 65536) && fraction == 0.0 && lastRefill == now
    {
      this.maxRate := maxRate;
      this.tokens := if maxRate == 0 then 0xFFFF_FFFF_FFFF_FFFF else Max(maxRate, MIN_BURST);
      this.fraction := 0.0;
      this.lastRefill := now;
    }

    /** The tokens are kept, even above the cap of a lower rate, until the next refill. */
    method SetRate(rate: nat)
      requires Valid()
      modifies this`maxRate
      ensures Valid() && State() == old(State()).(maxRate := rate)
    {
      maxRate := rate;
    }

    method TryConsume(amount: nat, now: real) returns (granted: bool)
      requires Valid()
      modifies this
      ensures Valid()
      ensures State() == old(State()).Consumed(amount, now) && granted == old(State()).Grants(amount, now)
      ensures old(maxRate) == 0 ==> granted && State() == old(State())
    {
      if maxRate == 0 {
        return true;
      }
      Refill(now);
      if tokens >= amount {
        tokens := tokens - amount;
        return true;
      }
      return false;
    }

    method Refill(now: real)
      requires Valid()
      modifies this
      ensures Valid()
      ensures State() == old(State()).Refilled(now)
    {
      if now <= lastRefill {
        return;
      }
      var elapsed := now - lastRefill;
      lastRefill := now;
      fraction := fraction + Earned(maxRate, elapsed);
      var whole := fraction.Floor as int;
      fraction := fraction - whole as real;
      if whole > 0 {
        var cap := Max(maxRate, MIN_BURST);
        tokens := Min(tokens + whole, cap);
      }
    }
  }

  // ----- runs

  datatype Call = Call(amount: nat, time: real)

  /** The clock does not run backwards. */
  ghost predicate InOrder(calls: seq<Call>) {
    forall i, j :: 0 <= i < j < |calls| ==> calls[i].time <= calls[j].time
  }

  ghost function StateAfter(b: Bucket, calls: seq<Call>): Bucket
    requires b.Ok()
    ensures StateAfter(b, calls).Ok() && StateAfter(b, calls).maxRate == b.maxRate
  {
    if calls == [] then b
    else
      var n := |calls| - 1;
      var before := StateAfter(b, calls[..n]);
      RefilledOk(before, calls[n].time);
      before.Consumed(calls[n].amount, calls[n].time)
  }

  /** The bytes granted along the way. */
  ghost function Granted(b: Bucket, calls: seq<Call>): nat
    requires b.Ok()
  {
    if calls == [] then 0
    else
      var n := |calls| - 1;
      Granted(b, calls[..n])
      + if StateAfter(b, calls[..n]).Grants(calls[n].amount, calls[n].time) then calls[n].amount else 0
  }

  /** Tokens never exceed the cap, and the fraction stays below one. */
  lemma RefilledOk(b: Bucket, now: real)
    requires b.Ok()
    ensures b.Refilled(now).Ok() && b.Refilled(now).maxRate == b.maxRate
    ensures b.Refilled(now).lastRefill == if now <= b.lastRefill then b.lastRefill else now
  {
  }

  /** A refill makes nothing out of thin air, and loses something only at the cap. */
  lemma RefillWorth(b: Bucket, now: real)
    requires b.Ok()
    ensures b.Refilled(now).Worth(now) <= b.Worth(now)
    ensures b.Refilled(now).tokens == b.Cap() || b.Refilled(now).Worth(now) == b.Worth(now)
  {
    hide Earned;
    if now > b.lastRefill {
      var earned := b.fraction + Earned(b.maxRate, now - b.lastRefill);
      assert earned.Floor as real <= earned;
    }
  }

  lemma WorthGrows(b: Bucket, t1: real, t2: real)
    requires t1 <= t2
    ensures b.Worth(t2) <= b.Worth(t1) + Earned(b.maxRate, t2 - t1)
    ensures b.lastRefill <= t1 ==> b.Worth(t2) == b.Worth(t1) + Earned(b.maxRate, t2 - t1)
  {
    if b.lastRefill <= t1 {
      assert t2 - b.lastRefill == (t1 - b.lastRefill) + (t2 - t1);
      EarnedAdds(b.maxRate, t1 - b.lastRefill, t2 - t1);
    } else if b.lastRefill < t2 {
      assert t2 - t1 == (b.lastRefill - t1) + (t2 - b.lastRefill);
      EarnedAdds(b.maxRate, b.lastRefill - t1, t2 - b.lastRefill);
    }
  }

  /** Granting takes exactly the granted bytes out of the bucket. */
  lemma ConsumedWorth(b: Bucket, amount: nat, now: real)
    requires b.Ok()
    ensures b.Consumed(amount, now).Worth(now) + (if b.Grants(amount, now) then amount as real else 0.0)
      == b.Refilled(now).Worth(now)
  {
    hide Earned;
    RefilledOk(b, now);
  }

  /** After the first call the bucket holds less than the cap and one byte, whatever
      happened before; from then on it earns at the rate. */
  lemma {:induction false} WindowWorth(b: Bucket, calls: seq<Call>)
    requires b.Ok() && InOrder(calls) && calls != []
    ensures Granted(b, calls) as real + StateAfter(b, calls).Worth(calls[|calls| - 1].time)
      < b.Cap() as real + 1.0 + Earned(b.maxRate, calls[|calls| - 1].time - calls[0].time)
  {
    var n := |calls| - 1;
    var now := calls[n].time;
    var before := StateAfter(b, calls[..n]);
    ConsumedWorth(before, calls[n].amount, now);
    RefillWorth(before, now);
    if n == 0 {
      FullBucket(b, now);
    } else {
      var earlier := calls[n - 1].time;
      WindowWorth(b, calls[..n]);
      WorthGrows(before, earlier, now);
      assert now - calls[0].time == (earlier - calls[0].time) + (now - earlier);
      EarnedAdds(b.maxRate, earlier - calls[0].time, now - earlier);
    }
  }

  lemma FullBucket(b: Bucket, now: real)
    requires b.Ok()
    ensures b.Refilled(now).Worth(now) < b.Cap() as real + 1.0
  {
    hide Earned;
    RefilledOk(b, now);
  }

  /** At a fixed rate, whatever the history, the bytes granted in a window stay below the
      cap plus one byte plus what the window earns. */
  lemma WindowBound(b: Bucket, calls: seq<Call>)
    requires b.Ok() && InOrder(calls) && calls != []
    ensures Granted(b, calls) as real
      < Max(b.maxRate, 65536) as real + 1.0 + b.maxRate as real * (calls[|calls| - 1].time - calls[0].time)
  {
    hide Granted, StateAfter;
    WindowWorth(b, calls);
    var after := StateAfter(b, calls);
    assert after.Worth(calls[|calls| - 1].time) >= 0.0;
  }

  /** The limiter that was created `b` and has served `history` is in a state to which the
      window bound applies. */
  lemma AnyWindow(b: Bucket, history: seq<Call>, window: seq<Call>)
    requires b.Ok() && InOrder(window) && window != []
    ensures Granted(b, history + window) - Granted(b, history) == Granted(StateAfter(b, history), window)
    ensures (Granted(b, history + window) - Granted(b, history)) as real
      < Max(b.maxRate, 65536) as real + 1.0 + b.maxRate as real * (window[|window| - 1].time - window[0].time)
  {
    hide Granted, StateAfter;
    RunsCompose(b, history, window);
    WindowBound(StateAfter(b, history), window);
  }

  lemma {:induction false} RunsCompose(b: Bucket, first: seq<Call>, second: seq<Call>)
    requires b.Ok()
    ensures StateAfter(b, first + second) == StateAfter(StateAfter(b, first), second)
    ensures Granted(b, first + second) == Granted(b, first) + Granted(StateAfter(b, first), second)
    decreases |second|
  {
    if second == [] {
      assert first + second == first;
    } else {
      var n := |second| - 1;
      RunsCompose(b, first, second[..n]);
      assert (first + second)[..|first + second| - 1] == first + second[..n];
      assert (first + second)[|first + second| - 1] == second[n];
    }
  }

  /** A request within the tokens at hand is granted at once, and exactly its bytes are gone
      afterwards from what the refill left; one that is refused takes nothing. */
  lemma TakesWhatItGrants(b: Bucket, amount: nat, now: real)
    requires b.Ok()
    ensures amount <= b.tokens ==> b.Grants(amount, now)
    ensures var after := b.Consumed(amount, now);
      && after.fraction == b.Refilled(now).fraction && after.lastRefill == b.Refilled(now).lastRefill
      && after.tokens == b.Refilled(now).tokens - (if b.Grants(amount, now) then amount else 0)
      && (b.Grants(amount, now) <==> amount <= b.Refilled(now).tokens)
  {
    hide Earned;
    RefilledOk(b, now);
  }

  /** What a refill makes of the bucket: what was there and what the time since the last one
      has earned, whole bytes and the rest of one apart, and never more than the cap. */
  lemma RefillIs(b: Bucket, now: real) returns (whole: nat)
    requires b.Ok() && now > b.lastRefill
    ensures var r := b.Refilled(now);
      && r.maxRate == b.maxRate && r.lastRefill == now && 0.0 <= r.fraction < 1.0
      && whole as real + r.fraction == b.fraction + b.maxRate as real * (now - b.lastRefill)
      && r.tokens == Min(b.tokens + whole, Max(b.maxRate, 65536))
  {
    whole := (b.fraction + Earned(b.maxRate, now - b.lastRefill)).Floor as int;
  }

  // ----- waiting

  ghost predicate Denied(b: Bucket, calls: seq<Call>) {
    b.Ok() && forall k :: 0 <= k < |calls| ==> !StateAfter(b, calls[..k]).Grants(calls[k].amount, calls[k].time)
  }

  /** While nothing is granted, nothing is lost below the cap. */
  lemma {:induction false} DeniedWorth(b: Bucket, calls: seq<Call>, start: real, now: real)
    requires Denied(b, calls) && InOrder(calls) && b.lastRefill <= start
    requires forall k :: 0 <= k < |calls| ==> start <= calls[k].time <= now
    requires start <= now
    ensures var s := StateAfter(b, calls);
      s.lastRefill <= (if calls == [] then start else calls[|calls| - 1].time)
      && (s.tokens == b.Cap() || s.Worth(now) >= Earned(b.maxRate, now - start))
    decreases |calls|
  {
    hide Earned, Bucket.Refilled;
    if calls == [] {
      WorthGrows(b, start, now);
    } else {
      var n := |calls| - 1;
      var before, t := StateAfter(b, calls[..n]), calls[n].time;
      assert Denied(b, calls[..n]) by {
        forall k | 0 <= k < n ensures calls[..n][..k] == calls[..k] && calls[..n][k] == calls[k] {
        }
      }
      DeniedWorth(b, calls[..n], start, now);
      RefilledOk(before, t);
      RefillWorth(before, t);
      WorthGrows(before, t, now);
      WorthGrows(before.Refilled(t), t, now);
    }
  }

  /** A request of at most the cap succeeds once it has waited for its own bytes, however
      often it was refused before. */
  lemma EventuallyGranted(b: Bucket, refused: seq<Call>, start: real, amount: nat, now: real)
    requires Denied(b, refused) && InOrder(refused) && b.lastRefill <= start
    requires forall k :: 0 <= k < |refused| ==> start <= refused[k].time <= now
    requires amount <= Max(b.maxRate, 65536) && now >= start + amount as real / b.maxRate as real
    ensures StateAfter(b, refused).Grants(amount, now)
  {
    hide Earned, StateAfter, Bucket.Refilled;
    var s := StateAfter(b, refused);
    WaitedEnough(b.maxRate, amount, now - start);
    DeniedWorth(b, refused, start, now);
    RefilledOk(s, now);
    RefillWorth(s, now);
  }

  lemma WaitedEnough(rate: nat, amount: nat, waited: real)
    requires rate > 0 && waited >= amount as real / rate as real
    ensures waited >= 0.0 && Earned(rate, waited) >= amount as real
  {
    var share := amount as real / rate as real;
    assert share * rate as real == amount as real;
    assert (waited - share) * rate as real >= 0.0;
  }
}
