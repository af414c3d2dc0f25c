/** The token bucket behind the rate limiter of expensive calls: one credit a call, refilled
    steadily, never more than the hourly maximum. */
module RateLimit {
  /** Whole credits gained per second. */
  function Rate(max: nat): nat {
    max / 3600
  }

  /** What is refilled in `seconds` seconds. */
  function Gain(max: nat, seconds: real): real {
    seconds * Rate(max) as real
  }

  datatype Bucket = Bucket(credit: real, last: real)

  /** The credit on hand at a call, before it is charged. */
  function Refilled(max: nat, b: Bucket, now: real): real {
    var credit := b.credit + Gain(max, now - b.last);
    if credit > max as real then max as real else credit
  }

  predicate Admits(max: nat, b: Bucket, now: real) {
    Refilled(max, b, now) >= 1.0
  }

  function Called(max: nat, b: Bucket, now: real): Bucket {
    Bucket(Refilled(max, b, now) - if Admits(max, b, now) then 1.0 else 0.0, now)
  }

  /** The limiter wrapped around a function. */
  class RateLimiter {
    const max: nat
    var callsLeft: real
    var timeOfLastCall: real

    function View(): Bucket
      reads this
    {
      Bucket(callsLeft, timeOfLastCall)
    }

    constructor (max: nat, now: real)
      ensures this.max == max && View() == Bucket(max as real, now)
    {
      this.max, callsLeft, timeOfLastCall := max, max as real, now;
    }

    /** Charge a call, or refuse it. */
    method Call(now: real) returns (admitted: bool)
      modifies this
      ensures admitted == Admits(max, old(View()), now)
      ensures View() == Called(max, old(View()), now)
    {
      var secondsSinceLastCall := now - timeOfLastCall;
      timeOfLastCall := now;
      callsLeft := callsLeft + secondsSinceLastCall * (max / 3600) as real;
      if callsLeft > max as real {
        callsLeft := max as real;
      }
      if callsLeft < 1.0 {
        return false;
      }
      callsLeft := callsLeft - 1.0;
      admitted := true;
    }
  }

  // ---------------------------------------------------------------- histories of calls

  /** Calls are made one after another, none before the limiter was made. */
  ghost predicate InOrder(start: real, times: seq<real>) {
    && (times != [] ==> start <= times[0])
    && forall i, j :: 0 <= i < j < |times| ==> times[i] <= times[j]
  }

  function After(max: nat, start: real, times: seq<real>, n: nat): Bucket
    requires n <= |times|
  {
    if n == 0 then Bucket(max as real, start) else Called(max, After(max, start, times, n - 1), times[n - 1])
  }

  predicate Admitted(max: nat, start: real, times: seq<real>, i: nat)
    requires i < |times|
  {
    Admits(max, After(max, start, times, i), times[i])
  }

  /** How many of the calls from `i` up to `j` were admitted. */
  function Count(max: nat, start: real, times: seq<real>, i: nat, j: nat): nat
    requires i <= j <= |times|
  {
    if i == j then 0 else Count(max, start, times, i, j - 1) + if Admitted(max, start, times, j - 1) then 1 else 0
  }

  lemma FasterGains(rate: real, s: real, t: real)
    requires rate >= 0.0 && s <= t
    ensures s * rate <= t * rate
  {
    assert (t - s) * rate >= 0.0;
    assert t * rate == s * rate + (t - s) * rate;
  }

  lemma GainMonotone(max: nat, s: real, t: real)
    requires s <= t
    ensures Gain(max, s) <= Gain(max, t)
  {
    var rate := Rate(max) as real;
    FasterGains(rate, s, t);
    assert Gain(max, s) == s * rate && Gain(max, t) == t * rate;
  }

  lemma GainAdds(max: nat, s: real, t: real)
    ensures Gain(max, s) + Gain(max, t) == Gain(max, s + t) && Gain(max, 0.0) == 0.0
  {
  }

  lemma RefillBounds(max: nat, b: Bucket, now: real)
    requires 0.0 <= b.credit <= max as real && b.last <= now
    ensures b.credit <= Refilled(max, b, now) <= max as real
    ensures Refilled(max, b, now) <= b.credit + Gain(max, now - b.last)
  {
    GainMonotone(max, 0.0, now - b.last);
    GainAdds(max, 0.0, 0.0);
  }

  /** The credit always stays between nothing and the maximum. */
  lemma {:induction false} CreditBounded(max: nat, start: real, times: seq<real>, n: nat)
    requires InOrder(start, times) && n <= |times|
    ensures var b := After(max, start, times, n);
      0.0 <= b.credit <= max as real && b.last == if n == 0 then start else times[n - 1]
  {
    if n > 0 {
      CreditBounded(max, start, times, n - 1);
      RefillBounds(max, After(max, start, times, n - 1), times[n - 1]);
    }
  }

  /** What was admitted since a call, and what is left, is no more than the maximum and the refills
      after it. */
  lemma {:induction false} CreditBalance(max: nat, start: real, times: seq<real>, i: nat, j: nat)
    requires InOrder(start, times) && i < j <= |times|
    ensures Count(max, start, times, i, j) as real + After(max, start, times, j).credit
         <= max as real + Gain(max, times[j - 1] - times[i])
    decreases j
  {
    hide Gain, Refilled;
    var b := After(max, start, times, j - 1);
    CreditBounded(max, start, times, j - 1);
    RefillBounds(max, b, times[j - 1]);
    if i < j - 1 {
      CreditBalance(max, start, times, i, j - 1);
      GainAdds(max, times[j - 2] - times[i], times[j - 1] - times[j - 2]);
      assert times[j - 2] - times[i] + (times[j - 1] - times[j - 2]) == times[j - 1] - times[i];
    } else {
      GainAdds(max, 0.0, 0.0);
      assert Count(max, start, times, i, i) == 0;
    }
  }

  /** Of any calls, no more are admitted than the maximum and what is refilled between the first
      and the last of them. */
  lemma AdmittedAtMost(max: nat, start: real, times: seq<real>, i: nat, j: nat)
    requires InOrder(start, times) && i < j <= |times|
    ensures Count(max, start, times, i, j) as real <= max as real + Gain(max, times[j - 1] - times[i])
  {
    CreditBalance(max, start, times, i, j);
    CreditBounded(max, start, times, j);
  }

  lemma HourlyGain(max: nat)
    ensures Gain(max, 3600.0) == (Rate(max) * 3600) as real <= max as real
  {
  }

  /** So within an hour never more than twice the maximum. */
  lemma AdmittedInAnHour(max: nat, start: real, times: seq<real>, i: nat, j: nat)
    requires InOrder(start, times) && i < j <= |times| && times[j - 1] - times[i] <= 3600.0
    ensures Count(max, start, times, i, j) <= 2 * max
  {
    AdmittedAtMost(max, start, times, i, j);
    HourlyGain(max);
    GainMonotone(max, times[j - 1] - times[i], 3600.0);
    hide Gain;
    assert Count(max, start, times, i, j) as real <= (2 * max) as real;
  }

  // ---------------------------------------------------------------- the documented limit

  /** The limit the documentation states: at most `max` calls in any hour. */
  ghost predicate HourlyLimit(max: nat) {
    forall start, times, i, j ::
      InOrder(start, times) && 0 <= i < j <= |times| && times[j - 1] - times[i] <= 3600.0 ==>
        Count(max, start, times, i, j) <= max
  }

  /** A burst of `n` calls at one time. */
  function Burst(n: nat): seq<real> {
    seq(n, _ => 0.0)
  }

  lemma {:induction false} BurstAdmitted(max: nat, times: seq<real>, n: nat)
    requires n <= max && n <= |times| && forall i :: 0 <= i < n ==> times[i] == 0.0
    ensures After(max, 0.0, times, n) == Bucket((max - n) as real, 0.0) && Count(max, 0.0, times, 0, n) == n
  {
    if n > 0 {
      BurstAdmitted(max, times, n - 1);
    }
  }

  /** One more call, a second after a burst that took all credit, is admitted as soon as there
      is any refill. */
  lemma OneTooMany(max: nat)
    requires Rate(max) > 0
    ensures var times := Burst(max) + [1.0];
      InOrder(0.0, times) && Count(max, 0.0, times, 0, max + 1) == max + 1
  {
    var times := Burst(max) + [1.0];
    BurstAdmitted(max, times, max);
    assert Refilled(max, After(max, 0.0, times, max), 1.0) >= 1.0;
  }

  lemma NoGain(max: nat, seconds: real)
    requires max < 3600
    ensures Gain(max, seconds) == 0.0
  {
    var rate := Rate(max) as real;
    assert rate == 0.0 && Gain(max, seconds) == seconds * rate;
  }

  /** The documented limit holds for every history of calls exactly when the refill rate, which
      is rounded down, is nothing. */
  lemma HourlyLimitExactly(max: nat)
    ensures HourlyLimit(max) <==> max < 3600
  {
    if max >= 3600 {
      OneTooMany(max);
      var times := Burst(max) + [1.0];
      assert times[max] - times[0] <= 3600.0;
      assert Count(max, 0.0, times, 0, max + 1) > max;
    } else {
      forall start, times, i, j | InOrder(start, times) && 0 <= i < j <= |times| && times[j - 1] - times[i] <= 3600.0
        ensures Count(max, start, times, i, j) <= max
      {
        AdmittedAtMost(max, start, times, i, j);
        NoGain(max, times[j - 1] - times[i]);
      }
    }
  }

  lemma {:induction false} CreditOnlyFalls(max: nat, start: real, times: seq<real>, n: nat)
    requires InOrder(start, times) && max < 3600 && n <= |times|
    ensures After(max, start, times, n).credit == if n < max then (max - n) as real else 0.0
  {
    if n > 0 {
      CreditOnlyFalls(max, start, times, n - 1);
      var b := After(max, start, times, n - 1);
      NoGain(max, times[n - 1] - b.last);
    }
  }

  /** A maximum below 3600 is a maximum for good: the first `max` calls are admitted, whenever they
      come, and no call after them ever is. */
  lemma {:induction false} LifetimeLimit(max: nat, start: real, times: seq<real>, n: nat)
    requires InOrder(start, times) && max < 3600 && n <= |times|
    ensures forall i :: 0 <= i < n ==> (Admitted(max, start, times, i) <==> i < max)
    ensures Count(max, start, times, 0, n) == if n < max then n else max
  {
    if n > 0 {
      LifetimeLimit(max, start, times, n - 1);
      CreditOnlyFalls(max, start, times, n - 1);
      NoGain(max, times[n - 1] - After(max, start, times, n - 1).last);
    }
  }
}
