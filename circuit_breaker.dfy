/** The per-engine circuit breaker: a three-state machine (Closed, Open, HalfOpen)
    with a consecutive-failure counter, a failure threshold and a cooldown counted
    from the last recorded failure. The wall clock is an explicit `now` argument. */
module CircuitBreaker {
  import opened Wrappers
  import opened Models

  datatype BreakerState = Closed | Open | HalfOpen

  /** Time elapsed since `last`, as `Instant::elapsed` reports it (never negative). */
  function Elapsed(last: nat, now: nat): nat {
    if now >= last then now - last else 0
  }

  /** The breaker's fields as a value; the transition functions below specify
      the methods of the class `Breaker`. */
  datatype BreakerView = BreakerView(
    state: BreakerState,
    failures: u32,
    lastFailure: Option<nat>,
    threshold: u32,
    cooldown: nat)
  {
    /** What every reachable breaker satisfies: an Open or HalfOpen breaker has a
        recorded failure time, a Closed one is below its threshold (or has no
        failures), and the counter never exceeds max(threshold, 1). */
    ghost predicate Valid() {
      && (state != Closed ==> lastFailure.Some?)
      && (state == Closed ==> failures == 0 || failures < threshold)
      && failures <= (if threshold == 0 then 1 else threshold)
    }

    /** Whether `check` lets a request through at time `now`. */
    predicate Allows(now: nat) {
      match state
      case Closed => true
      case Open => lastFailure.Some? && Elapsed(lastFailure.value, now) >= cooldown
      case HalfOpen => false
    }

    /** The breaker after `check` at time `now`. */
    function AfterCheck(now: nat): BreakerView {
      if state == Open && Allows(now) then this.(state := HalfOpen) else this
    }

    /** The breaker after `report_success`. */
    function AfterSuccess(): BreakerView {
      match state
      case HalfOpen => this.(state := Closed, failures := 0, lastFailure := None)
      case Closed => this.(failures := 0)
      case Open => this
    }

    /** The breaker after `report_failure` at time `now`. The counter increment is
        checked against the u32 range: the invariant keeps it below the limit. */
    function AfterFailure(now: nat): (r: BreakerView)
      requires Valid()
      ensures r.Valid()
    {
      match state
      case Closed =>
        var f: u32 := failures + 1;
        if f >= threshold then this.(state := Open, failures := f, lastFailure := Some(now))
        else this.(failures := f)
      case HalfOpen => this.(state := Open, lastFailure := Some(now))
      case Open => this.(lastFailure := Some(now))
    }
  }

  /** A breaker as `CircuitBreaker::new` builds it. */
  function NewView(threshold: u32, cooldown: nat): (b: BreakerView)
    ensures b.Valid()
  {
    BreakerView(Closed, 0, None, threshold, cooldown)
  }

  class Breaker {
    var state: BreakerState
    var failures: u32
    var lastFailure: Option<nat>
    const threshold: u32
    const cooldown: nat

    function View(): BreakerView
      reads this
    {
      BreakerView(state, failures, lastFailure, threshold, cooldown)
    }

    ghost predicate Valid()
      reads this
    {
      View().Valid()
    }

    /** `CircuitBreaker::new`: Closed, no failures, no failure time recorded. */
    constructor (threshold: u32, cooldown: nat)
      ensures Valid()
      ensures state == Closed && failures == 0 && lastFailure == None
      ensures this.threshold == threshold && this.cooldown == cooldown
    {
      this.state := Closed;
      this.failures := 0;
      this.lastFailure := None;
      this.threshold := threshold;
      this.cooldown := cooldown;
    }

    /** `check`: whether a request may go out now, moving Open to HalfOpen once
        the cooldown since the last failure has elapsed. */
    method Check(now: nat) returns (allowed: bool)
      requires Valid()
      modifies this
      ensures Valid()
      ensures allowed == old(View()).Allows(now)
      ensures View() == old(View()).AfterCheck(now)
    {
      match state {
        case Closed =>
          allowed := true;
        case Open =>
          if lastFailure.Some? {
            var last := lastFailure.value;
            if Elapsed(last, now) >= cooldown {
              state := HalfOpen;
              return true;
            }
          }
          allowed := false;
        case HalfOpen =>
          allowed := false;
      }
    }

    /** `report_success`: HalfOpen closes and forgets its failures, Closed resets
        its counter, Open is left alone. */
    method ReportSuccess()
      requires Valid()
      modifies this
      ensures Valid()
      ensures View() == old(View()).AfterSuccess()
    {
      if state == HalfOpen {
        state := Closed;
        failures := 0;
        lastFailure := None;
      } else if state == Closed {
        failures := 0;
      }
    }

    /** `report_failure`: counts a failure in Closed and opens at the threshold;
        reopens from HalfOpen; refreshes the failure time while Open. */
    method ReportFailure(now: nat)
      requires Valid()
      modifies this
      ensures Valid()
      ensures View() == old(View()).AfterFailure(now)
    {
      match state {
        case Closed =>
          failures := failures + 1;
          if failures >= threshold {
            state := Open;
            lastFailure := Some(now);
          }
        case HalfOpen =>
          state := Open;
          lastFailure := Some(now);
        case Open =>
          lastFailure := Some(now);
      }
    }
  }

  /** Closed always lets requests through and `check` changes nothing. */
  lemma CheckClosed(b: BreakerView, now: nat)
    requires b.state == Closed
    ensures b.Allows(now) && b.AfterCheck(now) == b
  {
  }

  /** Open lets one request through, turning HalfOpen, exactly when a failure time
      is recorded and the cooldown has elapsed since it; otherwise it refuses and
      stays as it is. */
  lemma CheckOpen(b: BreakerView, now: nat)
    requires b.state == Open
    ensures b.Allows(now) <==> b.lastFailure.Some? && Elapsed(b.lastFailure.value, now) >= b.cooldown
    ensures b.Allows(now) ==> b.AfterCheck(now) == b.(state := HalfOpen)
    ensures !b.Allows(now) ==> b.AfterCheck(now) == b
  {
  }

  /** HalfOpen refuses every check and `check` leaves it unchanged, whatever the time. */
  lemma CheckHalfOpen(b: BreakerView, now: nat)
    requires b.state == HalfOpen
    ensures !b.Allows(now) && b.AfterCheck(now) == b
  {
  }

  /** In a valid breaker the refusal for a missing failure time is unreachable:
      an Open breaker refuses only while its cooldown is running. */
  lemma OpenRefusesOnlyDuringCooldown(b: BreakerView, now: nat)
    requires b.Valid() && b.state == Open
    ensures !b.Allows(now) <==> Elapsed(b.lastFailure.value, now) < b.cooldown
  {
  }

  /** HalfOpen refuses and stays HalfOpen, so after the one probe no further
      request passes until that probe is reported, however much time goes by. */
  lemma OneProbePerCooldown(b: BreakerView, now: nat, later: nat)
    requires b.Valid() && b.state == Open && b.Allows(now)
    ensures b.AfterCheck(now).state == HalfOpen
    ensures !b.AfterCheck(now).Allows(later)
    ensures b.AfterCheck(now).AfterCheck(later) == b.AfterCheck(now)
  {
  }

  /** `report_success`: HalfOpen goes to Closed with no failures and no failure
      time; Closed only resets the counter; Open is unchanged. */
  lemma SuccessTransitions(b: BreakerView)
    ensures b.state == HalfOpen ==> b.AfterSuccess() == b.(state := Closed, failures := 0, lastFailure := None)
    ensures b.state == Closed ==> b.AfterSuccess() == b.(failures := 0)
    ensures b.state == Open ==> b.AfterSuccess() == b
  {
  }

  /** `report_failure` in Closed counts one more failure and opens, recording
      `now`, exactly when the count reaches the threshold. */
  lemma FailureInClosed(b: BreakerView, now: nat)
    requires b.Valid() && b.state == Closed
    ensures b.AfterFailure(now).failures == b.failures + 1
    ensures b.AfterFailure(now).state == Open <==> b.failures + 1 >= b.threshold
    ensures b.AfterFailure(now).state == Open ==> b.AfterFailure(now).lastFailure == Some(now)
    ensures b.AfterFailure(now).state != Open ==> b.AfterFailure(now).lastFailure == b.lastFailure
  {
  }

  /** `report_failure` in HalfOpen reopens with a fresh failure time; in Open it
      only refreshes the failure time, extending the cooldown. */
  lemma FailureWhenNotClosed(b: BreakerView, now: nat)
    requires b.Valid() && b.state != Closed
    ensures b.AfterFailure(now) == b.(state := Open, lastFailure := Some(now))
  {
  }

  /** `n` consecutive failures reported at time `now`. */
  function FailTimes(b: BreakerView, n: nat, now: nat): (r: BreakerView)
    requires b.Valid()
    ensures r.Valid()
    ensures r.threshold == b.threshold && r.cooldown == b.cooldown
    decreases n
  {
    if n == 0 then b else FailTimes(b.AfterFailure(now), n - 1, now)
  }

  /** From a fresh Closed breaker, fewer than `threshold` failures keep it Closed
      with that many failures counted. */
  lemma {:induction false} FailuresBelowThreshold(b: BreakerView, n: nat, now: nat)
    requires b.Valid() && b.state == Closed && b.failures == 0
    requires n < b.threshold
    ensures FailTimes(b, n, now).state == Closed
    ensures FailTimes(b, n, now).failures == n
    ensures FailTimes(b, n, now).lastFailure == b.lastFailure
    decreases n
  {
    if n > 0 {
      FailuresBelowThreshold(b, n - 1, now);
      FailTimesStep(b, n - 1, now);
      FailureInClosed(FailTimes(b, n - 1, now), now);
    }
  }

  /** Failing `n + 1` times is failing `n` times and then once more. */
  lemma {:induction false} FailTimesStep(b: BreakerView, n: nat, now: nat)
    requires b.Valid()
    ensures FailTimes(b, n + 1, now) == FailTimes(b, n, now).AfterFailure(now)
    decreases n
  {
    if n > 0 {
      FailTimesStep(b.AfterFailure(now), n - 1, now);
    }
  }

  /** With threshold N >= 1, exactly N consecutive failures open a fresh breaker,
      with N failures counted and the time of the last one recorded. */
  lemma ThresholdFailuresOpen(b: BreakerView, now: nat)
    requires b.Valid() && b.state == Closed && b.failures == 0 && b.threshold >= 1
    ensures FailTimes(b, b.threshold, now).state == Open
    ensures FailTimes(b, b.threshold, now).failures == b.threshold
    ensures FailTimes(b, b.threshold, now).lastFailure == Some(now)
  {
    FailuresBelowThreshold(b, b.threshold - 1, now);
    FailTimesStep(b, b.threshold - 1, now);
    FailureInClosed(FailTimes(b, b.threshold - 1, now), now);
  }

  /** Every operation keeps the invariant: a breaker never leaves the valid states. */
  lemma ValidPreserved(b: BreakerView, now: nat)
    requires b.Valid()
    ensures b.AfterCheck(now).Valid()
    ensures b.AfterSuccess().Valid()
    ensures b.AfterFailure(now).Valid()
  {
  }

  /** The scenario of the breaker's own unit test: threshold 2, cooldown 100,
      with the two waits of 150 time units made explicit. */
  method UnitTestFlow()
  {
    var cb := new Breaker(2, 100);
    var ok := cb.Check(0);
    assert ok;
    cb.ReportSuccess();
    ok := cb.Check(0);
    assert ok;

    cb.ReportFailure(1);
    ok := cb.Check(1);
    assert ok && cb.state == Closed;

    cb.ReportFailure(2);
    assert cb.state == Open;
    ok := cb.Check(2);
    assert !ok;

    ok := cb.Check(152);
    assert ok && cb.state == HalfOpen;
    ok := cb.Check(152);
    assert !ok;

    cb.ReportSuccess();
    assert cb.state == Closed && cb.failures == 0;

    cb.ReportFailure(153);
    cb.ReportFailure(153);
    assert cb.state == Open;

    ok := cb.Check(303);
    assert ok;
    cb.ReportFailure(303);
    assert cb.state == Open;
    ok := cb.Check(303);
    assert !ok;
  }
}
