/**
 * The token bucket of httpserver/websocket_limits.go, in exact arithmetic. Times are nanoseconds. A caller
 * samples the clock before it takes the lock, so attempts reach the bucket in lock order but may carry
 * older samples than the ones before them.
 */
module TokenBucket {
  import opened Options

  // perNano is the rate per nanosecond.
  datatype Bucket = Bucket(perNano: real, burst: real, tokens: real, last: int) {
    predicate Valid() { perNano > 0.0 && 0.0 <= tokens <= burst }
  }

  datatype Attempt = Attempt(sampled: int, locked: int, count: nat)

  const MAX_INT64: int := 0x7FFF_FFFF_FFFF_FFFF

  function Min(a: real, b: real): real { if a < b then a else b }

  function Refilled(b: Bucket, now: int): Bucket {
    if now > b.last then b.(tokens := Min(b.burst, b.tokens + (now - b.last) as real * b.perNano), last := now) else b
  }

  predicate Grants(b: Bucket, a: Attempt) { Refilled(b, a.sampled).tokens >= a.count as real }

  function Step(b: Bucket, a: Attempt): Bucket {
    var r := Refilled(b, a.sampled);
    if Grants(b, a) then r.(tokens := r.tokens - a.count as real) else r
  }

  function After(b: Bucket, attempts: seq<Attempt>): Bucket
    decreases |attempts|
  {
    if attempts == [] then b else After(Step(b, attempts[0]), attempts[1..])
  }

  // The tokens granted to attempts that satisfy a condition.
  function Granted(b: Bucket, attempts: seq<Attempt>, counts: Attempt -> bool): real
    decreases |attempts|
  {
    if attempts == [] then 0.0
    else
      (if Grants(b, attempts[0]) && counts(attempts[0]) then attempts[0].count as real else 0.0)
      + Granted(Step(b, attempts[0]), attempts[1..], counts)
  }

  // Samples are taken before the lock, and locks are taken one after the other.
  ghost predicate InLockOrder(b: Bucket, attempts: seq<Attempt>) {
    && (forall i :: 0 <= i < |attempts| ==> attempts[i].sampled <= attempts[i].locked && b.last <= attempts[i].locked)
    && (forall i, j :: 0 <= i < j < |attempts| ==> attempts[i].locked <= attempts[j].locked)
  }

  // What flows in over a number of nanoseconds.
  function Inflow(perNano: real, nanos: int): real { Times(perNano, nanos as real) }

  function Times(p: real, x: real): real { p * x }

  lemma TimesGrows(p: real, x: real, y: real)
    requires p > 0.0
    ensures x < y ==> Times(p, x) < Times(p, y)
    ensures x <= y ==> Times(p, x) <= Times(p, y)
  {
    if x < y {
      assert p * (y - x) > 0.0;
    }
  }

  lemma TimesQuotient(p: real, x: real)
    requires p > 0.0
    ensures Times(p, x / p) == x
  {
  }

  lemma InflowAdds(p: real, x: int, y: int)
    ensures Inflow(p, x) + Inflow(p, y) == Inflow(p, x + y)
  {
  }

  lemma InflowGrows(p: real, x: int, y: int)
    requires p >= 0.0 && x <= y
    ensures Inflow(p, x) <= Inflow(p, y) && Inflow(p, 0) == 0.0
  {
    assert p * ((y - x) as real) >= 0.0;
    InflowAdds(p, x, y - x);
  }

  lemma StepValid(b: Bucket, a: Attempt)
    requires b.Valid()
    ensures Step(b, a).Valid() && Refilled(b, a.sampled).Valid()
    ensures Step(b, a).last == (if a.sampled > b.last then a.sampled else b.last) && Step(b, a).perNano == b.perNano
    ensures Step(b, a).burst == b.burst == Refilled(b, a.sampled).burst
    ensures Refilled(b, a.sampled).tokens <= b.tokens + Inflow(b.perNano, Step(b, a).last - b.last)
  {
    if a.sampled > b.last {
      InflowGrows(b.perNano, 0, a.sampled - b.last);
    }
  }

  /** The level stays between empty and full, whatever order the samples come in. */
  lemma {:induction false} LevelInRange(b: Bucket, attempts: seq<Attempt>)
    requires b.Valid()
    ensures After(b, attempts).Valid() && After(b, attempts).last >= b.last
    ensures After(b, attempts).burst == b.burst && After(b, attempts).perNano == b.perNano
    decreases |attempts|
  {
    if attempts != [] {
      hide Step;
      StepValid(b, attempts[0]);
      LevelInRange(Step(b, attempts[0]), attempts[1..]);
    }
  }

  // Inside a window: sampled not before its start, granted not after its end.
  function Inside(from: int, to: int): Attempt -> bool { (a: Attempt) => from <= a.sampled && a.locked <= to }

  lemma RestInOrder(b: Bucket, attempts: seq<Attempt>)
    requires b.Valid() && attempts != [] && InLockOrder(b, attempts)
    ensures InLockOrder(Step(b, attempts[0]), attempts[1..])
  {
    StepValid(b, attempts[0]);
  }

  lemma GrantedStep(b: Bucket, attempts: seq<Attempt>, counts: Attempt -> bool)
    ensures attempts == [] ==> Granted(b, attempts, counts) == 0.0
    ensures attempts != [] ==>
      Granted(b, attempts, counts) ==
      (if Grants(b, attempts[0]) && counts(attempts[0]) then attempts[0].count as real else 0.0)
      + Granted(Step(b, attempts[0]), attempts[1..], counts)
  {
  }

  // From a level reached inside the window: what is there plus what can still flow in.
  lemma {:induction false} FromLevel(b: Bucket, attempts: seq<Attempt>, from: int, to: int)
    requires b.Valid() && InLockOrder(b, attempts) && b.last <= to
    ensures Granted(b, attempts, Inside(from, to)) <= b.tokens + Inflow(b.perNano, to - b.last)
    decreases |attempts|
  {
    hide Step, Refilled, Granted, Inflow, Grants;
    InflowGrows(b.perNano, 0, to - b.last);
    GrantedStep(b, attempts, Inside(from, to));
    if attempts != [] {
      var a, rest := attempts[0], attempts[1..];
      var c := Step(b, a);
      StepValid(b, a);
      RestInOrder(b, attempts);
      if a.locked <= to {
        FromLevel(c, rest, from, to);
        StepTokens(b, a);
        InflowAdds(b.perNano, c.last - b.last, to - c.last);
      } else {
        NothingLate(c, rest, from, to);
      }
    }
  }

  lemma StepTokens(b: Bucket, a: Attempt)
    ensures Step(b, a).tokens == Refilled(b, a.sampled).tokens - (if Grants(b, a) then a.count as real else 0.0)
  {
  }

  lemma {:induction false} NothingLate(b: Bucket, attempts: seq<Attempt>, from: int, to: int)
    requires forall i :: 0 <= i < |attempts| ==> attempts[i].locked > to
    ensures Granted(b, attempts, Inside(from, to)) == 0.0
    decreases |attempts|
  {
    if attempts != [] {
      NothingLate(Step(b, attempts[0]), attempts[1..], from, to);
    }
  }

  /** Over any window, what is sampled and granted inside it is at most a burst plus what the rate allows
      for its length, however the callers interleave. */
  lemma {:induction false} WindowBound(b: Bucket, attempts: seq<Attempt>, from: int, to: int)
    requires b.Valid() && InLockOrder(b, attempts) && from <= to
    ensures Granted(b, attempts, Inside(from, to)) <= b.burst + Inflow(b.perNano, to - from)
    decreases |attempts|
  {
    hide Step, Refilled, Granted, Inflow, Grants;
    InflowGrows(b.perNano, 0, to - from);
    GrantedStep(b, attempts, Inside(from, to));
    if attempts != [] {
      var a, rest := attempts[0], attempts[1..];
      var c := Step(b, a);
      StepValid(b, a);
      RestInOrder(b, attempts);
      if from <= a.sampled && a.locked <= to {
        FromLevel(c, rest, from, to);
        StepTokens(b, a);
        InflowGrows(b.perNano, to - c.last, to - from);
      } else {
        WindowBound(c, rest, from, to);
      }
    }
  }

  // How long a sample may lie before its lock.
  ghost predicate LagAtMost(attempts: seq<Attempt>, lag: int) {
    forall i :: 0 <= i < |attempts| ==> attempts[i].locked - attempts[i].sampled <= lag
  }

  // Granted in a window, by the time of the grant alone.
  function GrantedIn(from: int, to: int): Attempt -> bool { (a: Attempt) => from <= a.locked <= to }

  lemma {:induction false} GrantedGrows(b: Bucket, attempts: seq<Attempt>, less: Attempt -> bool, more: Attempt -> bool)
    requires forall i :: 0 <= i < |attempts| && less(attempts[i]) ==> more(attempts[i])
    ensures Granted(b, attempts, less) <= Granted(b, attempts, more)
    decreases |attempts|
  {
    if attempts != [] {
      assert less(attempts[0]) ==> more(attempts[0]);
      GrantedGrows(Step(b, attempts[0]), attempts[1..], less, more);
    }
  }

  /** Over any window, the tokens granted in it are at most a burst plus what the rate allows for its
      length and for the longest time a sample lies before its lock. */
  lemma LaggedWindowBound(b: Bucket, attempts: seq<Attempt>, lag: int, from: int, to: int)
    requires b.Valid() && InLockOrder(b, attempts) && LagAtMost(attempts, lag) && lag >= 0 && from <= to
    ensures Granted(b, attempts, GrantedIn(from, to)) <= b.burst + Inflow(b.perNano, to - from + lag)
  {
    hide Inflow;
    WindowBound(b, attempts, from - lag, to);
    GrantedGrows(b, attempts, GrantedIn(from, to), Inside(from - lag, to));
  }

  // What a rate and a burst promise of every window.
  ghost predicate PlainBound(b: Bucket, attempts: seq<Attempt>, from: int, to: int) {
    Granted(b, attempts, GrantedIn(from, to)) <= b.burst + Inflow(b.perNano, to - from)
  }

  function Full(perNano: real, burst: nat): Bucket { Bucket(perNano, burst as real, burst as real, 0) }

  /** Any lag breaks that promise, at every rate and burst: a whole burst is taken with an old sample, so
      the clock stays behind, and the next caller is credited with the time in between. */
  lemma LagExceeds(perNano: real, burst: nat, lag: int) returns (attempts: seq<Attempt>, from: int, to: int)
    requires perNano > 0.0 && burst > 0 && lag > 0
    ensures InLockOrder(Full(perNano, burst), attempts) && LagAtMost(attempts, lag) && from <= to
    ensures !PlainBound(Full(perNano, burst), attempts, from, to)
  {
    hide Ceil, Inflow;
    var n := Ceil(1.0 / perNano);
    CeilBrackets(1.0, perNano);
    from, to := lag, if n > lag then n else lag;
    InflowGrows(perNano, n, to);
    InflowGrows(perNano, 0, if n > lag then n - 1 else 0);
    if n > lag { InflowGrows(perNano, n - lag, n - 1); }
    attempts := [Attempt(0, lag, burst), Attempt(to, to, 1)];
    ExceedingRun(perNano, burst, lag, to);
  }

  // A burst taken at `lag` on a sample of 0, and one more token as soon as one has flowed in since 0.
  lemma ExceedingRun(perNano: real, burst: nat, lag: int, to: int)
    requires perNano > 0.0 && burst > 0 && 0 < lag <= to && Inflow(perNano, to) >= 1.0
    ensures Granted(Full(perNano, burst), [Attempt(0, lag, burst), Attempt(to, to, 1)], GrantedIn(lag, to)) == (burst + 1) as real
  {
    var b, first, second := Full(perNano, burst), Attempt(0, lag, burst), Attempt(to, to, 1);
    var c := Step(b, first);
    assert c == Bucket(perNano, burst as real, 0.0, 0);
    assert Grants(c, second);
    assert [first, second][1..] == [second];
    GrantedStep(b, [first, second], GrantedIn(lag, to));
    GrantedStep(c, [second], GrantedIn(lag, to));
    GrantedStep(Step(c, second), [], GrantedIn(lag, to));
  }

  /** So the promise holds over all runs, exactly if samples do not lag behind their locks at all. */
  lemma PlainBoundIff(perNano: real, burst: nat, lag: int)
    requires perNano > 0.0 && burst > 0 && lag >= 0
    ensures (forall attempts: seq<Attempt>, from: int, to: int
               | InLockOrder(Full(perNano, burst), attempts) && LagAtMost(attempts, lag) && from <= to ::
               PlainBound(Full(perNano, burst), attempts, from, to))
            <==> lag == 0
  {
    hide Granted, Inflow;
    if lag == 0 {
      forall attempts: seq<Attempt>, from: int, to: int
        | InLockOrder(Full(perNano, burst), attempts) && LagAtMost(attempts, lag) && from <= to
        ensures PlainBound(Full(perNano, burst), attempts, from, to)
      {
        LaggedWindowBound(Full(perNano, burst), attempts, 0, from, to);
      }
    } else {
      var attempts, from, to := LagExceeds(perNano, burst, lag);
      assert !PlainBound(Full(perNano, burst), attempts, from, to);
    }
  }

  // ---- waiting ---------------------------------------------------------------------------

  function Ceil(x: real): int { if (x.Floor as real) == x then x.Floor else x.Floor + 1 }

  // The sleep the code computes when the tokens do not suffice, before it is capped.
  function Shortfall(b: Bucket, count: nat): int
    requires b.perNano > 0.0
  {
    Ceil((count as real - b.tokens) / b.perNano)
  }

  function Delay(b: Bucket, count: nat): int
    requires b.perNano > 0.0
  {
    var nanos := Shortfall(b, count);
    var delay := if nanos >= MAX_INT64 then MAX_INT64 else nanos;
    if delay <= 0 then 1 else delay
  }

  /** After sleeping exactly the computed delay a lone request is granted, if and only if the delay was not
      cut off at the longest duration there is. */
  lemma DelaySufficesIff(b: Bucket, count: nat)
    requires b.Valid() && b.tokens < count as real <= b.burst
    ensures Refilled(b, b.last + Delay(b, count)).tokens >= count as real <==> Shortfall(b, count) <= MAX_INT64
  {
    hide Ceil, Inflow;
    var missing := count as real - b.tokens;
    var n, d := Shortfall(b, count), Delay(b, count);
    CeilBrackets(missing, b.perNano);
    InflowGrows(b.perNano, 0, 0);
    if n <= 0 {
      InflowGrows(b.perNano, n, 0);
    }
    GainedBy(b, d);
    if n > MAX_INT64 {
      InflowGrows(b.perNano, d, n - 1);
    }
  }

  /** A rate so low that the delay is cut off: the sleep is the longest there is, and does not suffice. */
  lemma DelayCutOff()
    ensures var b := Bucket(1.0 / 10_000_000_000_000_000_000.0, 1.0, 0.0, 0);
            && b.Valid() && b.tokens < 1.0 <= b.burst && Shortfall(b, 1) > MAX_INT64 == Delay(b, 1)
            && Refilled(b, b.last + Delay(b, 1)).tokens < 1.0
  {
    var b := Bucket(1.0 / 10_000_000_000_000_000_000.0, 1.0, 0.0, 0);
    assert (1.0 - b.tokens) / b.perNano == 10_000_000_000_000_000_000.0;
    DelaySufficesIff(b, 1);
  }

  // The rounded-up wait is the least one that brings in what is missing.
  lemma CeilBrackets(missing: real, perNano: real)
    requires perNano > 0.0
    ensures var n := Ceil(missing / perNano); Inflow(perNano, n - 1) < missing <= Inflow(perNano, n)
  {
    hide Times;
    var need := missing / perNano;
    var n := Ceil(need);
    TimesQuotient(perNano, missing);
    TimesGrows(perNano, need, n as real);
    TimesGrows(perNano, (n - 1) as real, need);
  }

  lemma GainedBy(b: Bucket, nanos: int)
    requires nanos > 0
    ensures Refilled(b, b.last + nanos).tokens == Min(b.burst, b.tokens + Inflow(b.perNano, nanos))
  {
  }

  /** Sleeping longer does no harm. */
  lemma LongerSuffices(b: Bucket, count: nat, sooner: int, later: int)
    requires b.Valid() && count as real <= b.burst && sooner <= later
    requires Refilled(b, sooner).tokens >= count as real
    ensures Refilled(b, later).tokens >= count as real
  {
    if b.last < sooner {
      TimesGrows(b.perNano, (sooner - b.last) as real, (later - b.last) as real);
    } else if b.last < later {
      TimesGrows(b.perNano, 0.0, (later - b.last) as real);
    }
  }

  datatype WaitResult = Taken | TooLarge | Ended

  class Limiter {
    var bucket: Bucket
    const start: Bucket
    ghost var attempts: seq<Attempt>
    var clock: int

    // The bucket is what its attempts, in lock order, have made of it.
    ghost predicate Valid()
      reads this
    {
      && start.Valid() && bucket == After(start, attempts) && InLockOrder(start, attempts)
      && (forall i :: 0 <= i < |attempts| ==> attempts[i].locked <= clock) && start.last <= clock
    }

    constructor (perNano: real, burst: nat, now: int)
      requires perNano > 0.0
      ensures Valid() && bucket == Bucket(perNano, burst as real, burst as real, now) && attempts == []
    {
      start := Bucket(perNano, burst as real, burst as real, now);
      bucket := Bucket(perNano, burst as real, burst as real, now);
      attempts, clock := [], now;
    }

    // Time passes and other callers take their turns.
    method Interfere() returns (now: int)
      requires Valid()
      modifies this
      ensures Valid() && old(attempts) <= attempts && old(clock) <= clock == now
    {
      now := *;
      if now < clock {
        now := clock;
      }
      clock := now;
      var others: int := *;
      for i := 0 to if others < 0 then 0 else others
        invariant Valid() && old(attempts) <= attempts && clock == now
      {
        var sampled: int, count: nat := *, *;
        if sampled <= clock {
          var granted, delay := Locked(sampled, now, count);
        }
      }
    }

    // The critical section.
    method Locked(sampled: int, now: int, count: nat) returns (granted: bool, delay: int)
      requires Valid() && sampled <= clock == now
      modifies this
      ensures Valid() && clock == old(clock) && attempts == old(attempts) + [Attempt(sampled, clock, count)]
      ensures granted == Grants(old(bucket), Attempt(sampled, clock, count))
      ensures !granted ==> bucket.Valid() && delay == Delay(bucket, count) > 0
    {
      hide After, InLockOrder;
      ghost var a := Attempt(sampled, now, count);
      ghost var was := bucket;
      LevelInRange(start, attempts);
      StepValid(bucket, a);
      OneMore(start, attempts, a);
      StepTokens(bucket, a);
      if sampled > bucket.last {
        bucket := bucket.(tokens := Min(bucket.burst, bucket.tokens + (sampled - bucket.last) as real * bucket.perNano), last := sampled);
      }
      granted, delay := false, 0;
      if bucket.tokens >= count as real {
        bucket := bucket.(tokens := bucket.tokens - count as real);
        granted := true;
      } else {
        delay := Delay(bucket, count);
      }
      attempts := attempts + [a];
      assert bucket == Step(was, a);
    }

    /** Takes the tokens, sleeping as often as needed; how long is up to the caller's context. */
    method Wait(count: int) returns (r: WaitResult)
      requires Valid()
      modifies this
      ensures Valid() && old(attempts) <= attempts
      ensures r.TooLarge? <==> count < 0 || count as real > start.burst
      ensures (r.Taken? && count > 0) ==> |attempts| > |old(attempts)|
      ensures (r.Taken? && count > 0) ==>
        var last := |attempts| - 1;
        Grants(After(start, attempts[..last]), attempts[last]) && attempts[last].count == count
    {
      hide InLockOrder, Grants, Step, Refilled;
      LevelInRange(start, attempts);
      if count < 0 || count as real > bucket.burst {
        return TooLarge;
      }
      if count == 0 {
        return Taken;
      }
      var patience: nat := *;
      while patience > 0
        invariant Valid() && old(attempts) <= attempts
      {
        var sampled := Interfere();
        var now := Interfere();
        ghost var before := attempts;
        var granted, delay := Locked(sampled, now, count);
        if granted {
          assert attempts[..|attempts| - 1] == before;
          return Taken;
        }
        patience := patience - 1;
      }
      return Ended;
    }
  }

  lemma {:induction false} AfterOneMore(b: Bucket, attempts: seq<Attempt>, a: Attempt)
    ensures After(b, attempts + [a]) == Step(After(b, attempts), a)
    decreases |attempts|
  {
    hide Step;
    if attempts == [] {
      assert attempts + [a] == [a];
      assert After(b, [a]) == After(Step(b, a), [a][1..]);
    } else {
      assert (attempts + [a])[1..] == attempts[1..] + [a];
      AfterOneMore(Step(b, attempts[0]), attempts[1..], a);
    }
  }

  lemma OneMore(b: Bucket, attempts: seq<Attempt>, a: Attempt)
    requires InLockOrder(b, attempts) && a.sampled <= a.locked && b.last <= a.locked
    requires forall i :: 0 <= i < |attempts| ==> attempts[i].locked <= a.locked
    ensures InLockOrder(b, attempts + [a]) && After(b, attempts + [a]) == Step(After(b, attempts), a)
  {
    AfterOneMore(b, attempts, a);
  }
}
