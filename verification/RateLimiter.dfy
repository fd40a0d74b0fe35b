/**
 The rate limiter: GCRA in its virtual-scheduling form. Every acquire reads the clock and then
 atomically compares and advances a virtual time; between the two other acquires may come in, so
 the clock readings of a run are in no particular order.
 */
module RateLimiter {
  import opened Prelude

  const U64_SIZE := 0x1_0000_0000_0000_0000
  type U64 = x: int | 0 <= x < U64_SIZE

  const SEC: U64 := 1_000_000_000
  const UNLIMITED: U64 := 0
  const DISABLED: U64 := U64_SIZE - 1

  datatype RateLimit = Unlimited | Rps(rps: U64) | Custom(limit: U64, nanos: nat)

  function LimitOf(r: RateLimit): U64 {
    match r
    case Unlimited => 1
    case Rps(rps) => rps
    case Custom(limit, _) => limit
  }

  /** Durations of 584 years and more lose their upper bits. */
  function PeriodOf(r: RateLimit): U64 {
    match r
    case Unlimited => 1
    case Rps(_) => SEC
    case Custom(_, nanos) => nanos % U64_SIZE
  }

  function StepOf(limit: U64, period: U64): U64 {
    if limit == 0 then DISABLED
    else if limit >= period then UNLIMITED
    else
      QuotientIsBelow(period - 1, limit);
      (period - 1) / limit + 1
  }

  lemma QuotientIsBelow(n: nat, d: nat)
    requires d > 0
    ensures 0 <= n / d <= n
  {
    QuotientBounds(n, d);
    AtLeast(n / d, d);
  }

  lemma {:induction false} AtLeast(q: nat, d: nat)
    requires d > 0
    ensures q <= d * q
  {
    if d > 1 {
      AtLeast(q, d - 1);
      assert d * q == (d - 1) * q + q;
    }
  }

  /** A limit that restricts something without forbidding all. */
  predicate Finite(limit: U64, period: U64) {
    0 < limit < period && StepOf(limit, period) != DISABLED
  }

  lemma QuotientBounds(n: nat, d: nat)
    requires d > 0
    ensures 0 <= n / d && d * (n / d) <= n < d * (n / d) + d
  {
  }

  /** The step is the least one with which `limit` steps fill the period. */
  lemma StepIsLeast(limit: U64, period: U64)
    requires 0 < limit < period
    ensures var step := StepOf(limit, period); limit * step >= period && limit * (step - 1) < period && step >= 2
  {
    var q := (period - 1) / limit;
    QuotientBounds(period - 1, limit);
    assert limit * (q + 1) == limit * q + limit;
    assert limit * q > 0;
  }

  /** The marker values clash with a real step for one configuration only. */
  lemma DisabledIff(limit: U64, period: U64)
    ensures StepOf(limit, period) == DISABLED <==> limit == 0 || (limit == 1 && period == U64_SIZE - 1)
  {
    if 0 < limit < period {
      var q := (period - 1) / limit;
      QuotientBounds(period - 1, limit);
      if limit >= 2 {
        assert 2 * q <= limit * q;
      } else {
        assert limit * q == q;
      }
    }
  }

  // === Multiples of the step ===

  lemma OneMore(n: nat, step: nat)
    ensures (n + 1) * step == n * step + step && 0 * step == 0
  {
  }

  /** So many steps. */
  function Steps(k: nat, step: nat): nat {
    if k == 0 then 0 else Steps(k - 1, step) + step
  }

  lemma {:induction false} StepsIsProduct(k: nat, step: nat)
    ensures Steps(k, step) == k * step
  {
    if k > 0 {
      StepsIsProduct(k - 1, step);
      OneMore(k - 1, step);
    }
  }

  lemma {:induction false} StepsGrow(x: nat, y: nat, step: nat)
    requires x <= y
    ensures Steps(x, step) <= Steps(y, step)
    decreases y - x
  {
    if x < y { StepsGrow(x, y - 1, step); }
  }

  lemma {:induction false} StepsAdd(x: nat, y: nat, step: nat)
    ensures Steps(x + y, step) == Steps(x, step) + Steps(y, step)
    decreases y
  {
    if y > 0 { StepsAdd(x, y - 1, step); }
  }

  /** The largest number of steps that is not more than the room. */
  lemma StepsWithin(room: nat, step: nat) returns (k: nat)
    requires step > 0
    ensures Steps(k, step) <= room < Steps(k, step) + step
  {
    k := room / step;
    QuotientBounds(room, step);
    StepsIsProduct(k, step);
  }

  // === Acquiring ===

  /** The sum of two 64-bit numbers, with wrap-around. */
  function Sum(x: U64, y: U64): U64 {
    if x + y < U64_SIZE then x + y else x + y - U64_SIZE
  }

  /** One atomic update: whether the permit is given, and the virtual time after it. */
  function Acquired(step: U64, period: U64, vtime: U64, now: U64): (bool, U64) {
    if step == UNLIMITED then (true, vtime)
    else if step == DISABLED then (false, vtime)
    else if vtime < Sum(now, period) then (true, Sum(Max(vtime, now), step))
    else (false, vtime)
  }

  /** Virtual time after a run of acquires with these clock readings. */
  function VTime(step: U64, period: U64, start: U64, nows: seq<U64>): U64 {
    if nows == [] then start
    else Acquired(step, period, VTime(step, period, start, nows[..|nows| - 1]), nows[|nows| - 1]).1
  }

  /** Whether the k-th acquire of a run got its permit. */
  predicate Admits(step: U64, period: U64, start: U64, nows: seq<U64>, k: nat)
    requires k < |nows|
  {
    Acquired(step, period, VTime(step, period, start, nows[..k]), nows[k]).0
  }

  /** How many acquires with a reading in [a, b] got their permit. */
  function Admitted(step: U64, period: U64, start: U64, nows: seq<U64>, a: U64, b: U64): nat {
    if nows == [] then 0
    else
      var k := |nows| - 1;
      Admitted(step, period, start, nows[..k], a, b)
      + (if a <= nows[k] <= b && Admits(step, period, start, nows, k) then 1 else 0)
  }

  /** The clock stays so far from its end that no sum wraps around. */
  ghost predicate NoWrap(step: U64, period: U64, nows: seq<U64>) {
    forall k :: 0 <= k < |nows| ==> nows[k] + period + step <= U64_SIZE
  }

  lemma StepWithoutWrap(step: U64, period: U64, vtime: U64, now: U64)
    requires step != UNLIMITED && step != DISABLED && period > 0 && now + period + step <= U64_SIZE
    ensures Acquired(step, period, vtime, now) ==
            if vtime < now + period then (true, Max(vtime, now) + step) else (false, vtime)
  {
  }

  /** If the permit is given, then by comparing and advancing without wrapping around. */
  predicate Clean(step: U64, period: U64, vtime: U64, now: U64) {
    var (ok, after) := Acquired(step, period, vtime, now);
    ok ==> vtime < now + period && after == Max(vtime, now) + step
  }

  predicate CleanRun(step: U64, period: U64, start: U64, nows: seq<U64>) {
    nows == []
    || var k := |nows| - 1;
       CleanRun(step, period, start, nows[..k]) && Clean(step, period, VTime(step, period, start, nows[..k]), nows[k])
  }

  lemma {:induction false} NoWrapIsClean(step: U64, period: U64, start: U64, nows: seq<U64>)
    requires step != UNLIMITED && step != DISABLED && period > 0 && NoWrap(step, period, nows)
    ensures CleanRun(step, period, start, nows)
  {
    if nows != [] {
      var k := |nows| - 1;
      NoWrapIsClean(step, period, start, nows[..k]);
      StepWithoutWrap(step, period, VTime(step, period, start, nows[..k]), nows[k]);
    }
  }

  /** n permits for readings in [a, b] push the virtual time n steps past `a`, and not too far past `b`. */
  predicate InWindow(step: U64, period: U64, vtime: U64, a: U64, b: U64, n: nat) {
    n > 0 ==> a + Steps(n, step) <= vtime && a <= b && Steps(n - 1, step) < (b - a) + period
  }

  lemma StaysInWindow(step: U64, period: U64, vtime: U64, now: U64, a: U64, b: U64, n: nat)
    requires period > 0 && Clean(step, period, vtime, now) && InWindow(step, period, vtime, a, b, n)
    requires step != UNLIMITED && step != DISABLED
    ensures var (ok, after) := Acquired(step, period, vtime, now);
            InWindow(step, period, after, a, b, if ok && a <= now <= b then n + 1 else n)
  {
  }

  lemma {:induction false} WindowSteps(step: U64, period: U64, start: U64, nows: seq<U64>, a: U64, b: U64)
    requires step != UNLIMITED && step != DISABLED && period > 0 && CleanRun(step, period, start, nows)
    ensures InWindow(step, period, VTime(step, period, start, nows), a, b, Admitted(step, period, start, nows, a, b))
  {
    if nows != [] {
      var k := |nows| - 1;
      WindowSteps(step, period, start, nows[..k], a, b);
      StaysInWindow(step, period, VTime(step, period, start, nows[..k]), nows[k], a, b,
                    Admitted(step, period, start, nows[..k], a, b));
    }
  }

  lemma WindowBound(step: U64, period: U64, start: U64, nows: seq<U64>, a: U64, b: U64)
    requires step != UNLIMITED && step != DISABLED && period > 0 && CleanRun(step, period, start, nows) && a <= b
    ensures (Admitted(step, period, start, nows, a, b) - 1) * step < (b - a) + period
  {
    var n: int := Admitted(step, period, start, nows, a, b);
    WindowSteps(step, period, start, nows, a, b);
    if n > 0 {
      StepsIsProduct(n - 1, step);
    } else {
      NoSteps(step);
    }
  }

  lemma NoSteps(step: int)
    ensures (0 - 1) * step == -step
  {
  }

  /**
   For a finite limit, whatever the virtual time at the start, however many acquires run and in
   whatever order they read the clock: those with a reading in [a, b] get N permits with
   (N - 1) * step < (b - a) + period.
   */
  lemma RateBound(limit: U64, period: U64, start: U64, nows: seq<U64>, a: U64, b: U64)
    requires Finite(limit, period) && NoWrap(StepOf(limit, period), period, nows) && a <= b
    ensures var step := StepOf(limit, period);
            (Admitted(step, period, start, nows, a, b) - 1) * step < (b - a) + period
  {
    var step := StepOf(limit, period);
    StepIsLeast(limit, period);
    NoWrapIsClean(step, period, start, nows);
    WindowBound(step, period, start, nows, a, b);
  }

  /** In particular, at most `limit` permits for readings of one instant. */
  lemma InstantBound(limit: U64, period: U64, start: U64, nows: seq<U64>, a: U64)
    requires Finite(limit, period) && NoWrap(StepOf(limit, period), period, nows)
    ensures Admitted(StepOf(limit, period), period, start, nows, a, a) <= limit
  {
    var step := StepOf(limit, period);
    var n: int := Admitted(step, period, start, nows, a, a);
    RateBound(limit, period, start, nows, a, a);
    StepIsLeast(limit, period);
    FewerSteps(n - 1, limit, step);
  }

  lemma FewerSteps(x: int, y: int, step: int)
    requires step > 0 && x * step < y * step
    ensures x < y
  {
    assert (y - x) * step > 0;
  }

  // === How much is given ===

  /** The largest burst: how many steps begin within the period. */
  function Burst(limit: U64, period: U64): nat
    requires Finite(limit, period)
  {
    StepIsLeast(limit, period);
    (period - 1) / StepOf(limit, period) + 1
  }

  lemma BelowBurst(limit: U64, period: U64, j: nat)
    requires Finite(limit, period)
    ensures j < Burst(limit, period) <==> j * StepOf(limit, period) < period
  {
    var step := StepOf(limit, period);
    StepIsLeast(limit, period);
    var q := (period - 1) / step;
    QuotientBounds(period - 1, step);
    if j <= q { MoreSteps(j, q, step); } else { MoreSteps(q + 1, j, step); }
    OneMore(q, step);
  }

  lemma {:induction false} MoreSteps(x: nat, y: nat, step: nat)
    requires x <= y
    ensures x * step <= y * step
    decreases y - x
  {
    if x < y {
      MoreSteps(x, y - 1, step);
      OneMore(y - 1, step);
    }
  }

  lemma WithinBurst(j: int, burst: int, step: int, period: int)
    requires step > 0 && 0 <= j <= burst && 0 < burst && (burst - 1) * step < period <= burst * step
    ensures j * step < period <==> j < burst
    ensures (j + 1) * step == j * step + step && period > 0
  {
    assert 0 <= (burst - 1) * step;
    if j < burst { assert j * step + (burst - 1 - j) * step == (burst - 1) * step; }
  }

  /** The virtual time after k acquires at one instant. */
  function BurstTime(step: U64, burst: nat, start: U64, now: U64, k: nat): int {
    if k == 0 then start else now + Min(k, burst) * step
  }

  lemma BurstStep(step: U64, period: U64, burst: nat, start: U64, now: U64, k: nat, vtime: U64)
    requires step != UNLIMITED && step != DISABLED && now + period + step <= U64_SIZE && start <= now
    requires burst > 0 && (burst - 1) * step < period <= burst * step && vtime == BurstTime(step, burst, start, now, k)
    ensures Acquired(step, period, vtime, now).0 <==> k < burst
    ensures Acquired(step, period, vtime, now).1 == BurstTime(step, burst, start, now, k + 1)
  {
    WithinBurst(Min(k, burst), burst, step, period);
    StepWithoutWrap(step, period, vtime, now);
    if k == 0 {
      assert 1 * step == step;
    } else if k < burst {
      assert vtime == now + k * step >= now;
    }
  }

  lemma {:induction false} BurstOf(step: U64, period: U64, burst: nat, start: U64, now: U64, nows: seq<U64>)
    requires step != UNLIMITED && step != DISABLED && now + period + step <= U64_SIZE && start <= now
    requires burst > 0 && (burst - 1) * step < period <= burst * step
    requires forall k :: 0 <= k < |nows| ==> nows[k] == now
    ensures Admitted(step, period, start, nows, now, now) == Min(|nows|, burst)
    ensures VTime(step, period, start, nows) == BurstTime(step, burst, start, now, |nows|)
  {
    if nows != [] {
      var k := |nows| - 1;
      BurstOf(step, period, burst, start, now, nows[..k]);
      BurstStep(step, period, burst, start, now, k, VTime(step, period, start, nows[..k]));
    }
  }

  /** m acquires at one instant on an idle limiter get exactly as many permits as the burst allows. */
  lemma BurstIsExact(limit: U64, period: U64, start: U64, now: U64, m: nat)
    requires Finite(limit, period) && now + period + StepOf(limit, period) <= U64_SIZE && start <= now
    ensures Admitted(StepOf(limit, period), period, start, seq(m, _ => now), now, now) == Min(m, Burst(limit, period))
  {
    StepIsLeast(limit, period);
    BelowBurst(limit, period, Burst(limit, period) - 1);
    BelowBurst(limit, period, Burst(limit, period));
    BurstOf(StepOf(limit, period), period, Burst(limit, period), start, now, seq(m, _ => now));
  }

  /** The whole limit is given at once exactly when the rounding of the step leaves room for it. */
  lemma FullBurstIff(limit: U64, period: U64)
    requires Finite(limit, period)
    ensures Burst(limit, period) <= limit
    ensures Burst(limit, period) == limit <==> (limit - 1) * StepOf(limit, period) < period
  {
    StepIsLeast(limit, period);
    BelowBurst(limit, period, limit);
    BelowBurst(limit, period, limit - 1);
  }

  /** 4 permits per 6 ns: only 3 are given at once. */
  lemma ShortBurst()
    ensures Finite(4, 6) && Burst(4, 6) == 3
  {
  }

  // === Exactly how late the clock may be ===

  predicate BoundHolds(step: U64, period: U64, start: U64, nows: seq<U64>, a: U64, b: U64) {
    (Admitted(step, period, start, nows, a, b) - 1) * step < (b - a) + period
  }

  ghost predicate NotAfter(nows: seq<U64>, latest: U64) {
    forall k :: 0 <= k < |nows| ==> nows[k] <= latest
  }

  /** The bound holds in every run of a new limiter whose clock readings are not after `latest`. */
  ghost predicate BoundedUntil(limit: U64, period: U64, latest: U64) {
    forall nows: seq<U64>, a: U64, b: U64 ::
      a <= b && NotAfter(nows, latest) ==> BoundHolds(StepOf(limit, period), period, 0, nows, a, b)
  }

  /** One acquire with a deadline that does not wrap around. */
  lemma SoundAcquire(step: U64, period: U64, vtime: U64, now: U64)
    requires 0 < step != DISABLED && now + period < U64_SIZE
    ensures var (ok, after), next := Acquired(step, period, vtime, now), Max(vtime, now) + step;
            (ok <==> vtime < now + period)
            && after == (if !ok then vtime else if next < U64_SIZE then next else next - U64_SIZE)
  {
  }

  /** The last reading whose deadline does not wrap around. */
  function LastSound(period: U64, latest: U64): U64
    requires period > 0
  {
    Min(latest, U64_SIZE - 1 - period)
  }

  /**
   Whether some run of a new limiter brings the virtual time around. It gets to any place before
   the last deadline, and goes around from there if that is less than a step before the end; or it
   goes around already within a burst. The longest possible period is a case of its own: the reading
   1 has the deadline 0, and the reading 2 starts the clock off the grid of the steps.
   */
  predicate CanWrap(limit: U64, period: U64, latest: U64)
    requires Finite(limit, period)
  {
    var step, burst, last := StepOf(limit, period), Burst(limit, period), LastSound(period, latest);
    || GetsAround(step, period, burst * step, burst, last)
    || (period == U64_SIZE - 1 && burst * step == period && latest >= 2)
  }

  predicate GetsAround(step: U64, period: U64, full: nat, burst: nat, last: U64) {
    (last + period + step > U64_SIZE && full < last + period) || (burst >= 2 && full + last >= U64_SIZE)
  }

  lemma BurstBounds(limit: U64, period: U64)
    requires Finite(limit, period)
    ensures var step, burst := StepOf(limit, period), Burst(limit, period);
            && 2 <= step <= period && step != DISABLED && 1 <= burst
            && burst * step == Steps(burst, step) == Steps(burst - 1, step) + step
            && period <= Steps(burst, step) < period + step
  {
    var step, burst := StepOf(limit, period), Burst(limit, period);
    StepIsLeast(limit, period);
    BelowBurst(limit, period, burst);
    BelowBurst(limit, period, burst - 1);
    BelowBurst(limit, period, 0);
    QuotientIsBelow(period - 1, limit);
    StepsIsProduct(burst, step);
    StepsIsProduct(burst - 1, step);
  }

  // --- If the virtual time cannot go around ---

  /** Past the last sound reading, it can, except for the longest period and the reading 1. */
  lemma LateReadingsWrap(limit: U64, period: U64, latest: U64)
    requires Finite(limit, period) && latest > LastSound(period, latest) && !CanWrap(limit, period, latest)
    ensures period == U64_SIZE - 1 && latest == 1
  {
    BurstBounds(limit, period);
  }

  /** A virtual time that is some steps after a sound reading is not taken around. */
  lemma SoundStep(limit: U64, period: U64, latest: U64, t: nat, k: nat, vtime: U64, now: U64)
    requires Finite(limit, period) && !CanWrap(limit, period, latest) && now <= LastSound(period, latest)
    requires t <= LastSound(period, latest) && vtime == t + Steps(k, StepOf(limit, period)) && (k == 0 ==> t == 0)
    ensures Clean(StepOf(limit, period), period, vtime, now)
  {
    var step, burst := StepOf(limit, period), Burst(limit, period);
    BurstBounds(limit, period);
    SoundAcquire(step, period, vtime, now);
    if k >= burst {
      StepsGrow(burst, k, step);
    } else {
      StepsGrow(k + 1, burst, step);
    }
  }

  /** One acquire keeps the virtual time some steps after a sound reading. */
  lemma StaysOnGridOnce(limit: U64, period: U64, latest: U64, t: nat, k: nat, vtime: U64, now: U64) returns (t': nat, k': nat)
    requires Finite(limit, period) && !CanWrap(limit, period, latest) && now <= latest
    requires t <= LastSound(period, latest) && vtime == t + Steps(k, StepOf(limit, period)) && (k == 0 ==> t == 0)
    ensures Clean(StepOf(limit, period), period, vtime, now)
    ensures t' <= LastSound(period, latest) && (k' == 0 ==> t' == 0)
    ensures Acquired(StepOf(limit, period), period, vtime, now).1 == t' + Steps(k', StepOf(limit, period))
  {
    var step := StepOf(limit, period);
    BurstBounds(limit, period);
    t', k' := t, k;
    if now <= LastSound(period, latest) {
      SoundStep(limit, period, latest, t, k, vtime, now);
      if Acquired(step, period, vtime, now).0 {
        t', k' := if vtime < now then now else t, if vtime < now then 1 else k + 1;
        assert Steps(1, step) == step;
      }
    } else {
      LateReadingsWrap(limit, period, latest);
    }
  }

  /** In such runs the virtual time always is some steps after a sound reading. */
  lemma {:induction false} StaysOnGrid(limit: U64, period: U64, latest: U64, nows: seq<U64>) returns (t: nat, k: nat)
    requires Finite(limit, period) && !CanWrap(limit, period, latest) && NotAfter(nows, latest)
    ensures CleanRun(StepOf(limit, period), period, 0, nows)
    ensures t <= LastSound(period, latest) && (k == 0 ==> t == 0)
    ensures VTime(StepOf(limit, period), period, 0, nows) == t + Steps(k, StepOf(limit, period))
  {
    var step := StepOf(limit, period);
    if nows == [] {
      t, k := 0, 0;
    } else {
      var m := |nows| - 1;
      t, k := StaysOnGrid(limit, period, latest, nows[..m]);
      t, k := StaysOnGridOnce(limit, period, latest, t, k, VTime(step, period, 0, nows[..m]), nows[m]);
    }
  }

  // --- If it can ---

  lemma OneMoreAdmitted(step: U64, period: U64, nows: seq<U64>, now: U64, a: U64, b: U64)
    requires a <= now <= b && Acquired(step, period, VTime(step, period, 0, nows), now).0
    ensures Admitted(step, period, 0, nows + [now], a, b) == Admitted(step, period, 0, nows, a, b) + 1
    ensures VTime(step, period, 0, nows + [now]) == Acquired(step, period, VTime(step, period, 0, nows), now).1
  {
    assert (nows + [now])[..|nows|] == nows;
  }

  /** From any reading on, the virtual time can be taken up step by step with a permit for each. */
  lemma {:induction false} ClimbUp(step: U64, period: U64, t: U64, last: U64, k: nat) returns (nows: seq<U64>)
    requires 0 < step != DISABLED && t <= last && last + period < U64_SIZE && period > 0
    requires t + Steps(k, step) < U64_SIZE && t + Steps(k, step) < last + period + step
    ensures NotAfter(nows, last) && Admitted(step, period, 0, nows, t, last) == k
    ensures VTime(step, period, 0, nows) == if k == 0 then 0 else t + Steps(k, step)
  {
    if k == 0 {
      nows := [];
    } else {
      var before := ClimbUp(step, period, t, last, k - 1);
      var now: U64 := if k == 1 then t else Min(t + Steps(k - 1, step), last);
      SoundAcquire(step, period, VTime(step, period, 0, before), now);
      OneMoreAdmitted(step, period, before, now, t, last);
      nows := before + [now];
    }
  }

  /** Further permits at one reading, wherever the virtual time is; going around only helps. */
  lemma {:induction false} KeepGoing(step: U64, period: U64, before: seq<U64>, a: U64, last: U64, m: nat) returns (nows: seq<U64>)
    requires 0 < step != DISABLED && a <= last && last + period < U64_SIZE
    requires m > 0 ==> Max(VTime(step, period, 0, before), last) + Steps(m - 1, step) < last + period
    ensures Admitted(step, period, 0, nows, a, last) == Admitted(step, period, 0, before, a, last) + m
    ensures forall latest: U64 :: NotAfter(before, latest) && last <= latest ==> NotAfter(nows, latest)
    ensures VTime(step, period, 0, nows) <= Max(VTime(step, period, 0, before), last) + Steps(m, step)
    ensures VTime(step, period, 0, before) >= last && VTime(step, period, 0, before) + Steps(m, step) < U64_SIZE ==>
              VTime(step, period, 0, nows) == VTime(step, period, 0, before) + Steps(m, step)
    decreases m
  {
    if m == 0 {
      nows := before;
    } else {
      var most := KeepGoing(step, period, before, a, last, m - 1);
      SoundAcquire(step, period, VTime(step, period, 0, most), last);
      OneMoreAdmitted(step, period, most, last, a, last);
      nows := most + [last];
    }
  }

  /** From a grid point less than a step from the end, one more permit takes the virtual time around. */
  lemma GetAround(step: U64, period: U64, last: U64, t: U64, k: nat) returns (around: seq<U64>)
    requires 0 < step <= period && step != DISABLED && last + period < U64_SIZE && t <= last && k > 0
    requires U64_SIZE - step <= t + Steps(k, step) < last + period
    ensures NotAfter(around, last) && Admitted(step, period, 0, around, t, last) == k + 1
    ensures VTime(step, period, 0, around) == t + Steps(k, step) + step - U64_SIZE
  {
    var up := ClimbUp(step, period, t, last, k);
    SoundAcquire(step, period, t + Steps(k, step), last);
    OneMoreAdmitted(step, period, up, last, t, last);
    around := up + [last];
  }

  /** Where a grid point before the last deadline is less than a step from the end, too many permits can be had. */
  lemma GoesAround(step: U64, period: U64, last: U64, t: U64, k: nat) returns (nows: seq<U64>)
    requires 0 < step <= period && step != DISABLED && last + period < U64_SIZE && t <= last && k > 0
    requires U64_SIZE - step <= t + Steps(k, step) < last + period
    ensures NotAfter(nows, last) && !BoundHolds(step, period, 0, nows, t, last)
  {
    var around := GetAround(step, period, last, t, k);
    var m := StepsWithin(last + period - Max(VTime(step, period, 0, around), last) - 1, step);
    nows := KeepGoing(step, period, around, t, last, m + 1);
    StepsAdd(k, m + 1, step);
    TooMany(step, period, nows, t, last, k + m + 1);
  }

  lemma TooMany(step: U64, period: U64, nows: seq<U64>, a: U64, b: U64, n: nat)
    requires a <= b && Admitted(step, period, 0, nows, a, b) == n + 1 && Steps(n, step) >= (b - a) + period
    ensures !BoundHolds(step, period, 0, nows, a, b)
  {
    StepsIsProduct(n, step);
  }

  /** Such a grid point there is. */
  lemma WrapPoint(step: U64, period: U64, burst: nat, last: U64) returns (t: nat, k: nat)
    requires 2 <= step <= period && burst >= 1 && last + period < U64_SIZE
    requires period <= Steps(burst, step) < period + step && GetsAround(step, period, Steps(burst, step), burst, last)
    ensures t <= last && k > 0 && U64_SIZE - step <= t + Steps(k, step) < last + period
  {
    if burst >= 2 && Steps(burst, step) + last >= U64_SIZE {
      k := burst - 1;
      t := Max(0, U64_SIZE - Steps(burst, step));
    } else {
      k := StepsWithin(last + period - 1, step);
      if k < burst { StepsGrow(k + 1, burst, step); } else { StepsGrow(burst, k, step); }
      t := last + period - 1 - Steps(k, step);
    }
  }

  /** For the longest period: a permit for the reading 2, and then those for the reading 0 go around. */
  lemma LongestGetsAround(step: U64, period: U64, burst: nat) returns (around: seq<U64>)
    requires period == U64_SIZE - 1 == Steps(burst, step) && 2 < step != DISABLED && burst >= 2
    ensures NotAfter(around, 2) && Admitted(step, period, 0, around, 0, 0) == burst - 1 && VTime(step, period, 0, around) == 1
  {
    var first: seq<U64> := [2];
    FirstIsOff(step, period);
    assert Steps(burst, step) == Steps(burst - 2, step) + step + step && NotAfter(first, 2);
    var up := KeepGoing(step, period, first, 0, 0, burst - 2);
    SoundAcquire(step, period, VTime(step, period, 0, up), 0);
    OneMoreAdmitted(step, period, up, 0, 0, 0);
    assert NotAfter(up, 2);
    around := up + [0];
  }

  lemma FirstIsOff(step: U64, period: U64)
    requires period == U64_SIZE - 1 && 2 < step && 2 + step < U64_SIZE && step != DISABLED
    ensures VTime(step, period, 0, [2]) == 2 + step && Admitted(step, period, 0, [2], 0, 0) == 0
  {
    var first: seq<U64> := [2];
    assert first[..0] == [] && VTime(step, period, 0, []) == 0;
    assert Acquired(step, period, 0, 2) == (true, 2 + step);
  }

  lemma LongestGoesAround(step: U64, period: U64, burst: nat) returns (nows: seq<U64>)
    requires period == U64_SIZE - 1 == Steps(burst, step) && 2 < step != DISABLED && burst >= 2
    ensures NotAfter(nows, 2) && !BoundHolds(step, period, 0, nows, 0, 0)
  {
    var around := LongestGetsAround(step, period, burst);
    nows := KeepGoing(step, period, around, 0, 0, burst);
    StepsGrow(burst, 2 * burst - 2, step);
    TooMany(step, period, nows, 0, 0, 2 * burst - 2);
  }

  /** The step is not the whole period, which is the marker, and not two, since the period is odd. */
  lemma LongestStep(step: nat, burst: nat)
    requires Steps(burst, step) == U64_SIZE - 1 && 2 <= step != DISABLED
    ensures burst >= 2 && step > 2
  {
    StepsIsProduct(burst, step);
    assert Steps(1, step) == step;
  }

  /**
   The rate bound holds in every run of a new limiter with clock readings up to `latest`, in any
   order, exactly if the virtual time cannot go around.
   */
  lemma RateBoundIff(limit: U64, period: U64, latest: U64)
    requires Finite(limit, period)
    ensures BoundedUntil(limit, period, latest) <==> !CanWrap(limit, period, latest)
  {
    var step, burst, last := StepOf(limit, period), Burst(limit, period), LastSound(period, latest);
    BurstBounds(limit, period);
    if !CanWrap(limit, period, latest) {
      forall nows: seq<U64>, a: U64, b: U64 | a <= b && NotAfter(nows, latest)
        ensures BoundHolds(step, period, 0, nows, a, b)
      {
        CleanRunIsBounded(limit, period, latest, nows, a, b);
      }
    } else if GetsAround(step, period, burst * step, burst, last) {
      var t, k := WrapPoint(step, period, burst, last);
      var nows := GoesAround(step, period, last, t, k);
      assert NotAfter(nows, latest);
    } else {
      LongestStep(step, burst);
      var nows := LongestGoesAround(step, period, burst);
      assert NotAfter(nows, latest);
    }
  }

  lemma CleanRunIsBounded(limit: U64, period: U64, latest: U64, nows: seq<U64>, a: U64, b: U64)
    requires Finite(limit, period) && !CanWrap(limit, period, latest) && a <= b && NotAfter(nows, latest)
    ensures BoundHolds(StepOf(limit, period), period, 0, nows, a, b)
  {
    BurstBounds(limit, period);
    var t, k := StaysOnGrid(limit, period, latest, nows);
    WindowBound(StepOf(limit, period), period, 0, nows, a, b);
  }

  /** Unless the period takes almost all of the 64 bits, that is when a period and a step after `latest` still fit. */
  lemma RateBoundUsuallyIff(limit: U64, period: U64, latest: U64)
    requires Finite(limit, period) && period + 2 * StepOf(limit, period) <= U64_SIZE
    ensures BoundedUntil(limit, period, latest) <==> latest + period + StepOf(limit, period) <= U64_SIZE
  {
    RateBoundIff(limit, period, latest);
    BurstBounds(limit, period);
  }

  // === What the configurations mean ===

  predicate Grants(r: RateLimit, vtime: U64, now: U64) {
    Acquired(StepOf(LimitOf(r), PeriodOf(r)), PeriodOf(r), vtime, now).0
  }

  /** No acquire is refused exactly if the limit is unlimited, or at least one per nanosecond of the period in 64 bits. */
  lemma NeverRefusesIff(r: RateLimit)
    ensures (forall vtime: U64, now: U64 :: Grants(r, vtime, now)) <==>
            match r
            case Unlimited => true
            case Rps(rps) => rps >= 1_000_000_000
            case Custom(limit, nanos) => limit > 0 && limit >= nanos % U64_SIZE
  {
    if StepOf(LimitOf(r), PeriodOf(r)) != UNLIMITED { assert !Grants(r, U64_SIZE - 1, 0); }
  }

  /** Every acquire is refused exactly if the limit is zero, or one per longest possible period. */
  lemma NeverAdmitsIff(r: RateLimit)
    ensures (forall vtime: U64, now: U64 :: !Grants(r, vtime, now)) <==>
            match r
            case Unlimited => false
            case Rps(rps) => rps == 0
            case Custom(limit, nanos) => limit == 0 || (limit == 1 && nanos % U64_SIZE == U64_SIZE - 1)
  {
    DisabledIff(LimitOf(r), PeriodOf(r));
    if StepOf(LimitOf(r), PeriodOf(r)) != DISABLED { assert Grants(r, 0, 0); }
  }

  /** With so many requests per second, there are at most that many for each second begun, and one second more. */
  lemma PerSecond(rps: U64, start: U64, nows: seq<U64>, a: U64, b: U64, seconds: nat)
    requires 0 < rps < 1_000_000_000 && a <= b <= a + seconds * 1_000_000_000
    requires NoWrap(StepOf(LimitOf(Rps(rps)), PeriodOf(Rps(rps))), PeriodOf(Rps(rps)), nows)
    ensures Admitted(StepOf(LimitOf(Rps(rps)), PeriodOf(Rps(rps))), PeriodOf(Rps(rps)), start, nows, a, b)
            <= (seconds + 1) * rps
  {
    DisabledIff(rps, SEC);
    var step := StepOf(rps, SEC);
    var n: int := Admitted(step, SEC, start, nows, a, b);
    RateBound(rps, SEC, start, nows, a, b);
    StepIsLeast(rps, SEC);
    if n > (seconds + 1) * rps { TooManySeconds(n, rps, step, seconds); }
  }

  lemma TooManySeconds(n: int, rps: nat, step: nat, seconds: nat)
    requires n > (seconds + 1) * rps && rps * step >= SEC
    ensures (n - 1) * step >= (seconds + 1) * SEC
  {
    var k := seconds + 1;
    assert (n - 1) * step >= (k * rps) * step == k * (rps * step) >= k * SEC;
  }

  // === The leaky bucket ===

  /** A bucket that leaks one unit per nanosecond; a permit pours a step into it. */
  datatype Bucket = Bucket(level: int, at: int)

  function Leaked(bucket: Bucket, now: int): int {
    Max(0, bucket.level - (now - bucket.at))
  }

  function Poured(step: U64, period: U64, bucket: Bucket, now: int): (bool, Bucket) {
    if Leaked(bucket, now) < period then (true, Bucket(Leaked(bucket, now) + step, now)) else (false, bucket)
  }

  function BucketAfter(step: U64, period: U64, bucket: Bucket, nows: seq<U64>): Bucket {
    if nows == [] then bucket
    else Poured(step, period, BucketAfter(step, period, bucket, nows[..|nows| - 1]), nows[|nows| - 1]).1
  }

  ghost predicate Nondecreasing(nows: seq<U64>) {
    forall i, j :: 0 <= i <= j < |nows| ==> nows[i] <= nows[j]
  }

  /** The bucket's contents are the distance of the virtual time from the clock. */
  lemma {:induction false} BucketMirrors(step: U64, period: U64, nows: seq<U64>, now: int)
    requires step != UNLIMITED && step != DISABLED && period > 0 && NoWrap(step, period, nows) && Nondecreasing(nows)
    requires 0 <= now && forall k :: 0 <= k < |nows| ==> nows[k] <= now
    ensures Leaked(BucketAfter(step, period, Bucket(0, 0), nows), now) == Max(0, VTime(step, period, 0, nows) - now)
    ensures BucketAfter(step, period, Bucket(0, 0), nows).at <= now
    decreases |nows|
  {
    if nows != [] {
      var k := |nows| - 1;
      BucketMirrors(step, period, nows[..k], nows[k]);
      BucketMirrors(step, period, nows[..k], now);
      StepWithoutWrap(step, period, VTime(step, period, 0, nows[..k]), nows[k]);
    }
  }

  /** While the clock does not run backwards, the limiter decides as a leaky bucket of size `period`. */
  lemma IsLeakyBucket(step: U64, period: U64, nows: seq<U64>, k: nat)
    requires step != UNLIMITED && step != DISABLED && period > 0 && NoWrap(step, period, nows) && Nondecreasing(nows)
    requires k < |nows|
    ensures Admits(step, period, 0, nows, k) <==>
            Poured(step, period, BucketAfter(step, period, Bucket(0, 0), nows[..k]), nows[k]).0
  {
    BucketMirrors(step, period, nows[..k], nows[k]);
    StepWithoutWrap(step, period, VTime(step, period, 0, nows[..k]), nows[k]);
  }

  // === The code ===

  class RateLimiter {
    var step: U64
    var period: U64
    var vtime: U64

    constructor (limit: RateLimit)
      ensures step == StepOf(LimitOf(limit), PeriodOf(limit)) && period == PeriodOf(limit) && vtime == 0
      ensures limit == Unlimited ==> step == UNLIMITED
    {
      step, period, vtime := StepOf(LimitOf(limit), PeriodOf(limit)), PeriodOf(limit), 0;
    }

    method Configure(limit: RateLimit)
      modifies this`step, this`period
      ensures step == StepOf(LimitOf(limit), PeriodOf(limit)) && period == PeriodOf(limit)
      ensures limit == Unlimited ==> step == UNLIMITED
    {
      step := StepOf(LimitOf(limit), PeriodOf(limit));
      period := PeriodOf(limit);
    }

    method Reset()
      modifies this`vtime
      ensures vtime == 0
    {
      vtime := 0;
    }

    method Acquire(now: U64) returns (ok: bool)
      modifies this`vtime
      ensures (ok, vtime) == Acquired(step, period, old(vtime), now)
      ensures step == UNLIMITED ==> ok
    {
      if step == UNLIMITED { return true; }
      if step == DISABLED { return false; }
      var deadline := Sum(now, period);
      if vtime < deadline {
        vtime := Sum(Max(vtime, now), step);
        return true;
      }
      return false;
    }
  }
}
