/** The timer of one suspicion: it starts at the long timeout and each new confirmer shortens it. */
module SuspicionTimer {
  import opened Types
  import opened Confirmation

  const NS_PER_MS := 1_000_000

  /** Timeouts in nanoseconds. `ratio(k)` stands for log k / log cap. */
  datatype Spec = Spec(minTimeout: int, maxTimeout: int, ratio: nat -> real)

  /** `pending` is the armed deadline; `firings` counts the calls of the timeout function, `firedAt` is
      the time of the last; `news` counts the confirmations that were reported as new. */
  datatype Timing = Timing(
    start: int, conf: Confirmations, pending: Option<int>, firings: nat, firedAt: int, news: nat)

  /** The exact, unrounded timeout for `k` confirmers. */
  function Exact(spec: Spec, k: nat): real {
    spec.maxTimeout as real - spec.ratio(k) * (spec.maxTimeout - spec.minTimeout) as real
  }

  /** The whole timeout, from the start of the suspicion, that `k` confirmers call for. */
  function Timeout(spec: Spec, cap: int, k: nat): int {
    if k >= cap then spec.minTimeout
    else (Exact(spec, k) / (NS_PER_MS as real)).Floor * NS_PER_MS
  }

  function RemainingTime(spec: Spec, s: Timing, now: int): int {
    Timeout(spec, s.conf.cap, |s.conf.confirmers|) - (now - s.start)
  }

  function NewSuspicion(spec: Spec, cap: int, from: Id, now: int): Timing {
    var timeout := if cap <= 1 then spec.minTimeout else spec.maxTimeout;
    Timing(now, FirstConfirmation(cap, from), Some(now + timeout), 0, now, 0)
  }

  function ConfirmAt(spec: Spec, s: Timing, from: Id, now: int): Timing {
    var r := Confirm(s.conf, from);
    if !r.1 then s
    else
      var s' := s.(conf := r.0, news := s.news + 1);
      var remaining := RemainingTime(spec, s', now);
      if s.pending.None? then s'
      else if remaining > 0 then s'.(pending := Some(now + remaining))
      else s'.(pending := None, firings := s.firings + 1, firedAt := now)
  }

  /** The runtime calls an armed timer once its deadline has come. */
  function ExpireAt(s: Timing, now: int): Timing {
    if s.pending.Some? && now >= s.pending.value then
      s.(pending := None, firings := s.firings + 1, firedAt := now)
    else
      s
  }

  datatype Happening = Confirmed(from: Id, now: int) | Elapsed(now: int)

  /** What one event does. */
  function Happens(spec: Spec, s: Timing, h: Happening): Timing {
    match h
    case Confirmed(from, now) => ConfirmAt(spec, s, from, now)
    case Elapsed(now) => ExpireAt(s, now)
  }

  function After(spec: Spec, s: Timing, hs: seq<Happening>): Timing {
    if hs == [] then s
    else
      Happens(spec, After(spec, s, hs[..|hs| - 1]), hs[|hs| - 1])
  }

  // ---------- What every history keeps ----------

  /** The logarithm ratio rises from 0 towards 1 while the confirmers are fewer than `cap`. */
  ghost predicate Logarithmic(spec: Spec, cap: int) {
    && (forall k: nat :: 1 <= k < cap ==> 0.0 <= spec.ratio(k) <= 1.0)
    && (forall j: nat, k: nat :: 1 <= j <= k < cap ==> spec.ratio(j) <= spec.ratio(k))
  }

  ghost predicate Reasonable(spec: Spec, cap: int) {
    spec.minTimeout <= spec.maxTimeout && Logarithmic(spec, cap)
  }

  /** Intermediate timeouts are rounded down to whole milliseconds. */
  function WholeMs(ns: int): int {
    ns / NS_PER_MS * NS_PER_MS
  }

  /** The deadline's distance from the start depends on the number of confirmers alone. */
  function Due(spec: Spec, cap: int, k: nat): int {
    if k >= cap then spec.minTimeout
    else if k == 1 then spec.maxTimeout
    else Timeout(spec, cap, k)
  }

  ghost predicate TimingInv(spec: Spec, s: Timing) {
    && 1 <= |s.conf.confirmers| <= Max(1, s.conf.cap)
    && s.news == |s.conf.confirmers| - 1
    && s.firings + (if s.pending.Some? then 1 else 0) == 1
    && (s.pending.Some? ==> s.pending.value == s.start + Due(spec, s.conf.cap, |s.conf.confirmers|))
    && (s.firings == 1 ==>
          exists k: nat :: 1 <= k <= |s.conf.confirmers| && s.firedAt >= s.start + Due(spec, s.conf.cap, k))
  }

  lemma ConfirmKeeps(spec: Spec, s: Timing, from: Id, now: int)
    requires TimingInv(spec, s)
    ensures TimingInv(spec, ConfirmAt(spec, s, from, now))
  {
    var s' := ConfirmAt(spec, s, from, now);
    assert 1 <= |s'.conf.confirmers| <= |s'.conf.confirmers|;
  }

  lemma ExpireKeeps(spec: Spec, s: Timing, now: int)
    requires TimingInv(spec, s)
    ensures TimingInv(spec, ExpireAt(s, now))
  {
    assert 1 <= |s.conf.confirmers| <= |s.conf.confirmers|;
  }

  /** Whatever confirmations and clock readings follow: exactly one of an armed timer and one firing,
      at most max(1, cap) confirmers, and at most one fewer reports of news. */
  lemma {:induction false} HistoryKeeps(spec: Spec, s: Timing, hs: seq<Happening>)
    requires TimingInv(spec, s)
    ensures TimingInv(spec, After(spec, s, hs))
    ensures After(spec, s, hs).start == s.start && After(spec, s, hs).conf.cap == s.conf.cap
  {
    if hs != [] {
      HistoryKeeps(spec, s, hs[..|hs| - 1]);
      var s' := After(spec, s, hs[..|hs| - 1]);
      match hs[|hs| - 1]
      case Confirmed(from, now) => ConfirmKeeps(spec, s', from, now);
      case Elapsed(now) => ExpireKeeps(spec, s', now);
    }
  }

  lemma FloorBetween(lo: int, x: real)
    requires lo as real <= x
    ensures var ms := (x / (NS_PER_MS as real)).Floor * NS_PER_MS;
            WholeMs(lo) <= ms && ms as real <= x
  {
    var q := lo / NS_PER_MS;
    assert (q * NS_PER_MS) as real <= x;
    assert q as real <= x / (NS_PER_MS as real);
    var f := (x / (NS_PER_MS as real)).Floor;
    assert q <= f;
    assert f as real <= x / (NS_PER_MS as real);
  }

  lemma PartOf(f: real, d: real)
    requires 0.0 <= f <= 1.0 && 0.0 <= d
    ensures 0.0 <= f * d <= d
  {
    assert (1.0 - f) * d >= 0.0;
  }

  lemma ExactBetween(spec: Spec, cap: int, k: nat)
    requires Reasonable(spec, cap) && 1 <= k < cap
    ensures spec.minTimeout as real <= Exact(spec, k) <= spec.maxTimeout as real
  {
    var d := (spec.maxTimeout - spec.minTimeout) as real;
    var part := spec.ratio(k) * d;
    assert d == spec.maxTimeout as real - spec.minTimeout as real;
    assert 0.0 <= part <= d by {
      PartOf(spec.ratio(k), d);
    }
    assert Exact(spec, k) == spec.maxTimeout as real - part;
  }

  lemma ExactFalls(spec: Spec, cap: int, j: nat, k: nat)
    requires Reasonable(spec, cap) && 1 <= j <= k < cap
    ensures Exact(spec, k) <= Exact(spec, j)
  {
    var d := (spec.maxTimeout - spec.minTimeout) as real;
    assert (spec.ratio(k) - spec.ratio(j)) * d >= 0.0;
  }

  lemma DueBetween(spec: Spec, cap: int, k: nat)
    requires Reasonable(spec, cap) && 1 <= k
    ensures WholeMs(spec.minTimeout) <= Due(spec, cap, k) <= spec.maxTimeout
  {
    if 1 < k < cap {
      ExactBetween(spec, cap, k);
      FloorBetween(spec.minTimeout, Exact(spec, k));
    }
  }

  lemma FloorRises(x: real, y: real)
    requires x <= y
    ensures (x / (NS_PER_MS as real)).Floor * NS_PER_MS <= (y / (NS_PER_MS as real)).Floor * NS_PER_MS
  {
    assert x / (NS_PER_MS as real) <= y / (NS_PER_MS as real);
  }

  lemma DueFallsBetween(spec: Spec, cap: int, j: nat, k: nat)
    requires Reasonable(spec, cap) && 1 <= j <= k < cap
    ensures Due(spec, cap, k) <= Due(spec, cap, j)
  {
    DueBetween(spec, cap, k);
    if 1 < j {
      ExactFalls(spec, cap, j, k);
      FloorRises(Exact(spec, k), Exact(spec, j));
    }
  }

  /** How far the last confirmer may move the deadline back, undoing the rounding of those before it. */
  function Setback(spec: Spec, cap: int): nat {
    if cap <= 2 then 0 else spec.minTimeout % NS_PER_MS
  }

  /** More confirmers never mean a later deadline, but for that fraction of a millisecond. */
  lemma DueFalls(spec: Spec, cap: int, j: nat, k: nat)
    requires Reasonable(spec, cap) && 1 <= j <= k
    ensures Due(spec, cap, k) <= Due(spec, cap, j) + Setback(spec, cap)
  {
    if k < cap {
      DueFallsBetween(spec, cap, j, k);
    } else {
      DueBetween(spec, cap, j);
    }
  }

  /** The first whole number of milliseconds not below `ns`. */
  function NextMs(ns: int): int {
    if ns % NS_PER_MS == 0 then ns else WholeMs(ns) + NS_PER_MS
  }

  lemma FloorReaches(lo: int, x: real)
    ensures lo <= (x / (NS_PER_MS as real)).Floor * NS_PER_MS <==> NextMs(lo) as real <= x
  {
    var f, q := (x / (NS_PER_MS as real)).Floor, NextMs(lo) / NS_PER_MS;
    assert NextMs(lo) == q * NS_PER_MS;
    assert lo <= f * NS_PER_MS <==> q <= f;
    assert q <= f <==> q as real <= x / (NS_PER_MS as real);
    assert q as real <= x / (NS_PER_MS as real) <==> (q * NS_PER_MS) as real <= x;
  }

  ghost predicate NeverLater(spec: Spec, cap: int) {
    forall j: nat, k: nat :: 1 <= j <= k ==> Due(spec, cap, k) <= Due(spec, cap, j)
  }

  ghost predicate NeverEarly(spec: Spec, cap: int) {
    forall k: nat :: 1 <= k ==> spec.minTimeout <= Due(spec, cap, k)
  }

  /** The unrounded timeout of the last but one confirmer is no less than the short timeout rounded up. */
  predicate RoundingSafe(spec: Spec, cap: int) {
    cap <= 2 || NextMs(spec.minTimeout) as real <= Exact(spec, cap - 1)
  }

  lemma LastDue(spec: Spec, cap: int)
    requires cap > 2
    ensures RoundingSafe(spec, cap) <==> Due(spec, cap, cap) <= Due(spec, cap, cap - 1)
  {
    FloorReaches(spec.minTimeout, Exact(spec, cap - 1));
  }

  /** For a given ratio, no deadline is before the short timeout, and none moves later, exactly when
      rounding does not take the last but one timeout below the short one. */
  lemma OrderlyIffSafe(spec: Spec, cap: int)
    requires Reasonable(spec, cap)
    ensures NeverEarly(spec, cap) <==> RoundingSafe(spec, cap)
    ensures NeverLater(spec, cap) <==> RoundingSafe(spec, cap)
  {
    if cap > 2 {
      LastDue(spec, cap);
    }
    if RoundingSafe(spec, cap) {
      forall k: nat | 1 <= k ensures spec.minTimeout <= Due(spec, cap, k) {
        if k < cap {
          DueFallsBetween(spec, cap, k, cap - 1);
        }
      }
      forall j: nat, k: nat | 1 <= j <= k ensures Due(spec, cap, k) <= Due(spec, cap, j) {
        if k < cap {
          DueFallsBetween(spec, cap, j, k);
        }
      }
    }
  }

  /** The short timeout is a lower bound of all deadlines only up to that rounding: if it is not a whole
      number of milliseconds and equals the long one, a second of three confirmers undercuts it. */
  lemma RoundingUndercuts(spec: Spec, cap: int)
    requires Reasonable(spec, cap) && cap >= 3
    requires spec.minTimeout == spec.maxTimeout && spec.minTimeout % NS_PER_MS != 0
    ensures Due(spec, cap, 2) < spec.minTimeout
    ensures Due(spec, cap, 2) < Due(spec, cap, cap)
  {
    assert Exact(spec, 2) == spec.maxTimeout as real;
    FloorBetween(spec.minTimeout, Exact(spec, 2));
    assert Due(spec, cap, 2) % NS_PER_MS == 0;
  }

  /** For a ratio that is all the way up with the second confirmer, rounding is safe only if there is
      nothing to round. */
  lemma SteepIsSafe(minTimeout: int, maxTimeout: int, cap: int) returns (spec: Spec)
    requires minTimeout <= maxTimeout
    ensures spec.minTimeout == minTimeout && spec.maxTimeout == maxTimeout && Reasonable(spec, cap)
    ensures RoundingSafe(spec, cap) <==> minTimeout % NS_PER_MS == 0 || cap <= 2
  {
    spec := Spec(minTimeout, maxTimeout, k => if k <= 1 then 0.0 else 1.0);
    assert cap > 2 ==> Exact(spec, cap - 1) == minTimeout as real;
  }

  lemma WholeIsSafe(spec: Spec, cap: int)
    requires Reasonable(spec, cap) && (spec.minTimeout % NS_PER_MS == 0 || cap <= 2)
    ensures RoundingSafe(spec, cap)
  {
    if cap > 2 {
      ExactBetween(spec, cap, cap - 1);
    }
  }

  /** Rounding is safe for every rising ratio between 0 and 1. */
  ghost predicate AlwaysSafe(minTimeout: int, maxTimeout: int, cap: int) {
    forall ratio: nat -> real ::
      Logarithmic(Spec(minTimeout, maxTimeout, ratio), cap) ==> RoundingSafe(Spec(minTimeout, maxTimeout, ratio), cap)
  }

  lemma AlwaysSafeIffWhole(minTimeout: int, maxTimeout: int, cap: int)
    requires minTimeout <= maxTimeout
    ensures AlwaysSafe(minTimeout, maxTimeout, cap) <==> minTimeout % NS_PER_MS == 0 || cap <= 2
  {
    if minTimeout % NS_PER_MS == 0 || cap <= 2 {
      forall ratio: nat -> real | Logarithmic(Spec(minTimeout, maxTimeout, ratio), cap)
        ensures RoundingSafe(Spec(minTimeout, maxTimeout, ratio), cap) {
        WholeIsSafe(Spec(minTimeout, maxTimeout, ratio), cap);
      }
    } else {
      var spec := SteepIsSafe(minTimeout, maxTimeout, cap);
      assert spec == Spec(minTimeout, maxTimeout, spec.ratio);
    }
  }

  /** No deadline is before the short timeout, whatever the ratio between first and last confirmer. */
  ghost predicate KeepsMin(minTimeout: int, maxTimeout: int, cap: int) {
    forall ratio: nat -> real ::
      Logarithmic(Spec(minTimeout, maxTimeout, ratio), cap) ==> NeverEarly(Spec(minTimeout, maxTimeout, ratio), cap)
  }

  /** The short timeout is kept exactly when it is a whole number of milliseconds, or no confirmer comes
      between the first and the last. */
  lemma KeepsMinIffWhole(minTimeout: int, maxTimeout: int, cap: int)
    requires minTimeout <= maxTimeout
    ensures KeepsMin(minTimeout, maxTimeout, cap) <==> minTimeout % NS_PER_MS == 0 || cap <= 2
  {
    forall ratio: nat -> real | Logarithmic(Spec(minTimeout, maxTimeout, ratio), cap)
      ensures NeverEarly(Spec(minTimeout, maxTimeout, ratio), cap)
         <==> RoundingSafe(Spec(minTimeout, maxTimeout, ratio), cap) {
      OrderlyIffSafe(Spec(minTimeout, maxTimeout, ratio), cap);
    }
    AlwaysSafeIffWhole(minTimeout, maxTimeout, cap);
  }

  /** No confirmer moves the deadline later, whatever the ratio. */
  ghost predicate Falls(minTimeout: int, maxTimeout: int, cap: int) {
    forall ratio: nat -> real ::
      Logarithmic(Spec(minTimeout, maxTimeout, ratio), cap) ==> NeverLater(Spec(minTimeout, maxTimeout, ratio), cap)
  }

  /** The deadline never moves later under exactly the same condition. */
  lemma FallsIffWhole(minTimeout: int, maxTimeout: int, cap: int)
    requires minTimeout <= maxTimeout
    ensures Falls(minTimeout, maxTimeout, cap) <==> minTimeout % NS_PER_MS == 0 || cap <= 2
  {
    forall ratio: nat -> real | Logarithmic(Spec(minTimeout, maxTimeout, ratio), cap)
      ensures NeverLater(Spec(minTimeout, maxTimeout, ratio), cap)
         <==> RoundingSafe(Spec(minTimeout, maxTimeout, ratio), cap) {
      OrderlyIffSafe(Spec(minTimeout, maxTimeout, ratio), cap);
    }
    AlwaysSafeIffWhole(minTimeout, maxTimeout, cap);
  }

  // ---------- The ratio of logarithms itself ----------

  function Pow(b: nat, e: nat): nat {
    if e == 0 then 1 else b * Pow(b, e - 1)
  }

  lemma ProductRises(a: nat, b: nat, c: nat, d: nat)
    requires a <= b && c <= d
    ensures a * c <= b * d
  {
    assert (b - a) * c >= 0 && b * (d - c) >= 0;
  }

  lemma {:induction false} PowRises(a: nat, b: nat, e: nat)
    requires a <= b
    ensures Pow(a, e) <= Pow(b, e)
  {
    if e > 0 {
      PowRises(a, b, e - 1);
      ProductRises(a, b, Pow(a, e - 1), Pow(b, e - 1));
    }
  }

  /** `q` times `r`. */
  function Times(q: nat, r: real): real {
    if q == 0 then 0.0 else r + Times(q - 1, r)
  }

  lemma {:induction false} TimesMultiplies(q: nat, r: real)
    ensures Times(q, r) == q as real * r
  {
    if q > 0 {
      TimesMultiplies(q - 1, r);
      assert (q - 1) as real * r == q as real * r - r;
    }
  }

  lemma {:induction false} TimesAdds(q: nat, a: real, b: real)
    ensures Times(q, a + b) == Times(q, a) + Times(q, b)
  {
    if q > 0 {
      TimesAdds(q - 1, a, b);
    }
  }

  lemma {:induction false} TimesNotNegative(q: nat, a: real)
    requires a >= 0.0
    ensures Times(q, a) >= 0.0
  {
    if q > 0 {
      TimesNotNegative(q - 1, a);
    }
  }

  /** `r` is log k / log cap: a fraction p/q is not below it exactly if k^q <= cap^p. */
  ghost predicate IsLogRatio(r: real, k: nat, cap: nat) {
    0.0 <= r && forall p: nat, q: nat :: q > 0 ==> (Times(q, r) <= p as real <==> Pow(k, q) <= Pow(cap, p))
  }

  ghost predicate TrueLogarithms(spec: Spec, cap: int) {
    forall k: nat :: 1 <= k < cap ==> IsLogRatio(spec.ratio(k), k, cap)
  }

  lemma {:induction false} CutAt(r: real, k: nat, cap: nat, p: nat, q: nat)
    requires IsLogRatio(r, k, cap) && q > 0
    ensures Times(q, r) <= p as real <==> Pow(k, q) <= Pow(cap, p)
  {
  }

  lemma ProductRisesStrictly(x: real, y: real, d: real)
    requires d > 0.0 && x < y
    ensures x * d < y * d
  {
  }

  lemma AboveInverse(y: real, d: real)
    requires d > 0.0 && 1.0 / d < y
    ensures y * d > 1.0
  {
    var x := 1.0 / d;
    var a, b := x * d, y * d;
    assert a < b by {
      ProductRisesStrictly(x, y, d);
    }
    assert a == 1.0;
    assert b > 1.0;
  }

  lemma {:induction false} TimesAboveInverse(q: nat, y: real, d: real)
    requires y == q as real && d > 0.0 && 1.0 / d < y
    ensures Times(q, d) > 1.0
  {
    AboveInverse(y, d);
    TimesMultiplies(q, d);
  }

  lemma Inverse(d: real) returns (x: real)
    requires d > 0.0
    ensures x > 0.0 && x == 1.0 / d
  {
    x := 1.0 / d;
  }

  lemma NextWhole(x: real) returns (n: nat)
    requires x >= 0.0
    ensures x < n as real <= x + 1.0 && n > 0
  {
    n := x.Floor + 1;
  }

  /** Enough of any positive number is more than one. */
  lemma Enough(d: real) returns (q: nat)
    requires d > 0.0
    ensures q > 0 && Times(q, d) > 1.0
  {
    var x := Inverse(d);
    q := NextWhole(x);
    TimesAboveInverse(q, q as real, d);
  }

  /** There is a fraction between any two numbers. */
  lemma FractionBetween(lo: real, hi: real) returns (p: nat, q: nat)
    requires 0.0 <= lo < hi
    ensures q > 0 && Times(q, lo) <= p as real < Times(q, hi)
  {
    q := Enough(hi - lo);
    TimesAdds(q, lo, hi - lo);
    assert lo + (hi - lo) == hi;
    TimesNotNegative(q, lo);
    p := NextWhole(Times(q, lo));
  }

  lemma LogRatioRises(rj: real, rk: real, j: nat, k: nat, cap: nat)
    requires IsLogRatio(rj, j, cap) && IsLogRatio(rk, k, cap) && j <= k
    ensures rj <= rk
  {
    if rk < rj {
      var p, q := FractionBetween(rk, rj);
      PowRises(j, k, q);
      CutAt(rk, k, cap, p, q);
      CutAt(rj, j, cap, p, q);
    }
  }

  lemma LogRatioAtMostOne(r: real, k: nat, cap: nat)
    requires IsLogRatio(r, k, cap) && k <= cap
    ensures r <= 1.0
  {
    CutAt(r, k, cap, 1, 1);
    assert Pow(k, 1) == k && Pow(cap, 1) == cap && Times(1, r) == r;
  }

  /** The source's ratio has what the results above ask of a ratio. */
  lemma LogarithmsAreLogarithmic(spec: Spec, cap: int)
    requires TrueLogarithms(spec, cap)
    ensures Logarithmic(spec, cap)
  {
    forall k: nat | 1 <= k < cap ensures 0.0 <= spec.ratio(k) <= 1.0 {
      LogRatioAtMostOne(spec.ratio(k), k, cap);
    }
    forall j: nat, k: nat | 1 <= j <= k < cap ensures spec.ratio(j) <= spec.ratio(k) {
      LogRatioRises(spec.ratio(j), spec.ratio(k), j, k, cap);
    }
  }

  /** (cap - 1)^(max - min) <= cap^(max - the minimum rounded up): a test on integers. */
  predicate PowersSafe(minTimeout: int, maxTimeout: int, cap: int)
    requires minTimeout <= maxTimeout
  {
    cap <= 2
    || (NextMs(minTimeout) <= maxTimeout
        && Pow(cap - 1, maxTimeout - minTimeout) <= Pow(cap, maxTimeout - NextMs(minTimeout)))
  }

  lemma SafeIffPowers(spec: Spec, cap: int)
    requires spec.minTimeout <= spec.maxTimeout && TrueLogarithms(spec, cap)
    ensures RoundingSafe(spec, cap) <==> PowersSafe(spec.minTimeout, spec.maxTimeout, cap)
  {
    if cap > 2 {
      var r, q, p := spec.ratio(cap - 1), spec.maxTimeout - spec.minTimeout, spec.maxTimeout - NextMs(spec.minTimeout);
      assert IsLogRatio(r, cap - 1, cap);
      TimesMultiplies(q, r);
      TimesNotNegative(q, r);
      assert RoundingSafe(spec, cap) <==> Times(q, r) <= p as real;
      if q == 0 {
        assert Pow(cap - 1, 0) == 1 == Pow(cap, 0);
      } else if p >= 0 {
        CutAt(r, cap - 1, cap, p, q);
      }
    }
  }

  /** With the source's own logarithms: no deadline is before the short timeout, and none moves later,
      each exactly when the test on integers holds. */
  lemma OrderlyIffPowers(spec: Spec, cap: int)
    requires spec.minTimeout <= spec.maxTimeout && TrueLogarithms(spec, cap)
    ensures NeverEarly(spec, cap) <==> PowersSafe(spec.minTimeout, spec.maxTimeout, cap)
    ensures NeverLater(spec, cap) <==> PowersSafe(spec.minTimeout, spec.maxTimeout, cap)
  {
    LogarithmsAreLogarithmic(spec, cap);
    OrderlyIffSafe(spec, cap);
    SafeIffPowers(spec, cap);
  }

  /** A suspicion runs for at least the short timeout, in whole milliseconds, and its timer is never set
      past the long one; it fires at most once, and is rebroadcast at most cap - 1 times. */
  lemma {:induction false} FiresInTime(spec: Spec, cap: int, from: Id, now: int, hs: seq<Happening>)
    requires Reasonable(spec, cap)
    ensures var s := After(spec, NewSuspicion(spec, cap, from, now), hs);
            && (s.pending.Some? ==> now + WholeMs(spec.minTimeout) <= s.pending.value <= now + spec.maxTimeout)
            && (s.firings == 1 ==> s.firedAt >= now + WholeMs(spec.minTimeout))
            && s.news <= Max(1, cap) - 1
            && (s.firings == 0 <==> s.pending.Some?) && s.firings <= 1
  {
    var s0 := NewSuspicion(spec, cap, from, now);
    HistoryKeeps(spec, s0, hs);
    var s := After(spec, s0, hs);
    if s.pending.Some? {
      DueBetween(spec, cap, |s.conf.confirmers|);
    } else {
      var k: nat :| 1 <= k <= |s.conf.confirmers| && s.firedAt >= s.start + Due(spec, s.conf.cap, k);
      DueBetween(spec, cap, k);
    }
  }

  ghost predicate Advances(early: Timing, late: Timing) {
    |early.conf.confirmers| <= |late.conf.confirmers| && (late.pending.Some? ==> early.pending.Some?)
  }

  lemma HappeningAdvances(spec: Spec, s: Timing, h: Happening)
    ensures Advances(s, Happens(spec, s, h))
  {
  }

  lemma {:induction false} HistoryGrows(spec: Spec, s: Timing, hs: seq<Happening>, k: nat)
    requires k <= |hs|
    ensures Advances(After(spec, s, hs[..k]), After(spec, s, hs))
    decreases |hs|
  {
    if k == |hs| {
      assert hs[..k] == hs;
    } else {
      HistoryGrows(spec, s, hs[..|hs| - 1], k);
      assert hs[..|hs| - 1][..k] == hs[..k];
      HappeningAdvances(spec, After(spec, s, hs[..|hs| - 1]), hs[|hs| - 1]);
    }
  }

  /** Over any history, the deadline never moves later if rounding is safe, and else by no more than the
      sub-millisecond part of the short timeout. */
  lemma {:induction false} DeadlineNeverLater(spec: Spec, s: Timing, hs: seq<Happening>, k: nat)
    requires TimingInv(spec, s) && Reasonable(spec, s.conf.cap) && k <= |hs|
    ensures var early, late := After(spec, s, hs[..k]), After(spec, s, hs);
            late.pending.Some? ==>
              && early.pending.Some?
              && late.pending.value <= early.pending.value + Setback(spec, s.conf.cap)
              && (RoundingSafe(spec, s.conf.cap) ==> late.pending.value <= early.pending.value)
  {
    HistoryGrows(spec, s, hs, k);
    HistoryKeeps(spec, s, hs);
    HistoryKeeps(spec, s, hs[..k]);
    var early, late := After(spec, s, hs[..k]), After(spec, s, hs);
    DueFalls(spec, s.conf.cap, |early.conf.confirmers|, |late.conf.confirmers|);
    OrderlyIffSafe(spec, s.conf.cap);
  }

  function Peer(i: nat): Id {
    Id(seq(i, _ => 'x'))
  }

  /** `n` peers other than the first confirm, one after the other. */
  function Rumours(n: nat, now: int): seq<Happening> {
    if n == 0 then [] else Rumours(n - 1, now) + [Confirmed(Peer(n), now)]
  }

  /** After `n` of them. */
  ghost predicate Spread(spec: Spec, cap: int, start: int, n: nat, s: Timing) {
    && s.start == start && s.conf.cap == cap && |s.conf.confirmers| == n + 1
    && (forall p :: p in s.conf.confirmers ==> |p.text| <= n)
    && s.pending == Some(start + Due(spec, cap, n + 1))
  }

  lemma RumourSpreads(spec: Spec, cap: int, start: int, now: int, n: nat, s: Timing)
    requires 0 < n < cap && Spread(spec, cap, start, n - 1, s) && now < start + Due(spec, cap, n + 1)
    ensures Spread(spec, cap, start, n, ConfirmAt(spec, s, Peer(n), now))
  {
    assert |Peer(n).text| == n;
  }

  lemma {:induction false} FirstRumour(spec: Spec, cap: int, start: int, now: int)
    ensures Spread(spec, cap, start, 0, After(spec, NewSuspicion(spec, cap, Peer(0), start), Rumours(0, now)))
  {
    var s := NewSuspicion(spec, cap, Peer(0), start);
    assert After(spec, s, Rumours(0, now)) == s;
    assert s.conf.confirmers == {Peer(0)};
  }

  lemma LastRumour(spec: Spec, s: Timing, now: int, n: nat)
    requires n > 0
    ensures After(spec, s, Rumours(n, now)) == ConfirmAt(spec, After(spec, s, Rumours(n - 1, now)), Peer(n), now)
  {
    var hs := Rumours(n, now);
    assert hs[..|hs| - 1] == Rumours(n - 1, now) && hs[|hs| - 1] == Confirmed(Peer(n), now);
  }

  lemma {:induction false} RumoursSpread(spec: Spec, cap: int, start: int, now: int, n: nat)
    requires Reasonable(spec, cap) && n < Max(1, cap) && now < start + WholeMs(spec.minTimeout)
    ensures Spread(spec, cap, start, n, After(spec, NewSuspicion(spec, cap, Peer(0), start), Rumours(n, now)))
  {
    var s := NewSuspicion(spec, cap, Peer(0), start);
    if n == 0 {
      FirstRumour(spec, cap, start, now);
    } else {
      RumoursSpread(spec, cap, start, now, n - 1);
      LastRumour(spec, s, now, n);
      DueBetween(spec, cap, n + 1);
      RumourSpreads(spec, cap, start, now, n, After(spec, s, Rumours(n - 1, now)));
    }
  }

  lemma {:induction false} RumoursArm(spec: Spec, cap: int, start: int, now: int, n: nat)
    requires Reasonable(spec, cap) && n < Max(1, cap) && now < start + WholeMs(spec.minTimeout)
    ensures After(spec, NewSuspicion(spec, cap, Peer(0), start), Rumours(n, now)).pending
         == Some(start + Due(spec, cap, n + 1))
  {
    RumoursSpread(spec, cap, start, now, n);
  }

  lemma {:induction false} RumoursCount(m: nat, n: nat, now: int)
    requires m <= n
    ensures |Rumours(n, now)| == n && Rumours(n, now)[..m] == Rumours(m, now)
    decreases n
  {
    if m < n {
      RumoursCount(m, n - 1, now);
    } else if n > 0 {
      RumoursCount(n - 1, n - 1, now);
    }
  }

  /** If rounding is not safe, it does happen: when all confirm before the short timeout in whole
      milliseconds is over, the last one moves the deadline later. */
  lemma LastSetsBack(spec: Spec, cap: int, start: int, now: int)
    requires Reasonable(spec, cap) && !RoundingSafe(spec, cap) && now < start + WholeMs(spec.minTimeout)
    ensures var s, hs := NewSuspicion(spec, cap, Peer(0), start), Rumours(cap - 1, now);
            && |hs| == cap - 1
            && var early, late := After(spec, s, hs[..cap - 2]), After(spec, s, hs);
               early.pending.Some? && late.pending.Some? && early.pending.value < late.pending.value
  {
    RumoursCount(cap - 2, cap - 1, now);
    RumoursArm(spec, cap, start, now, cap - 2);
    RumoursArm(spec, cap, start, now, cap - 1);
    LastDue(spec, cap);
  }

  // ---------- The deadline, exactly ----------

  lemma RoundedDown(x: real)
    ensures var ms := (x / (NS_PER_MS as real)).Floor * NS_PER_MS;
            ms % 1_000_000 == 0 && ms as real <= x < (ms + 1_000_000) as real
  {
    var f := (x / (NS_PER_MS as real)).Floor;
    assert f as real <= x / (NS_PER_MS as real) < f as real + 1.0;
  }

  /** Between the first and the last, each number of confirmers has its own timeout: the part of the way
      from the long to the short one that its ratio says, rounded down to a millisecond. */
  lemma DueIsRounded(spec: Spec, cap: int, k: nat)
    requires 1 < k < cap
    ensures var due := Due(spec, cap, k);
            var exact := spec.maxTimeout as real - spec.ratio(k) * (spec.maxTimeout - spec.minTimeout) as real;
            due % 1_000_000 == 0 && due as real <= exact < (due + 1_000_000) as real
  {
    RoundedDown(Exact(spec, k));
  }

  /** `t` is the timeout that `k` confirmers of at most `cap` call for. */
  ghost predicate CalledFor(spec: Spec, cap: int, k: nat, t: int) {
    if k >= cap then t == spec.minTimeout
    else if k == 1 then t == spec.maxTimeout
    else
      var exact := spec.maxTimeout as real - spec.ratio(k) * (spec.maxTimeout - spec.minTimeout) as real;
      t % 1_000_000 == 0 && t as real <= exact < (t + 1_000_000) as real
  }

  /** Who has been heard to confirm. */
  function Voices(hs: seq<Happening>): set<Id> {
    if hs == [] then {} else Voices(hs[..|hs| - 1]) + Voice(hs[|hs| - 1])
  }

  function Voice(h: Happening): set<Id> {
    if h.Confirmed? then {h.from} else {}
  }

  ghost predicate Heard(s: Timing, voices: set<Id>) {
    && s.conf.confirmers <= voices && 1 <= |s.conf.confirmers| <= Max(1, s.conf.cap)
    && (|s.conf.confirmers| < s.conf.cap ==> s.conf.confirmers == voices)
  }

  lemma HappeningHeard(spec: Spec, s: Timing, h: Happening, voices: set<Id>)
    requires Heard(s, voices)
    ensures Heard(Happens(spec, s, h), voices + Voice(h))
    ensures Happens(spec, s, h).conf.cap == s.conf.cap
  {
  }

  lemma UnionAssociates(a: set<Id>, b: set<Id>, c: set<Id>)
    ensures a + (b + c) == a + b + c
  {
  }

  lemma {:induction false} HistoryHeard(spec: Spec, s: Timing, hs: seq<Happening>, first: set<Id>)
    requires Heard(s, first)
    ensures Heard(After(spec, s, hs), first + Voices(hs)) && After(spec, s, hs).conf.cap == s.conf.cap
  {
    if hs == [] {
      assert first + Voices(hs) == first;
    } else {
      var rest, h := hs[..|hs| - 1], hs[|hs| - 1];
      HistoryHeard(spec, s, rest, first);
      HappeningHeard(spec, After(spec, s, rest), h, first + Voices(rest));
      UnionAssociates(first, Voices(rest), Voice(h));
    }
  }

  lemma SubsetSize(a: set<Id>, b: set<Id>)
    requires a <= b
    ensures |a| <= |b|
  {
    assert b == a + (b - a);
  }

  /** Over any history, the confirmers counted are the distinct ones heard, up to the cap, and the armed
      deadline is the start plus the timeout that their number calls for. */
  lemma {:induction false} DeadlineIsExact(spec: Spec, cap: int, from: Id, now: int, hs: seq<Happening>)
    ensures var s, heard := After(spec, NewSuspicion(spec, cap, from, now), hs), |{from} + Voices(hs)|;
            && |s.conf.confirmers| == (if heard < Max(1, cap) then heard else Max(1, cap))
            && (s.pending.Some? ==> CalledFor(spec, cap, |s.conf.confirmers|, s.pending.value - now))
  {
    var s0 := NewSuspicion(spec, cap, from, now);
    var s := After(spec, s0, hs);
    HistoryKeeps(spec, s0, hs);
    HistoryHeard(spec, s0, hs, {from});
    SubsetSize(s.conf.confirmers, {from} + Voices(hs));
    if 1 < |s.conf.confirmers| < cap {
      DueIsRounded(spec, cap, |s.conf.confirmers|);
    }
  }

  /** An armed timer is fired by the clock exactly at its deadline, and by a new confirmer exactly if the
      timeout that it brings is over; anyone else leaves it alone. */
  lemma FiresExactly(spec: Spec, s: Timing, h: Happening)
    requires TimingInv(spec, s) && s.pending.Some?
    ensures var s' := Happens(spec, s, h);
            match h
            case Elapsed(now) =>
              && s'.conf == s.conf
              && (if now < s.pending.value then s' == s else s'.pending.None? && s'.firings == 1 && s'.firedAt == now)
            case Confirmed(from, now) =>
              var k := |s.conf.confirmers|;
              if from in s.conf.confirmers || k >= s.conf.cap then s' == s
              else if now < s.start + Due(spec, s.conf.cap, k + 1) then
                s'.pending == Some(s.start + Due(spec, s.conf.cap, k + 1))
              else s'.pending.None? && s'.firings == 1 && s'.firedAt == now
  {
  }

  // ---------- The object ----------

  class Suspicion {
    const spec: Spec
    const confirmCap: int
    const start: int
    var confirmMap: set<Id>
    var timer: Option<int>
    var firings: nat
    ghost var firedAt: int
    ghost var news: nat

    ghost function View(): Timing
      reads this
    {
      Timing(start, Confirmations(confirmCap, confirmMap), timer, firings, firedAt, news)
    }

    constructor (spec: Spec, confirmCap: int, from: Id, now: int)
      ensures this.spec == spec && View() == NewSuspicion(spec, confirmCap, from, now)
    {
      this.spec, this.confirmCap := spec, confirmCap;
      confirmMap := {from};
      var timeout := spec.maxTimeout;
      if confirmCap <= 1 {
        timeout := spec.minTimeout;
      }
      timer, start, firings := Some(now + timeout), now, 0;
      firedAt, news := now, 0;
    }

    method Confirm(from: Id, now: int) returns (isNew: bool)
      modifies this
      ensures View() == ConfirmAt(spec, old(View()), from, now)
      ensures isNew <==> from !in old(confirmMap) && from in confirmMap
      ensures isNew <==> news == old(news) + 1
    {
      if |confirmMap| >= confirmCap {
        return false;
      }
      if from in confirmMap {
        return false;
      }
      confirmMap := confirmMap + {from};
      news := news + 1;
      var remaining := Timeout(spec, confirmCap, |confirmMap|) - (now - start);
      if timer.Some? {
        if remaining > 0 {
          timer := Some(now + remaining);
        } else {
          timer, firings := None, firings + 1;
          firedAt := now;
        }
      }
      return true;
    }

    /** The runtime calls the timeout function at the deadline. */
    method Expire(now: int)
      modifies this
      ensures View() == ExpireAt(old(View()), now)
    {
      if timer.Some? && now >= timer.value {
        timer, firings := None, firings + 1;
        firedAt := now;
      }
    }
  }
}
