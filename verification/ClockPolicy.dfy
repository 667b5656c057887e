/** Interval decisions over clock samples, and what they mean for the true time. */
module ClockPolicy {
  import opened Wrappers
  import opened Domain
  import opened LedgerContracts

  const BILLION := 1_000_000_000
  const INT64_LIMIT := 0x7fff_ffff_ffff_ffff

  /** Operator budgets: nanoseconds, and drift in parts per billion. */
  datatype Limits = Limits(
    maxOffset: nat,
    maxUncertainty: nat,
    maxAge: nat,
    maxStep: nat,
    maxGap: nat,
    drift: nat)
  {
    predicate Valid() {
      && maxOffset <= INT64_LIMIT && maxUncertainty <= INT64_LIMIT
      && 1 <= maxAge <= INT64_LIMIT && 1 <= maxStep <= INT64_LIMIT && 1 <= maxGap <= INT64_LIMIT
      && drift < BILLION
    }
  }

  // ----- evidence age and error radius

  /** How far the error may have grown over an age, rounded outwards. */
  function Growth(drift: nat, age: nat): nat {
    (age * drift + (BILLION - 1)) / BILLION
  }

  function Gap(wall: int, error: nat, reference: int): nat {
    Max(0, wall + error - reference)
  }

  function EvidenceAge(drift: nat, wall: int, error: nat, reference: int): (age: int)
    requires drift < BILLION
  {
    var denominator := BILLION - drift;
    (Gap(wall, error, reference) * BILLION + denominator - 1) / denominator
  }

  function ErrorRadius(drift: nat, wall: int, error: nat, reference: int): int
    requires drift < BILLION
  {
    error + (EvidenceAge(drift, wall, error, reference) * drift + (BILLION - 1)) / BILLION
  }

  lemma {:induction false} TimesMonotone(a: int, b: int, d: int)
    requires d > 0
    ensures a <= b <==> a * d <= b * d
    ensures a < b ==> a * d + d <= b * d
  {
    var k := b - a;
    assert k * d == b * d - a * d;
    if k >= 1 {
      assert (k - 1) * d >= 0;
    } else {
      assert (0 - k) * d >= 0;
    }
  }

  /** Rounding up is the least integer above the quotient. */
  lemma {:induction false} CeilingIsLeast(n: int, d: int, a: int)
    requires d > 0
    ensures a >= (n + d - 1) / d <==> a * d >= n
  {
    var q := (n + d - 1) / d;
    TimesMonotone(q, a, d);
    TimesMonotone(a, q, d);
  }

  /**
   * The age found is the least one that covers the distance to the reference and the error
   * that very age adds: the fixed point is solved exactly, not approximated.
   */
  lemma {:induction false} AgeIsLeast(drift: nat, wall: int, error: nat, reference: int, a: nat)
    requires drift < BILLION
    ensures a >= EvidenceAge(drift, wall, error, reference)
            <==> a >= Gap(wall, error, reference) + Growth(drift, a)
    ensures EvidenceAge(drift, wall, error, reference) >= 0
  {
    var gap := Gap(wall, error, reference);
    CeilingIsLeast(gap * BILLION, BILLION - drift, a);
    CeilingIsLeast(gap * BILLION, BILLION - drift, -1);
    assert a * (BILLION - drift) == a * BILLION - a * drift;
    CeilingIsLeast(a * drift, BILLION, a - gap);
  }

  /** What is claimed of the true time: the initial error, plus drift since the reference. */
  predicate WithinDrift(drift: nat, wall: int, error: nat, reference: int, t: real) {
    var elapsed := if t < reference as real then 0.0 else t - reference as real;
    var bound := error as real + drift as real * elapsed / BILLION as real;
    -bound <= t - wall as real <= bound
  }

  predicate Within(wall: int, radius: int, t: real) {
    wall as real - radius as real <= t <= wall as real + radius as real
  }

  /** The true time since the reference cannot exceed the age found. */
  lemma {:induction false} ElapsedWithinAge(drift: nat, wall: int, error: nat, reference: int, t: real)
    requires drift < BILLION && t >= reference as real
    requires WithinDrift(drift, wall, error, reference, t)
    ensures t - reference as real <= EvidenceAge(drift, wall, error, reference) as real
  {
    var e, b := t - reference as real, BILLION as real;
    var den := (BILLION - drift) as real;
    var gap := Gap(wall, error, reference);
    var age := EvidenceAge(drift, wall, error, reference);
    CeilingIsLeast(gap * BILLION, BILLION - drift, age);
    assert age * (BILLION - drift) >= gap * BILLION;
    assert e - (wall - reference) as real <= error as real + drift as real * e / b;
    assert e * b <= (wall + error - reference) as real * b + drift as real * e by {
      assert (drift as real * e / b) * b == drift as real * e;
    }
    assert e * den == e * b - drift as real * e;
    assert e * den <= gap as real * b;
    assert gap as real * b == (gap * BILLION) as real;
    assert (age * (BILLION - drift)) as real == age as real * den;
    assert e * den <= age as real * den;
  }

  /** Drift over any time up to an age is covered by the growth over that age. */
  lemma {:induction false} GrowthCovers(drift: nat, age: nat, elapsed: real)
    requires 0.0 <= elapsed <= age as real
    ensures 0.0 <= drift as real * elapsed / BILLION as real <= Growth(drift, age) as real
  {
    var b, growth := BILLION as real, Growth(drift, age);
    CeilingIsLeast(age * drift, BILLION, growth);
    assert (age * drift) as real == drift as real * age as real;
    var p := drift as real * elapsed / b;
    assert p * b == drift as real * elapsed;
  }

  /** Main result: a true time within the claimed drift lies within the published radius. */
  lemma {:induction false} RadiusIsSound(drift: nat, wall: int, error: nat, reference: int, t: real)
    requires drift < BILLION && WithinDrift(drift, wall, error, reference, t)
    ensures Within(wall, ErrorRadius(drift, wall, error, reference), t)
  {
    var age := EvidenceAge(drift, wall, error, reference);
    AgeIsLeast(drift, wall, error, reference, 0);
    var elapsed := if t < reference as real then 0.0 else t - reference as real;
    if t >= reference as real { ElapsedWithinAge(drift, wall, error, reference, t); }
    hide EvidenceAge, Gap;
    GrowthCovers(drift, age, elapsed);
  }

  // ----- decisions

  /** The interval of a sample whose evidence is within budget. */
  function TimeInterval(sample: ClockSample, limits: Limits): Option<(int, int)> {
    var q := sample.quality;
    if q.status != Healthy || q.offset.None? || q.uncertainty.None? || q.age.None? then None
    else
      var offset, radius, age := q.offset.value, q.uncertainty.value, q.age.value;
      if Abs(offset) > limits.maxOffset || radius > limits.maxUncertainty || age > limits.maxAge then None
      else if radius < Abs(offset) || radius < Abs(offset) + (age * limits.drift + (BILLION - 1)) / BILLION then None
      else Some((sample.wall - radius, sample.wall + radius))
  }

  predicate IsFinal(sample: ClockSample, boundary: int, limits: Limits) {
    var interval := TimeInterval(sample, limits);
    interval.Some? && interval.value.0 > boundary
  }

  predicate ObservedBy(observation: ClockSample, cutoff: ClockSample, limits: Limits) {
    var observed, decision := TimeInterval(observation, limits), TimeInterval(cutoff, limits);
    observed.Some? && decision.Some? && observed.value.1 <= decision.value.0
  }

  /** A true time the sample's own error radius allows. */
  predicate Plausible(sample: ClockSample, t: real) {
    sample.quality.uncertainty.Some? && Within(sample.wall, sample.quality.uncertainty.value, t)
  }

  /** Observed before a cutoff means truly no later, and the relation chains. */
  lemma {:induction false} ObservedByOrders(
      a: ClockSample, b: ClockSample, c: ClockSample, limits: Limits, ta: real, tb: real)
    ensures ObservedBy(a, b, limits) && Plausible(a, ta) && Plausible(b, tb) ==> ta <= tb
    ensures ObservedBy(a, b, limits) && ObservedBy(b, c, limits) ==> ObservedBy(a, c, limits)
  {
    if ObservedBy(b, c, limits) {
      var (low, high) := TimeInterval(b, limits).value;
      assert low <= high;
    }
  }

  /** A final boundary has truly passed. */
  lemma {:induction false} FinalHasPassed(sample: ClockSample, boundary: int, limits: Limits, t: real)
    requires IsFinal(sample, boundary, limits) && Plausible(sample, t)
    ensures t > boundary as real
  {
  }

  /** What was final stays final at every later cutoff that has seen it. */
  lemma {:induction false} FinalityPersists(a: ClockSample, b: ClockSample, boundary: int, limits: Limits)
    requires IsFinal(a, boundary, limits) && ObservedBy(a, b, limits)
    ensures IsFinal(b, boundary, limits)
  {
    var (low, high) := TimeInterval(a, limits).value;
    assert low <= high;
  }

  // ----- the timing verdict on a publication

  /** True times of the two samples with the commit between them. */
  predicate CommitBetween(before: ClockSample, after: ClockSample, tb: real, commit: real, ta: real) {
    Plausible(before, tb) && Plausible(after, ta) && tb <= commit <= ta
  }

  /** An on-time commit truly fell by the deadline and before the endpoint. */
  lemma {:induction false} OnTimeMeetsDeadline(
      before: ClockSample, after: ClockSample, slot: Slot, tb: real, commit: real, ta: real)
    requires Timeliness(before, after, slot) == "on-time" && CommitBetween(before, after, tb, commit, ta)
    ensures commit <= slot.DeadlineNs() as real && commit < slot.EndpointNs() as real
    ensures ta >= slot.originNs as real
  {
  }

  /** A late commit's second sample truly fell after the deadline. */
  lemma {:induction false} LateMissesDeadline(before: ClockSample, after: ClockSample, slot: Slot, ta: real)
    requires Timeliness(before, after, slot) == "late" && Plausible(after, ta)
    ensures ta > slot.DeadlineNs() as real
  {
  }

  ghost predicate NeverBeforeOrigin(before: ClockSample, after: ClockSample, slot: Slot) {
    forall tb: real, commit: real, ta: real ::
      CommitBetween(before, after, tb, commit, ta) ==> slot.originNs as real <= commit
  }

  /**
   * An on-time verdict does not by itself place the commit after the origin: the first
   * sample is never compared with it. It does so exactly when that sample's whole interval
   * is at or past the origin.
   */
  lemma {:induction false} OnTimeAfterOrigin(before: ClockSample, after: ClockSample, slot: Slot)
    requires Timeliness(before, after, slot) == "on-time"
    ensures NeverBeforeOrigin(before, after, slot)
            <==> before.wall - before.quality.uncertainty.value >= slot.originNs
  {
    var low := (before.wall - before.quality.uncertainty.value) as real;
    var high := (after.wall + after.quality.uncertainty.value) as real;
    assert before.quality.uncertainty.value >= 0 && after.quality.uncertainty.value >= 0;
    assert low <= high;
    assert CommitBetween(before, after, low, low, high);
  }

  function Sharp(wall: int, monotonic: int): ClockSample {
    ClockSample(wall, monotonic, "s", TimeQuality("e:1", Healthy, Some(0), Some(0), Some(0)))
  }

  /** One such verdict: the commit falls a nanosecond before the origin, judged on time. */
  lemma {:induction false} OnTimeBeforeOrigin(slot: Slot)
    requires slot.horizonSeconds == 3600
    ensures Timeliness(Sharp(slot.originNs - 1, 0), Sharp(slot.originNs, 1), slot) == "on-time"
    ensures !NeverBeforeOrigin(Sharp(slot.originNs - 1, 0), Sharp(slot.originNs, 1), slot)
  {
    OnTimeAfterOrigin(Sharp(slot.originNs - 1, 0), Sharp(slot.originNs, 1), slot);
  }
}
