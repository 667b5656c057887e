/** The clock monitor: judging evidence, and invalidating it at every discontinuity. */
module Clock {
  import opened Wrappers
  import opened Canonical
  import opened Domain
  import opened ClockPolicy

  datatype Reading = Reading(wall: int, monotonic: nat, boottime: Option<nat>, session: string, capture: nat)

  datatype Evidence = Evidence(reference: nat, offset: int, uncertainty: nat, synchronized: bool)
  {
    predicate Valid() { Abs(offset) <= uncertainty }
  }

  /** What one sample reads: the clock, the daemon's evidence, and the clock again. */
  datatype Input = Input(before: Reading, evidence: Option<Evidence>, after: Reading)

  datatype Verdict = Verdict(
    status: Status, reason: string, offset: Option<int>, radius: Option<int>, age: Option<int>)

  datatype Health = Health(sample: ClockSample, reason: string)

  datatype Monitor = Monitor(
    previous: Option<Reading>,
    lastReference: Option<nat>,
    refreshAfter: Option<int>,
    epoch: nat,
    unmeasured: nat,
    health: Option<Health>)

  const START := Monitor(None, None, None, 0, 0, None)

  // ----- discontinuities

  function Discontinuity(l: Limits, a: Reading, b: Reading): Option<string> {
    var elapsed, allowance := b.monotonic - a.monotonic, l.maxStep + a.capture + b.capture;
    if a.session != b.session then Some("session_changed")
    else if elapsed < 0 then Some("monotonic_regression")
    else if a.boottime.Some? && b.boottime.Some? && b.boottime.value < a.boottime.value then
      Some("monotonic_regression")
    else if a.boottime.Some? && b.boottime.Some? &&
            Abs(b.boottime.value - a.boottime.value - elapsed) > allowance then Some("suspend")
    else if Abs(b.wall - a.wall - elapsed) > allowance then Some("clock_step")
    else if elapsed > l.maxGap then Some("sampling_gap")
    else None
  }

  /** Two readings are continuous exactly when every clock agrees about the time between them. */
  lemma {:induction false} ContinuityExactly(l: Limits, a: Reading, b: Reading)
    ensures Discontinuity(l, a, b).None? <==>
              && a.session == b.session
              && 0 <= b.monotonic - a.monotonic <= l.maxGap
              && Abs(Skew(b) - Skew(a)) <= l.maxStep + a.capture + b.capture
              && (a.boottime.Some? && b.boottime.Some? ==>
                    && a.boottime.value <= b.boottime.value
                    && Abs(Asleep(b) - Asleep(a)) <= l.maxStep + a.capture + b.capture)
  {
  }

  function Skew(r: Reading): int { r.wall - r.monotonic }

  /** Time spent suspended since boot, up to a constant. */
  function Asleep(r: Reading): int
    requires r.boottime.Some?
  {
    r.boottime.value - r.monotonic
  }

  predicate Synchronized(e: Option<Evidence>) { e.Some? && e.value.synchronized }

  /** The discontinuity around this sample: into it, within it, or over the whole of it. */
  function Jump(l: Limits, m: Monitor, x: Input): Option<string> {
    var within := Discontinuity(l, x.before, x.after);
    if m.previous.None? then within
    else
      var across := Discontinuity(l, m.previous.value, x.before);
      if across.Some? then across
      else if within.Some? then within
      else Discontinuity(l, m.previous.value, x.after)
  }

  function Disruption(l: Limits, m: Monitor, x: Input): Option<string> {
    if Jump(l, m, x).Some? then Jump(l, m, x)
    else if Synchronized(x.evidence) && m.lastReference.Some? &&
            x.evidence.value.reference < m.lastReference.value then Some("reference_regression")
    else None
  }

  /** A newer, not future, measurement makes past unmeasured change irrelevant. */
  predicate Resets(l: Limits, m: Monitor, x: Input) {
    && Disruption(l, m, x).None?
    && Synchronized(x.evidence)
    && m.lastReference.Some?
    && m.lastReference.value < x.evidence.value.reference <= x.after.wall + x.evidence.value.uncertainty
  }

  function Unmeasured(l: Limits, m: Monitor, x: Input): nat {
    if Resets(l, m, x) then 0
    else if m.previous.None? then m.unmeasured
    else
      m.unmeasured +
      Abs(x.after.wall - m.previous.value.wall - (x.after.monotonic - m.previous.value.monotonic))
  }

  /** Evidence must be newer than every wall reading and reference around a disruption. */
  function RefreshBound(m: Monitor, x: Input): int {
    Max(Max(x.before.wall, x.after.wall),
        Max(if m.previous.Some? then m.previous.value.wall else x.before.wall, m.lastReference.GetOr(0)))
  }

  function Refresh(l: Limits, m: Monitor, x: Input): Option<int> {
    if Disruption(l, m, x).Some? then Some(RefreshBound(m, x)) else m.refreshAfter
  }

  // ----- quality

  function InitialError(e: Evidence, reading: Reading, probe: nat, unmeasured: nat): nat {
    e.uncertainty + reading.capture + probe + unmeasured
  }

  function Judge(
      l: Limits, refreshAfter: Option<int>, unmeasured: nat, reading: Reading, evidence: Option<Evidence>, probe: nat):
      Verdict
    requires l.Valid()
  {
    if evidence.None? then Verdict(Unknown, "missing_evidence", None, None, None)
    else
      var e := evidence.value;
      var error := InitialError(e, reading, probe, unmeasured);
      var age := EvidenceAge(l.drift, reading.wall, error, e.reference);
      var radius := ErrorRadius(l.drift, reading.wall, error, e.reference);
      if !e.synchronized then Verdict(Degraded, "unsynchronized", Some(e.offset), Some(radius), Some(age))
      else if refreshAfter.Some? && e.reference <= refreshAfter.value then
        Verdict(Unknown, "awaiting_refresh", Some(e.offset), Some(radius), Some(age))
      else if e.reference > reading.wall + radius then
        Verdict(Unknown, "future_evidence", Some(e.offset), Some(radius), None)
      else if age > l.maxAge then Verdict(Unknown, "stale_evidence", Some(e.offset), Some(radius), Some(age))
      else if Abs(e.offset) > l.maxOffset then
        Verdict(Degraded, "excess_offset", Some(e.offset), Some(radius), Some(age))
      else if radius > l.maxUncertainty then
        Verdict(Degraded, "excess_uncertainty", Some(e.offset), Some(radius), Some(age))
      else if reading.boottime.None? then
        Verdict(Unknown, "unsupported_suspend_clock", Some(e.offset), Some(radius), Some(age))
      else Verdict(Healthy, "bounded_evidence", Some(e.offset), Some(radius), Some(age))
  }

  function Probe(x: Input): nat { Max(0, x.after.monotonic - x.before.monotonic) }

  function Judged(l: Limits, m: Monitor, x: Input): Verdict
    requires l.Valid()
  {
    Judge(l, Refresh(l, m, x), Unmeasured(l, m, x), x.after, x.evidence, Probe(x))
  }

  predicate Fits64(v: Option<int>) { v.Some? ==> Abs(v.value) <= INT64_LIMIT }

  /** What is published: never evidence too wide to store, never health across a disruption. */
  function Settle(v: Verdict, disruption: Option<string>, first: bool): Verdict {
    var w := if Fits64(v.offset) && Fits64(v.radius) && Fits64(v.age) then v
             else Verdict(Unknown, "unrepresentable_evidence", None, None, None);
    if disruption.Some? then
      var unknown := disruption.value == "session_changed" || disruption.value == "reference_regression";
      w.(status := if unknown then Unknown else Degraded, reason := disruption.value)
    else if first && w.status == Healthy then w.(status := Unknown, reason := "startup")
    else w
  }

  function Settled(l: Limits, m: Monitor, x: Input): Verdict
    requires l.Valid()
  {
    Settle(Judged(l, m, x), Disruption(l, m, x), m.previous.None?)
  }

  predicate Transition(m: Monitor, v: Verdict, disruption: Option<string>) {
    || m.health.None?
    || disruption.Some?
    || m.health.value.sample.quality.status != v.status
    || m.health.value.reason != v.reason
  }

  function EpochText(instance: string, epoch: nat): string {
    instance + ":" + Decimal(epoch)
  }

  function SampleOf(instance: string, epoch: nat, after: Reading, v: Verdict): ClockSample {
    ClockSample(
      after.wall, after.monotonic, after.session,
      TimeQuality(EpochText(instance, epoch), v.status, v.offset, v.radius, v.age))
  }

  function Step(l: Limits, instance: string, m: Monitor, x: Input): Monitor
    requires l.Valid()
  {
    var v := Settled(l, m, x);
    var epoch := m.epoch + if Transition(m, v, Disruption(l, m, x)) then 1 else 0;
    Monitor(
      Some(x.after),
      if x.evidence.Some? && (v.reason == "startup" || v.reason == "bounded_evidence")
      then Some(x.evidence.value.reference)
      else m.lastReference,
      if Judged(l, m, x).status == Healthy then None else Refresh(l, m, x),
      epoch,
      Unmeasured(l, m, x),
      Some(Health(SampleOf(instance, epoch, x.after, v), v.reason)))
  }

  class ClockMonitor {
    const limits: Limits
    const instance: string
    var previous: Option<Reading>
    var lastReference: Option<nat>
    var refreshAfter: Option<int>
    var epoch: nat
    var unmeasured: nat
    var health: Option<Health>

    constructor (limits: Limits, instance: string)
      requires limits.Valid()
      ensures this.limits == limits && this.instance == instance && State() == START
    {
      this.limits, this.instance := limits, instance;
      previous, lastReference, refreshAfter, health := None, None, None, None;
      epoch, unmeasured := 0, 0;
    }

    function State(): Monitor
      reads this
    {
      Monitor(previous, lastReference, refreshAfter, epoch, unmeasured, health)
    }

    method UpdateContinuity(before: Reading, after: Reading, evidence: Option<Evidence>)
      returns (disruption: Option<string>)
      modifies this`unmeasured, this`refreshAfter
      ensures var x := Input(before, evidence, after);
              && disruption == Disruption(limits, old(State()), x)
              && unmeasured == Unmeasured(limits, old(State()), x)
              && refreshAfter == Refresh(limits, old(State()), x)
    {
      disruption := Discontinuity(limits, before, after);
      if previous.Some? {
        var across := Discontinuity(limits, previous.value, before);
        if across.Some? { disruption := across; }
        if disruption.None? { disruption := Discontinuity(limits, previous.value, after); }
        unmeasured := unmeasured +
          Abs(after.wall - previous.value.wall - (after.monotonic - previous.value.monotonic));
      }
      if disruption.None? && Synchronized(evidence) && lastReference.Some? {
        if evidence.value.reference < lastReference.value {
          disruption := Some("reference_regression");
        } else if lastReference.value < evidence.value.reference <= after.wall + evidence.value.uncertainty {
          unmeasured := 0;
        }
      }
      if disruption.Some? {
        var earlier := if previous.Some? then previous.value.wall else before.wall;
        refreshAfter := Some(Max(Max(before.wall, after.wall), Max(earlier, lastReference.GetOr(0))));
      }
    }

    method Quality(reading: Reading, evidence: Option<Evidence>, probe: nat) returns (v: Verdict)
      requires limits.Valid()
      modifies this`refreshAfter
      ensures v == Judge(limits, old(refreshAfter), unmeasured, reading, evidence, probe)
      ensures refreshAfter == if v.status == Healthy then None else old(refreshAfter)
    {
      if evidence.None? { return Verdict(Unknown, "missing_evidence", None, None, None); }
      var e := evidence.value;
      var radius := e.uncertainty + reading.capture + probe + unmeasured;
      var denominator := BILLION - limits.drift;
      var age := (Max(0, reading.wall + radius - e.reference) * BILLION + denominator - 1) / denominator;
      radius := radius + (age * limits.drift + (BILLION - 1)) / BILLION;
      v := Verdict(Unknown, "", Some(e.offset), Some(radius), Some(age));
      if !e.synchronized { return v.(status := Degraded, reason := "unsynchronized"); }
      if refreshAfter.Some? && e.reference <= refreshAfter.value { return v.(reason := "awaiting_refresh"); }
      if e.reference > reading.wall + radius { return v.(reason := "future_evidence", age := None); }
      if age > limits.maxAge { return v.(reason := "stale_evidence"); }
      if Abs(e.offset) > limits.maxOffset { return v.(status := Degraded, reason := "excess_offset"); }
      if radius > limits.maxUncertainty { return v.(status := Degraded, reason := "excess_uncertainty"); }
      if reading.boottime.None? { return v.(reason := "unsupported_suspend_clock"); }
      refreshAfter := None;
      return v.(status := Healthy, reason := "bounded_evidence");
    }

    method RecordTransition(v: Verdict, disruption: Option<string>)
      modifies this`epoch
      ensures epoch == old(epoch) + if Transition(old(State()), v, disruption) then 1 else 0
    {
      if health.None? || disruption.Some? ||
         health.value.sample.quality.status != v.status || health.value.reason != v.reason
      {
        epoch := epoch + 1;
      }
    }

    /** Evidence too wide to store, a disruption, and a first sample each override the verdict. */
    method Override(judged: Verdict, disruption: Option<string>) returns (v: Verdict)
      ensures v == Settle(judged, disruption, previous.None?)
    {
      v := judged;
      if !Fits64(v.offset) || !Fits64(v.radius) || !Fits64(v.age) {
        v := Verdict(Unknown, "unrepresentable_evidence", None, None, None);
      }
      if disruption.Some? {
        var unknown := disruption.value == "session_changed" || disruption.value == "reference_regression";
        v := v.(status := if unknown then Unknown else Degraded, reason := disruption.value);
      } else if previous.None? && v.status == Healthy {
        v := v.(status := Unknown, reason := "startup");
      }
    }

    /** Read, judge, publish, remember. */
    method Sample(before: Reading, evidence: Option<Evidence>, after: Reading) returns (sample: ClockSample)
      requires limits.Valid()
      modifies this
      ensures State() == Step(limits, instance, old(State()), Input(before, evidence, after))
      ensures health.Some? && health.value.sample == sample
    {
      hide Disruption, Judge, Unmeasured, Refresh, SampleOf, Settle;
      var disruption := UpdateContinuity(before, after, evidence);
      var judged := Quality(after, evidence, Max(0, after.monotonic - before.monotonic));
      var v := Override(judged, disruption);
      RecordTransition(v, disruption);
      sample := SampleOf(instance, epoch, after, v);
      health := Some(Health(sample, v.reason));
      previous := Some(after);
      if evidence.Some? && (v.reason == "startup" || v.reason == "bounded_evidence") {
        lastReference := Some(evidence.value.reference);
      }
    }
  }

  // ----- every run

  /** The monitor after a run of samples. */
  function Run(l: Limits, instance: string, inputs: seq<Input>): Monitor
    requires l.Valid()
  {
    if inputs == [] then START
    else Step(l, instance, Run(l, instance, inputs[..|inputs| - 1]), inputs[|inputs| - 1])
  }

  /** The monitor as sample i finds it. */
  function Before(l: Limits, instance: string, inputs: seq<Input>, i: nat): Monitor
    requires l.Valid() && i <= |inputs|
  {
    Run(l, instance, inputs[..i])
  }

  lemma {:induction false} RunNext(l: Limits, instance: string, inputs: seq<Input>, i: nat)
    requires l.Valid() && i < |inputs|
    ensures Before(l, instance, inputs, i + 1) == Step(l, instance, Before(l, instance, inputs, i), inputs[i])
    ensures Before(l, instance, inputs, i + 1).previous == Some(inputs[i].after)
    ensures Before(l, instance, inputs, 0) == START
  {
    assert inputs[..i + 1][..i] == inputs[..i];
  }

  function DisruptionAt(l: Limits, instance: string, inputs: seq<Input>, i: nat): Option<string>
    requires l.Valid() && i < |inputs|
  {
    Disruption(l, Before(l, instance, inputs, i), inputs[i])
  }

  function PublishedAt(l: Limits, instance: string, inputs: seq<Input>, i: nat): Health
    requires l.Valid() && i < |inputs|
  {
    Step(l, instance, Before(l, instance, inputs, i), inputs[i]).health.value
  }

  predicate HealthyAt(l: Limits, instance: string, inputs: seq<Input>, i: nat)
    requires l.Valid() && i < |inputs|
  {
    PublishedAt(l, instance, inputs, i).sample.quality.status == Healthy
  }

  /** No discontinuity after sample i up to and including sample k. */
  ghost predicate Quiet(l: Limits, instance: string, inputs: seq<Input>, i: nat, k: nat)
    requires l.Valid() && i <= k < |inputs|
  {
    forall j | i < j <= k :: DisruptionAt(l, instance, inputs, j).None?
  }

  /** The first sample of a process, and every disrupted one, is not healthy. */
  lemma {:induction false} DisruptedNotHealthy(l: Limits, instance: string, inputs: seq<Input>, i: nat)
    requires l.Valid() && i < |inputs|
    requires i == 0 || DisruptionAt(l, instance, inputs, i).Some?
    ensures !HealthyAt(l, instance, inputs, i)
  {
    hide Disruption, Judge, Refresh, Unmeasured;
    var m := Before(l, instance, inputs, i);
    if HealthyAt(l, instance, inputs, i) {
    }
  }

  // ----- epochs

  lemma {:induction false} EpochStep(l: Limits, instance: string, inputs: seq<Input>, i: nat)
    requires l.Valid() && i < |inputs|
    ensures var m, n := Before(l, instance, inputs, i), Before(l, instance, inputs, i + 1);
            && n.health == Some(PublishedAt(l, instance, inputs, i))
            && n.health.value.sample.quality.epoch == EpochText(instance, n.epoch)
            && m.epoch <= n.epoch
            && (m.epoch == n.epoch ==>
                  && m.health.Some?
                  && DisruptionAt(l, instance, inputs, i).None?
                  && m.health.value.sample.quality.status == n.health.value.sample.quality.status
                  && m.health.value.reason == n.health.value.reason)
  {
    hide Disruption, Settled, Judged, Refresh, Unmeasured, Run, EpochText;
    RunNext(l, instance, inputs, i);
  }

  lemma {:induction false} EpochTextInjective(instance: string, a: nat, b: nat)
    requires EpochText(instance, a) == EpochText(instance, b)
    ensures a == b
  {
    var n := |instance| + 1;
    assert EpochText(instance, a)[n..] == Decimal(a);
    assert EpochText(instance, b)[n..] == Decimal(b);
    DecimalDigits(a);
    DecimalDigits(b);
  }

  lemma {:induction false} EpochsGrow(l: Limits, instance: string, inputs: seq<Input>, i: nat, j: nat)
    requires l.Valid() && i <= j <= |inputs|
    ensures Before(l, instance, inputs, i).epoch <= Before(l, instance, inputs, j).epoch
    decreases j
  {
    hide Run, Step;
    if i < j {
      EpochsGrow(l, instance, inputs, i, j - 1);
      EpochStep(l, instance, inputs, j - 1);
    }
  }

  /**
   * Main result: samples that carry one epoch carry one status and one reason, and no
   * disruption lies between them.
   */
  lemma {:induction false} OneEpoch(l: Limits, instance: string, inputs: seq<Input>, i: nat, j: nat)
    requires l.Valid() && i <= j < |inputs|
    requires PublishedAt(l, instance, inputs, i).sample.quality.epoch
             == PublishedAt(l, instance, inputs, j).sample.quality.epoch
    ensures PublishedAt(l, instance, inputs, i).reason == PublishedAt(l, instance, inputs, j).reason
    ensures PublishedAt(l, instance, inputs, i).sample.quality.status
            == PublishedAt(l, instance, inputs, j).sample.quality.status
    ensures Quiet(l, instance, inputs, i, j)
    decreases j
  {
    hide Run, Step, DisruptionAt, PublishedAt, EpochText;
    if i < j {
      EpochStep(l, instance, inputs, i);
      EpochStep(l, instance, inputs, j - 1);
      EpochStep(l, instance, inputs, j);
      EpochTextInjective(
        instance, Before(l, instance, inputs, i + 1).epoch, Before(l, instance, inputs, j + 1).epoch);
      EpochsGrow(l, instance, inputs, i + 1, j);
      OneEpoch(l, instance, inputs, i, j - 1);
    }
  }

  // ----- change the monotonic clock does not explain

  ghost predicate NoReset(l: Limits, instance: string, inputs: seq<Input>, i: nat, k: nat)
    requires l.Valid() && i <= k < |inputs|
  {
    forall j | i < j <= k :: !Resets(l, Before(l, instance, inputs, j), inputs[j])
  }

  /**
   * Since the last reset, the wall clock has moved against the monotonic clock by no more
   * than the accumulated amount, which every radius includes.
   */
  lemma {:induction false} SkewAccounted(l: Limits, instance: string, inputs: seq<Input>, i: nat, k: nat)
    requires l.Valid() && i <= k < |inputs| && NoReset(l, instance, inputs, i, k)
    ensures Before(l, instance, inputs, i + 1).unmeasured + Abs(Skew(inputs[k].after) - Skew(inputs[i].after))
            <= Before(l, instance, inputs, k + 1).unmeasured
    decreases k
  {
    hide Run, Judged, Settled, Resets, Refresh;
    if i < k {
      SkewAccounted(l, instance, inputs, i, k - 1);
      RunNext(l, instance, inputs, k - 1);
      RunNext(l, instance, inputs, k);
    }
  }

  // ----- after a disruption

  /** Synchronized evidence newer than the bound was read at sample j. */
  predicate Renewed(inputs: seq<Input>, j: nat, bound: int)
    requires j < |inputs|
  {
    Synchronized(inputs[j].evidence) && inputs[j].evidence.value.reference > bound
  }

  function BoundAt(l: Limits, instance: string, inputs: seq<Input>, i: nat): int
    requires l.Valid() && i < |inputs|
  {
    RefreshBound(Before(l, instance, inputs, i), inputs[i])
  }

  ghost predicate RenewedBetween(inputs: seq<Input>, i: nat, k: nat, bound: int)
    requires i <= k < |inputs|
  {
    exists j | i <= j <= k :: Renewed(inputs, j, bound)
  }

  lemma {:induction false} JudgedHealthy(l: Limits, m: Monitor, x: Input)
    requires l.Valid() && Judged(l, m, x).status == Healthy
    ensures Synchronized(x.evidence)
    ensures Refresh(l, m, x).Some? ==> x.evidence.value.reference > Refresh(l, m, x).value
  {
  }

  /** While nothing has renewed the evidence, the bound of the disruption stays in force. */
  lemma {:induction false} BoundInForce(l: Limits, instance: string, inputs: seq<Input>, i: nat, k: nat)
    requires l.Valid() && i <= k < |inputs|
    requires DisruptionAt(l, instance, inputs, i).Some? && Quiet(l, instance, inputs, i, k)
    ensures RenewedBetween(inputs, i, k, BoundAt(l, instance, inputs, i)) ||
            Before(l, instance, inputs, k + 1).refreshAfter == Some(BoundAt(l, instance, inputs, i))
    decreases k
  {
    hide Run, Judge, Settled, Unmeasured, Disruption, RefreshBound;
    var m, bound := Before(l, instance, inputs, k), BoundAt(l, instance, inputs, i);
    RunNext(l, instance, inputs, k);
    if i < k {
      BoundInForce(l, instance, inputs, i, k - 1);
      assert DisruptionAt(l, instance, inputs, k).None?;
    }
    if Judged(l, m, inputs[k]).status == Healthy {
      JudgedHealthy(l, m, inputs[k]);
      assert Refresh(l, m, inputs[k]) == Some(bound) ==> Renewed(inputs, k, bound);
    }
  }

  /**
   * Main result: a healthy sample after a disruption is preceded, no earlier than that
   * disruption, by synchronized evidence newer than every wall reading and accepted
   * reference around it.
   */
  lemma {:induction false} HealthNeedsRenewal(l: Limits, instance: string, inputs: seq<Input>, i: nat, k: nat)
    requires l.Valid() && i <= k < |inputs|
    requires DisruptionAt(l, instance, inputs, i).Some? && Quiet(l, instance, inputs, i, k)
    requires HealthyAt(l, instance, inputs, k)
    ensures RenewedBetween(inputs, i, k, BoundAt(l, instance, inputs, i))
  {
    hide Run, Judge, Unmeasured, Disruption, RefreshBound;
    if i == k {
      DisruptedNotHealthy(l, instance, inputs, i);
    } else {
      var m, bound := Before(l, instance, inputs, k), BoundAt(l, instance, inputs, i);
      BoundInForce(l, instance, inputs, i, k - 1);
      JudgedHealthy(l, m, inputs[k]);
      assert m.refreshAfter == Some(bound) ==> Renewed(inputs, k, bound);
    }
  }

  // ----- the evidence of the healthy sample itself

  /**
   * Whether the disrupted sample's own evidence lifts the bound that very sample sets: it is
   * newer than the bound, not from the future, and within every limit.
   */
  predicate Lifts(l: Limits, m: Monitor, x: Input)
    requires l.Valid()
  {
    && Synchronized(x.evidence) && x.after.boottime.Some?
    && var e, wall := x.evidence.value, x.after.wall;
       var error := InitialError(e, x.after, Probe(x), Unmeasured(l, m, x));
       && RefreshBound(m, x) < e.reference <= wall + ErrorRadius(l.drift, wall, error, e.reference)
       && EvidenceAge(l.drift, wall, error, e.reference) <= l.maxAge
       && Abs(e.offset) <= l.maxOffset
       && ErrorRadius(l.drift, wall, error, e.reference) <= l.maxUncertainty
  }

  /** Lifting is passing every check in spite of the disruption. */
  lemma {:induction false} LiftsExactly(l: Limits, m: Monitor, x: Input)
    requires l.Valid() && Disruption(l, m, x).Some?
    ensures Lifts(l, m, x) <==> Judged(l, m, x).status == Healthy
  {
    hide Disruption, Unmeasured, RefreshBound, EvidenceAge, ErrorRadius;
  }

  /** What a disrupted sample leaves behind: nothing accepted, and its bound unless lifted. */
  lemma {:induction false} AfterDisruption(l: Limits, instance: string, m: Monitor, x: Input)
    requires l.Valid() && Disruption(l, m, x).Some?
    ensures var n := Step(l, instance, m, x);
            && n.previous == Some(x.after) && n.lastReference == m.lastReference
            && n.unmeasured == Unmeasured(l, m, x)
            && n.refreshAfter == if Lifts(l, m, x) then None else Some(RefreshBound(m, x))
  {
    hide Judge, Unmeasured, RefreshBound, Lifts, SampleOf;
    LiftsExactly(l, m, x);
  }

  predicate LiftsOwnBound(l: Limits, instance: string, inputs: seq<Input>, i: nat)
    requires l.Valid() && i < |inputs|
  {
    Lifts(l, Before(l, instance, inputs, i), inputs[i])
  }

  lemma {:induction false} HealthyFits(l: Limits, m: Monitor, x: Input)
    requires l.Valid() && Judged(l, m, x).status == Healthy
    ensures Judged(l, m, x).reason == "bounded_evidence"
    ensures var v := Judged(l, m, x);
            Fits64(v.offset) && Fits64(v.radius) && Fits64(v.age)
    ensures Disruption(l, m, x).None? && m.previous.Some? ==> Settled(l, m, x) == Judged(l, m, x)
  {
    hide Disruption, Refresh, Unmeasured, ErrorRadius, EvidenceAge;
    var v := Judged(l, m, x);
    assert Fits64(v.offset) && Fits64(v.radius) && Fits64(v.age) by {
      AgeNonNegative(l, m, x);
    }
  }

  lemma {:induction false} AgeNonNegative(l: Limits, m: Monitor, x: Input)
    requires l.Valid() && x.evidence.Some?
    ensures var e, u := x.evidence.value, Unmeasured(l, m, x);
            var error := InitialError(e, x.after, Probe(x), u);
            0 <= EvidenceAge(l.drift, x.after.wall, error, e.reference)
            && error <= ErrorRadius(l.drift, x.after.wall, error, e.reference)
  {
    hide Unmeasured;
    var e := x.evidence.value;
    var error := InitialError(e, x.after, Probe(x), Unmeasured(l, m, x));
    AgeIsLeast(l.drift, x.after.wall, error, e.reference, 0);
    var age := EvidenceAge(l.drift, x.after.wall, error, e.reference);
    CeilingIsLeast(age * l.drift, BILLION, -1);
  }

  /** Once a later sample has accepted newer evidence, older evidence is a regression. */
  lemma {:induction false} NewerAccepted(l: Limits, instance: string, inputs: seq<Input>, i: nat, k: nat)
    requires l.Valid() && i <= k < |inputs|
    requires DisruptionAt(l, instance, inputs, i).Some? && Quiet(l, instance, inputs, i, k)
    requires !LiftsOwnBound(l, instance, inputs, i)
    ensures var n, bound := Before(l, instance, inputs, k + 1), BoundAt(l, instance, inputs, i);
            n.refreshAfter == Some(bound) || (n.lastReference.Some? && n.lastReference.value > bound)
    decreases k
  {
    hide Run, Judge, Settle, Unmeasured, Disruption, RefreshBound, SampleOf, Lifts;
    var m := Before(l, instance, inputs, k);
    RunNext(l, instance, inputs, k);
    if i == k {
      AfterDisruption(l, instance, m, inputs[k]);
    } else {
      NewerAccepted(l, instance, inputs, i, k - 1);
      RunNext(l, instance, inputs, k - 1);
      assert DisruptionAt(l, instance, inputs, k).None?;
      AcceptsForward(l, m, inputs[k]);
    }
  }

  lemma {:induction false} AcceptsForward(l: Limits, m: Monitor, x: Input)
    requires l.Valid() && Disruption(l, m, x).None? && m.previous.Some?
    ensures var v := Settled(l, m, x);
            v.reason == "startup" || v.reason == "bounded_evidence" ==>
              && Judged(l, m, x).status == Healthy && x.evidence.Some?
              && (m.lastReference.Some? ==> x.evidence.value.reference >= m.lastReference.value)
              && (m.refreshAfter.Some? ==> x.evidence.value.reference > m.refreshAfter.value)
    ensures Judged(l, m, x).status == Healthy ==> Settled(l, m, x).reason == "bounded_evidence"
  {
    hide Unmeasured, ErrorRadius, EvidenceAge, Jump;
    if Judged(l, m, x).status == Healthy { HealthyFits(l, m, x); }
  }

  /**
   * The healthy sample's own evidence is newer than the bound as well, unless the disrupted
   * sample's own evidence had passed every check and lifted the bound at once.
   */
  lemma {:induction false} OwnEvidenceIsNew(l: Limits, instance: string, inputs: seq<Input>, i: nat, k: nat)
    requires l.Valid() && i < k < |inputs|
    requires DisruptionAt(l, instance, inputs, i).Some? && Quiet(l, instance, inputs, i, k)
    requires HealthyAt(l, instance, inputs, k) && !LiftsOwnBound(l, instance, inputs, i)
    ensures Renewed(inputs, k, BoundAt(l, instance, inputs, i))
  {
    hide Run, Judge, Unmeasured, Disruption, RefreshBound;
    var m := Before(l, instance, inputs, k);
    NewerAccepted(l, instance, inputs, i, k - 1);
    RunNext(l, instance, inputs, k - 1);
    assert DisruptionAt(l, instance, inputs, k).None?;
    JudgedHealthy(l, m, inputs[k]);
    AcceptsForward(l, m, inputs[k]);
  }

  // ----- when old evidence can be accepted after all

  /** Change the clocks have not accounted for leaves room for evidence of a reference. */
  predicate Lingers(l: Limits, wall: int, unmeasured: nat, reference: int)
    requires l.Valid()
  {
    && EvidenceAge(l.drift, wall, unmeasured, reference) <= l.maxAge
    && ErrorRadius(l.drift, wall, unmeasured, reference) <= l.maxUncertainty
  }

  /**
   * The condition on the disrupted sample: its evidence lifts its own bound and, where no
   * evidence has ever been accepted, the unmeasured change leaves room at the bound.
   */
  predicate LetsOldEvidenceIn(l: Limits, m: Monitor, x: Input)
    requires l.Valid()
  {
    && Lifts(l, m, x)
    && (m.lastReference.None? ==> Lingers(l, x.after.wall, Unmeasured(l, m, x), RefreshBound(m, x)))
  }

  predicate ValidEvidence(inputs: seq<Input>) {
    forall x | x in inputs && x.evidence.Some? :: x.evidence.value.Valid()
  }

  /** These further samples are quiet, and the last is healthy on evidence from before the bound. */
  ghost predicate EndsOnOldEvidence(l: Limits, instance: string, inputs: seq<Input>, more: seq<Input>)
    requires l.Valid() && inputs != []
  {
    var all, i := inputs + more, |inputs| - 1;
    && more != [] && ValidEvidence(more)
    && Quiet(l, instance, all, i, |all| - 1)
    && HealthyAt(l, instance, all, |all| - 1)
    && !Renewed(all, |all| - 1, BoundAt(l, instance, inputs, i))
  }

  lemma {:induction false} RunExtended(l: Limits, instance: string, inputs: seq<Input>, more: seq<Input>)
    requires l.Valid()
    ensures forall j | 0 <= j <= |inputs| :: Before(l, instance, inputs + more, j) == Before(l, instance, inputs, j)
  {
    hide Run;
    forall j | 0 <= j <= |inputs|
      ensures Before(l, instance, inputs + more, j) == Before(l, instance, inputs, j)
    {
      assert (inputs + more)[..j] == inputs[..j];
    }
  }

  /** Less distance and less error to begin with make evidence younger and its radius smaller. */
  lemma {:induction false} LingersLonger(l: Limits, wall: int, error: nat, reference: int, w: int, e: nat, r: int)
    requires l.Valid() && error <= e && wall + error - reference <= w + e - r
    requires EvidenceAge(l.drift, w, e, r) <= l.maxAge && ErrorRadius(l.drift, w, e, r) <= l.maxUncertainty
    ensures Lingers(l, wall, error, reference)
  {
    hide EvidenceAge;
    var age, older := EvidenceAge(l.drift, wall, error, reference), EvidenceAge(l.drift, w, e, r);
    AgeIsLeast(l.drift, w, e, r, 0);
    AgeIsLeast(l.drift, w, e, r, older);
    AgeIsLeast(l.drift, wall, error, reference, older);
    AgeIsLeast(l.drift, wall, error, reference, 0);
    GrowthMonotone(l.drift, age, older);
  }

  lemma {:induction false} GrowthMonotone(drift: nat, a: nat, b: nat)
    requires a <= b
    ensures Growth(drift, a) <= Growth(drift, b)
  {
    var grown := Growth(drift, b);
    CeilingIsLeast(b * drift, BILLION, grown);
    assert b * drift - a * drift == (b - a) * drift >= 0;
    CeilingIsLeast(a * drift, BILLION, grown);
  }

  /**
   * While nothing has ever been accepted, no quiet sample is healthy on evidence from before
   * the bound unless there was room for it at the disruption.
   */
  lemma {:induction false} OldEvidenceLingers(l: Limits, instance: string, inputs: seq<Input>, i: nat, k: nat)
    requires l.Valid() && i <= k < |inputs|
    requires DisruptionAt(l, instance, inputs, i).Some? && Quiet(l, instance, inputs, i, k)
    requires Before(l, instance, inputs, i).lastReference.None?
    ensures var m, n, x := Before(l, instance, inputs, i), Before(l, instance, inputs, k + 1), inputs[i];
            || Lingers(l, x.after.wall, Unmeasured(l, m, x), RefreshBound(m, x))
            || (n.lastReference.Some? && n.lastReference.value > RefreshBound(m, x))
            || Unaccounted(n, x.after, inputs[k].after, Unmeasured(l, m, x))
    decreases k
  {
    hide Run, Judge, Settle, Disruption, RefreshBound, SampleOf, Lifts, Unmeasured, Lingers;
    var m := Before(l, instance, inputs, k);
    RunNext(l, instance, inputs, k);
    if i == k {
      AfterDisruption(l, instance, m, inputs[k]);
    } else {
      OldEvidenceLingers(l, instance, inputs, i, k - 1);
      RunNext(l, instance, inputs, k - 1);
      assert DisruptionAt(l, instance, inputs, k).None?;
      AcceptsForward(l, m, inputs[k]);
      var first, bound := Before(l, instance, inputs, i), BoundAt(l, instance, inputs, i);
      var u := Unmeasured(l, first, inputs[i]);
      if Unaccounted(m, inputs[i].after, inputs[k - 1].after, u) {
        QuietStep(l, instance, m, inputs[i].after, inputs[k], u, bound);
      }
    }
  }

  /** Nothing accepted yet, and all change of the clocks since a reading still unmeasured. */
  predicate Unaccounted(n: Monitor, since: Reading, now: Reading, unmeasured: nat) {
    && n.lastReference.None? && n.previous == Some(now)
    && since.monotonic <= now.monotonic
    && unmeasured + Abs(Skew(now) - Skew(since)) <= n.unmeasured
  }

  lemma {:induction false} QuietStep(
      l: Limits, instance: string, m: Monitor, since: Reading, x: Input, unmeasured: nat, bound: int)
    requires l.Valid() && Disruption(l, m, x).None? && m.previous.Some?
    requires Unaccounted(m, since, m.previous.value, unmeasured)
    ensures var n := Step(l, instance, m, x);
            || Lingers(l, since.wall, unmeasured, bound)
            || (n.lastReference.Some? && n.lastReference.value > bound)
            || Unaccounted(n, since, x.after, unmeasured)
  {
    hide Judge, Settle, SampleOf, Lifts, Lingers, EvidenceAge, ErrorRadius, Discontinuity;
    AcceptsForward(l, m, x);
    ContinuityExactly(l, m.previous.value, x.after);
    var u := Unmeasured(l, m, x);
    if Judged(l, m, x).status == Healthy && x.evidence.value.reference <= bound {
      HealthyWithin(l, m, x);
      var e := x.evidence.value;
      LingersLonger(
        l, since.wall, unmeasured, bound, x.after.wall, InitialError(e, x.after, Probe(x), u), e.reference);
    }
  }

  lemma {:induction false} HealthyWithin(l: Limits, m: Monitor, x: Input)
    requires l.Valid() && Judged(l, m, x).status == Healthy
    ensures x.evidence.Some?
    ensures var e := x.evidence.value;
            var error := InitialError(e, x.after, Probe(x), Unmeasured(l, m, x));
            && EvidenceAge(l.drift, x.after.wall, error, e.reference) <= l.maxAge
            && ErrorRadius(l.drift, x.after.wall, error, e.reference) <= l.maxUncertainty
  {
    hide Refresh, Unmeasured, EvidenceAge, ErrorRadius;
  }

  /** A further sample in which nothing has moved, with some evidence. */
  function AtRest(r: Reading, e: Evidence): Input {
    Input(r.(capture := 0), Some(e), r.(capture := 0))
  }

  lemma {:induction false} RestIsQuiet(l: Limits, m: Monitor, r: Reading, e: Evidence)
    requires l.Valid() && (m.previous == Some(r) || m.previous == Some(r.(capture := 0))) && e.synchronized
    requires m.lastReference.Some? ==> e.reference >= m.lastReference.value
    ensures Disruption(l, m, AtRest(r, e)).None? && Probe(AtRest(r, e)) == 0
    ensures Unmeasured(l, m, AtRest(r, e)) == if Resets(l, m, AtRest(r, e)) then 0 else m.unmeasured
  {
  }

  /** At rest, evidence within the limits is accepted. */
  lemma {:induction false} AcceptedAtRest(l: Limits, m: Monitor, r: Reading, e: Evidence)
    requires l.Valid() && (m.previous == Some(r) || m.previous == Some(r.(capture := 0)))
    requires m.refreshAfter.None? && r.boottime.Some?
    requires e.synchronized && e.offset == 0 && (m.lastReference.Some? ==> e.reference >= m.lastReference.value)
    requires var error := e.uncertainty + Unmeasured(l, m, AtRest(r, e));
             e.reference <= r.wall + error && Lingers(l, r.wall, error, e.reference)
    ensures Disruption(l, m, AtRest(r, e)).None? && Settled(l, m, AtRest(r, e)).status == Healthy
  {
    hide Unmeasured, EvidenceAge, ErrorRadius, Discontinuity, Disruption;
    RestIsQuiet(l, m, r, e);
    AgeNonNegative(l, m, AtRest(r, e));
    assert Judged(l, m, AtRest(r, e)).status == Healthy;
    HealthyFits(l, m, AtRest(r, e));
  }

  /** Newer evidence that is not accepted all the same makes past change irrelevant. */
  function Passing(l: Limits, wall: int, bound: nat): Evidence {
    Evidence(bound + 1, l.maxOffset + 1, Max(l.maxOffset + 1, bound + 1 - wall), true)
  }

  lemma {:induction false} PassingResets(l: Limits, instance: string, m: Monitor, r: Reading, bound: nat)
    requires l.Valid() && m.previous == Some(r) && m.refreshAfter.None?
    requires m.lastReference.Some? && m.lastReference.value <= bound
    ensures var z := AtRest(r, Passing(l, r.wall, bound));
            var n := Step(l, instance, m, z);
            && Disruption(l, m, z).None?
            && n.previous == Some(r.(capture := 0)) && n.refreshAfter.None? && n.unmeasured == 0
            && n.lastReference == m.lastReference
  {
    hide EvidenceAge, ErrorRadius, Discontinuity, SampleOf, Disruption;
    var e := Passing(l, r.wall, bound);
    RestIsQuiet(l, m, r, e);
    assert Judged(l, m, AtRest(r, e)).status != Healthy;
    AcceptsForward(l, m, AtRest(r, e));
  }

  /** Evidence just at the bound, no more certain than it has to be. */
  function Old(wall: int, unmeasured: nat, bound: nat): Evidence {
    Evidence(bound, 0, Max(0, bound - wall - unmeasured), true)
  }

  lemma {:induction false} OldFits(l: Limits, wall: int, unmeasured: nat, bound: nat)
    requires l.Valid() && bound - wall <= l.maxUncertainty
    requires Lingers(l, wall, unmeasured, bound) || unmeasured == 0
    requires wall <= bound
    ensures var error := Old(wall, unmeasured, bound).uncertainty + unmeasured;
            bound <= wall + error && Lingers(l, wall, error, bound)
  {
    if bound - wall > unmeasured || unmeasured == 0 {
      AgeIsLeast(l.drift, wall, bound - wall, bound, 0);
    }
  }

  /** The samples that make old evidence healthy after a disruption whose bound was lifted. */
  function Witness(l: Limits, m: Monitor, x: Input): seq<Input>
    requires l.Valid()
  {
    var r, bound := x.after, RefreshBound(m, x);
    if bound < 0 then []
    else if m.lastReference.None? then [AtRest(r, Old(r.wall, Unmeasured(l, m, x), bound))]
    else [AtRest(r, Passing(l, r.wall, bound)), AtRest(r, Old(r.wall, 0, bound))]
  }

  lemma {:induction false} LiftedLimits(l: Limits, m: Monitor, x: Input)
    requires l.Valid() && Lifts(l, m, x)
    ensures x.after.boottime.Some? && 0 <= RefreshBound(m, x)
    ensures 0 <= RefreshBound(m, x) - x.after.wall <= l.maxUncertainty
    ensures m.lastReference.Some? ==> m.lastReference.value <= RefreshBound(m, x)
  {
    hide EvidenceAge, ErrorRadius, Unmeasured;
  }

  lemma {:induction false} OldEvidenceReturns(l: Limits, instance: string, inputs: seq<Input>)
    requires l.Valid() && inputs != [] && DisruptionAt(l, instance, inputs, |inputs| - 1).Some?
    requires LetsOldEvidenceIn(l, Before(l, instance, inputs, |inputs| - 1), inputs[|inputs| - 1])
    ensures EndsOnOldEvidence(
              l, instance, inputs,
              Witness(l, Before(l, instance, inputs, |inputs| - 1), inputs[|inputs| - 1]))
  {
    hide Run, Disruption, Unmeasured, RefreshBound, Lifts, Lingers, Settled, Judged, Refresh;
    var i := |inputs| - 1;
    var m, x := Before(l, instance, inputs, i), inputs[i];
    var r, bound := x.after, RefreshBound(m, x);
    var more := Witness(l, m, x);
    var all := inputs + more;
    LiftedLimits(l, m, x);
    RunExtended(l, instance, inputs, more);
    RunNext(l, instance, all, i);
    AfterDisruption(l, instance, m, x);
    var n := Before(l, instance, all, i + 1);
    if m.lastReference.None? {
      OldFits(l, r.wall, n.unmeasured, bound);
      RestIsQuiet(l, n, r, Old(r.wall, n.unmeasured, bound));
      AcceptedAtRest(l, n, r, Old(r.wall, n.unmeasured, bound));
    } else {
      RunNext(l, instance, all, i + 1);
      PassingResets(l, instance, n, r, bound);
      OldFits(l, r.wall, 0, bound);
      var n2 := Before(l, instance, all, i + 2);
      RestIsQuiet(l, n2, r, Old(r.wall, 0, bound));
      AcceptedAtRest(l, n2, r, Old(r.wall, 0, bound));
    }
  }

  /**
   * Main result: after a disrupted sample, quiet samples can end in one that is healthy on
   * evidence from before the bound exactly when that sample lets it in.
   */
  lemma {:induction false} OldEvidenceExactly(l: Limits, instance: string, inputs: seq<Input>)
    requires l.Valid() && inputs != [] && DisruptionAt(l, instance, inputs, |inputs| - 1).Some?
    ensures (exists more :: EndsOnOldEvidence(l, instance, inputs, more))
            <==> LetsOldEvidenceIn(l, Before(l, instance, inputs, |inputs| - 1), inputs[|inputs| - 1])
  {
    hide Run, Disruption, Unmeasured, RefreshBound, Lifts, Lingers, Settled;
    var i := |inputs| - 1;
    if LetsOldEvidenceIn(l, Before(l, instance, inputs, i), inputs[i]) {
      OldEvidenceReturns(l, instance, inputs);
    }
    forall more | EndsOnOldEvidence(l, instance, inputs, more)
      ensures LetsOldEvidenceIn(l, Before(l, instance, inputs, i), inputs[i])
    {
      OldEvidenceNeeds(l, instance, inputs, more);
    }
  }

  lemma {:induction false} OldEvidenceNeeds(l: Limits, instance: string, inputs: seq<Input>, more: seq<Input>)
    requires l.Valid() && inputs != [] && DisruptionAt(l, instance, inputs, |inputs| - 1).Some?
    requires EndsOnOldEvidence(l, instance, inputs, more)
    ensures LetsOldEvidenceIn(l, Before(l, instance, inputs, |inputs| - 1), inputs[|inputs| - 1])
  {
    hide Run, Disruption, Unmeasured, RefreshBound, Lifts, Lingers, Judged, Refresh;
    var all, i := inputs + more, |inputs| - 1;
    var k := |all| - 1;
    RunExtended(l, instance, inputs, more);
    if !LiftsOwnBound(l, instance, all, i) { OwnEvidenceIsNew(l, instance, all, i, k); }
    var m := Before(l, instance, all, k);
    RunNext(l, instance, all, k);
    RunNext(l, instance, all, k - 1);
    assert DisruptionAt(l, instance, all, k).None?;
    AcceptsForward(l, m, all[k]);
    JudgedHealthy(l, m, all[k]);
    var n, bound := Before(l, instance, all, k + 1), BoundAt(l, instance, inputs, i);
    assert n.lastReference.Some? && n.lastReference.value <= bound;
    if Before(l, instance, all, i).lastReference.None? { OldEvidenceLingers(l, instance, all, i, k); }
  }

  const EXAMPLE_LIMITS := Limits(50_000_000, 100_000_000, 120_000_000_000, 50_000_000, 30_000_000_000, 0)
  const STEPPED := 60_000_100

  function At(wall: int): Reading { Reading(wall, 0, Some(0), "s", 0) }

  function Measured(reference: nat): Option<Evidence> { Some(Evidence(reference, 0, 1_000_000, true)) }

  /** A clock step of 60 ms, evidence a nanosecond newer than it, and then the old evidence. */
  function OldEvidenceRun(): seq<Input> {
    [Input(At(100), Measured(50), At(100)),
     Input(At(STEPPED), Measured(STEPPED + 1), At(STEPPED)),
     Input(At(STEPPED), Measured(50), At(STEPPED))]
  }

  lemma {:induction false} ExampleJudged(m: Monitor, x: Input, reference: nat, unmeasured: nat)
    requires x.after.boottime.Some? && x.after.capture == 0 && Probe(x) == 0
    requires x.evidence == Measured(reference) && Unmeasured(EXAMPLE_LIMITS, m, x) == unmeasured <= 60_000_000
    requires Refresh(EXAMPLE_LIMITS, m, x).Some? ==> Refresh(EXAMPLE_LIMITS, m, x).value < reference
    requires x.after.wall - 100_000_000 <= reference <= x.after.wall + 1_000_000
    ensures Judged(EXAMPLE_LIMITS, m, x).status == Healthy
  {
    hide Disruption, Unmeasured, Refresh;
  }

  lemma {:induction false} FirstStep(instance: string)
    ensures var n := Step(EXAMPLE_LIMITS, instance, START, OldEvidenceRun()[0]);
            n.lastReference == Some(50) && n.refreshAfter.None? && n.unmeasured == 0
  {
    hide Judge, SampleOf;
    ExampleJudged(START, OldEvidenceRun()[0], 50, 0);
    HealthyFits(EXAMPLE_LIMITS, START, OldEvidenceRun()[0]);
  }

  lemma {:induction false} SecondStep(instance: string, m: Monitor)
    requires m.previous == Some(At(100)) && m.lastReference == Some(50) && m.refreshAfter.None? && m.unmeasured == 0
    ensures var n := Step(EXAMPLE_LIMITS, instance, m, OldEvidenceRun()[1]);
            n.lastReference == Some(50) && n.refreshAfter.None? && n.unmeasured == 60_000_000
    ensures Disruption(EXAMPLE_LIMITS, m, OldEvidenceRun()[1]) == Some("clock_step")
    ensures RefreshBound(m, OldEvidenceRun()[1]) == STEPPED
  {
    hide Judge, SampleOf;
    var x := OldEvidenceRun()[1];
    assert Disruption(EXAMPLE_LIMITS, m, x) == Some("clock_step");
    ExampleJudged(m, x, STEPPED + 1, 60_000_000);
  }

  lemma {:induction false} ThirdStep(instance: string, m: Monitor)
    requires m.previous == Some(At(STEPPED)) && m.lastReference == Some(50) && m.refreshAfter.None?
    requires m.unmeasured == 60_000_000
    ensures Disruption(EXAMPLE_LIMITS, m, OldEvidenceRun()[2]).None?
    ensures Settled(EXAMPLE_LIMITS, m, OldEvidenceRun()[2]).status == Healthy
  {
    hide Judge;
    var x := OldEvidenceRun()[2];
    assert Disruption(EXAMPLE_LIMITS, m, x).None?;
    ExampleJudged(m, x, 50, 60_000_000);
    HealthyFits(EXAMPLE_LIMITS, m, x);
  }

  /** The exception is real: a sample is healthy on evidence from before the clock stepped. */
  lemma {:induction false} OldEvidenceAccepted(instance: string)
    ensures var l, inputs := EXAMPLE_LIMITS, OldEvidenceRun();
            && DisruptionAt(l, instance, inputs, 1) == Some("clock_step")
            && Quiet(l, instance, inputs, 1, 2)
            && HealthyAt(l, instance, inputs, 2)
            && !Renewed(inputs, 2, BoundAt(l, instance, inputs, 1))
  {
    hide Run, Settled, Judged, Disruption, RefreshBound, Refresh, Unmeasured;
    var l, inputs := EXAMPLE_LIMITS, OldEvidenceRun();
    RunNext(l, instance, inputs, 0);
    FirstStep(instance);
    RunNext(l, instance, inputs, 1);
    SecondStep(instance, Before(l, instance, inputs, 1));
    RunNext(l, instance, inputs, 2);
    ThirdStep(instance, Before(l, instance, inputs, 2));
  }

  // ----- what a healthy sample is worth

  /** The error claimed of a sample's evidence: its own, the readings', and unmeasured change. */
  function ErrorAt(l: Limits, instance: string, inputs: seq<Input>, i: nat): nat
    requires l.Valid() && i < |inputs| && inputs[i].evidence.Some?
  {
    InitialError(
      inputs[i].evidence.value, inputs[i].after, Probe(inputs[i]),
      Unmeasured(l, Before(l, instance, inputs, i), inputs[i]))
  }

  lemma {:induction false} HealthyPublishes(l: Limits, instance: string, inputs: seq<Input>, i: nat)
    requires l.Valid() && i < |inputs| && HealthyAt(l, instance, inputs, i)
    ensures Synchronized(inputs[i].evidence)
    ensures var e, error := inputs[i].evidence.value, ErrorAt(l, instance, inputs, i);
            var q, wall := PublishedAt(l, instance, inputs, i).sample.quality, inputs[i].after.wall;
            && PublishedAt(l, instance, inputs, i).sample.wall == wall
            && q.offset == Some(e.offset) && Abs(e.offset) <= l.maxOffset
            && q.uncertainty == Some(ErrorRadius(l.drift, wall, error, e.reference))
            && q.uncertainty.value <= l.maxUncertainty
            && q.age == Some(EvidenceAge(l.drift, wall, error, e.reference)) && q.age.value <= l.maxAge
  {
    hide Run, Unmeasured, Disruption, Refresh, EvidenceAge, ErrorRadius;
    var m := Before(l, instance, inputs, i);
  }

  lemma {:induction false} AcceptedWithin(sample: ClockSample, l: Limits, offset: int, error: nat, age: nat)
    requires sample.quality.status == Healthy && sample.quality.offset == Some(offset)
    requires sample.quality.age == Some(age)
    requires sample.quality.uncertainty == Some(error + (age * l.drift + (BILLION - 1)) / BILLION)
    requires Abs(offset) <= error && Abs(offset) <= l.maxOffset && age <= l.maxAge
    requires sample.quality.uncertainty.value <= l.maxUncertainty
    ensures TimeInterval(sample, l).Some?
  {
    CeilingIsLeast(age * l.drift, BILLION, -1);
  }

  /**
   * Main result: every healthy sample is accepted by the interval policy under the same
   * limits, and if the evidence's claims hold the true time lies in that interval.
   */
  lemma {:induction false} HealthySampleSound(l: Limits, instance: string, inputs: seq<Input>, i: nat, t: real)
    requires l.Valid() && i < |inputs| && HealthyAt(l, instance, inputs, i)
    requires inputs[i].evidence.Some? && inputs[i].evidence.value.Valid()
    ensures var sample := PublishedAt(l, instance, inputs, i).sample;
            var e, error := inputs[i].evidence.value, ErrorAt(l, instance, inputs, i);
            && TimeInterval(sample, l).Some?
            && (WithinDrift(l.drift, sample.wall, error, e.reference, t) ==> Plausible(sample, t))
  {
    hide Before, PublishedAt, EvidenceAge, WithinDrift, Unmeasured, TimeInterval;
    HealthyPublishes(l, instance, inputs, i);
    var sample := PublishedAt(l, instance, inputs, i).sample;
    var e, error := inputs[i].evidence.value, ErrorAt(l, instance, inputs, i);
    AgeIsLeast(l.drift, sample.wall, error, e.reference, 0);
    AcceptedWithin(sample, l, e.offset, error, EvidenceAge(l.drift, sample.wall, error, e.reference));
    if WithinDrift(l.drift, sample.wall, error, e.reference, t) {
      RadiusIsSound(l.drift, sample.wall, error, e.reference, t);
    }
  }
}
