/** Recipes over selected candles: coverage, strict observation, retention, lags and labels. */
module Recipes {
  import opened Wrappers
  import opened Domain
  import opened ClockPolicy
  import opened Sorting
  import opened Selection

  // ----- coverage

  datatype Coverage = Complete | Pending | Uncertain | Unrecoverable

  datatype Claim = Claim(
    instrument: InstrumentId, interval: int, start: int, end: int, status: Coverage, detected: ClockSample)

  function EndOf(key: CandleKey): int { key.start + key.interval }

  /** A claim about this candle's series that overlaps its interval. */
  predicate Bears(c: Claim, key: CandleKey) {
    && c.instrument == key.instrument
    && c.interval == key.interval
    && c.start < EndOf(key)
    && key.start < c.end
  }

  function Bearing(claims: seq<Claim>, key: CandleKey): (r: seq<Claim>)
    ensures forall c :: c in r <==> c in claims && Bears(c, key)
  {
    if claims == [] then []
    else
      var last := claims[|claims| - 1];
      assert claims == claims[..|claims| - 1] + [last];
      Bearing(claims[..|claims| - 1], key) + if Bears(last, key) then [last] else []
  }

  predicate Claimed(claims: seq<Claim>, key: CandleKey, status: Coverage) {
    exists c | c in claims :: Bears(c, key) && c.status == status
  }

  predicate CoveredAt(claims: seq<Claim>, key: CandleKey, t: int) {
    exists c | c in claims :: Bears(c, key) && c.start <= t < c.end
  }

  ghost predicate CoveredUpTo(claims: seq<Claim>, key: CandleKey, end: int) {
    forall t | key.start <= t < end :: CoveredAt(claims, key, t)
  }

  /** The worst bearing claim; complete only if nothing is unresolved and no instant is missed. */
  ghost predicate HasCoverage(claims: seq<Claim>, key: CandleKey, status: Coverage) {
    if Claimed(claims, key, Unrecoverable) then status == Unrecoverable
    else if Claimed(claims, key, Uncertain) then status == Uncertain
    else if Claimed(claims, key, Pending) then status == Pending
    else status == if CoveredUpTo(claims, key, EndOf(key)) then Complete else Uncertain
  }

  function ClaimRank(c: Claim): Rank { [Number(c.start), Number(c.end)] }

  /** Claims sorted by start are sorted by start. */
  lemma {:induction false} SortedByStart(xs: seq<Claim>, i: nat, j: nat)
    requires Ascending(ClaimRank, xs) && i <= j < |xs|
    ensures xs[i].start <= xs[j].start
  {
    if i < j && xs[j].start < xs[i].start {
      assert PartLess(ClaimRank(xs[j])[0], ClaimRank(xs[i])[0]);
      assert Less(ClaimRank(xs[j]), ClaimRank(xs[i]));
      assert false;
    }
  }

  /** Sweep the bearing claims from the left, keeping how far they reach without a gap. */
  method Sweep(claims: seq<Claim>, key: CandleKey) returns (cursor: int)
    ensures CoveredUpTo(claims, key, cursor)
    ensures cursor < EndOf(key) ==> !CoveredAt(claims, key, cursor) && key.start <= cursor
  {
    hide Bears, Less, ClaimRank;
    var bearing := SortBy(ClaimRank, Bearing(claims, key));
    SortSorts(ClaimRank, Bearing(claims, key));
    cursor := key.start;
    var i := 0;
    while i < |bearing|
      invariant 0 <= i <= |bearing| && key.start <= cursor
      invariant CoveredUpTo(claims, key, cursor)
      invariant forall j | 0 <= j < i :: bearing[j].end <= cursor
    {
      InBoth(bearing, Bearing(claims, key), bearing[i]);
      if bearing[i].start > cursor { break; }
      cursor := Max(cursor, bearing[i].end);
      i := i + 1;
    }
    forall c | c in claims && Bears(c, key) ensures !(c.start <= cursor < c.end) {
      InBoth(bearing, Bearing(claims, key), c);
      var j :| 0 <= j < |bearing| && bearing[j] == c;
      if j >= i { SortedByStart(bearing, i, j); }
    }
  }

  method CoverageStatus(key: CandleKey, claims: seq<Claim>) returns (status: Coverage)
    ensures HasCoverage(claims, key, status)
  {
    hide Bears, CoveredUpTo, CoveredAt;
    var bearing := Bearing(claims, key);
    if exists c | c in bearing :: c.status == Unrecoverable { return Unrecoverable; }
    if exists c | c in bearing :: c.status == Uncertain { return Uncertain; }
    if exists c | c in bearing :: c.status == Pending { return Pending; }
    var cursor := Sweep(claims, key);
    ReachesEnd(claims, key, cursor);
    status := if cursor >= EndOf(key) then Complete else Uncertain;
  }

  lemma {:induction false} ReachesEnd(claims: seq<Claim>, key: CandleKey, cursor: int)
    requires CoveredUpTo(claims, key, cursor)
    requires cursor < EndOf(key) ==> !CoveredAt(claims, key, cursor) && key.start <= cursor
    ensures CoveredUpTo(claims, key, EndOf(key)) <==> cursor >= EndOf(key)
  {
  }

  predicate CompleteAt(claims: seq<Claim>, key: CandleKey, t: int) {
    exists c | c in claims :: Bears(c, key) && c.status == Complete && c.start <= t < c.end
  }

  /**
   * Main result: complete exactly when no bearing claim is unresolved and every instant of
   * the candle lies in a bearing, complete claim.
   */
  lemma {:induction false} CompleteExactly(claims: seq<Claim>, key: CandleKey, status: Coverage)
    requires HasCoverage(claims, key, status)
    ensures status == Complete <==>
              && (forall c | c in claims && Bears(c, key) :: c.status == Complete)
              && (forall t | key.start <= t < EndOf(key) :: CompleteAt(claims, key, t))
  {
    hide Bears, EndOf;
    if forall c | c in claims && Bears(c, key) :: c.status == Complete {
      assert !Claimed(claims, key, Unrecoverable) && !Claimed(claims, key, Uncertain);
      assert !Claimed(claims, key, Pending);
      forall t: int ensures CompleteAt(claims, key, t) <==> CoveredAt(claims, key, t) {
      }
    } else {
      var c :| c in claims && Bears(c, key) && c.status != Complete;
      assert Claimed(claims, key, c.status);
    }
  }

  /** The status depends on which claims there are, not on their order or number. */
  lemma {:induction false} CoverageOrderFree(a: seq<Claim>, b: seq<Claim>, key: CandleKey, s: Coverage, t: Coverage)
    requires forall c :: c in a <==> c in b
    requires HasCoverage(a, key, s) && HasCoverage(b, key, t)
    ensures s == t
  {
    hide Bears;
    forall status ensures Claimed(a, key, status) <==> Claimed(b, key, status) {
    }
    forall x: int ensures CoveredAt(a, key, x) <==> CoveredAt(b, key, x) {
    }
  }

  // ----- policies and records

  datatype Mode = HistoricalReconstruction | AsObserved

  datatype RevisionChoice = Latest | First

  datatype Strictness = Include | Exclude | Require

  datatype Policy = Policy(
    mode: Mode,
    revision: RevisionChoice,
    coverage: Strictness,
    timeQuality: Strictness,
    finalizedOnly: bool,
    lagSteps: nat,
    labelSteps: nat)

  datatype Reason = NotProvenBeforeCutoff | NotFinalized | TimeQualityDoubt | CoverageDoubt(status: Coverage)

  /** A record of a doubt about an input; it drops the input or merely notes the doubt. */
  datatype Record = Record(identity: IngestionId, reason: Reason, drops: bool)

  // ----- strict observation

  predicate Proven(s: Source, cutoff: ClockSample, limits: Limits) {
    ObservedBy(s.receipt, cutoff, limits)
  }

  function Eligible(sources: seq<Source>, cutoff: ClockSample, limits: Limits): (r: seq<Source>)
    ensures forall s :: s in r <==> s in sources && Proven(s, cutoff, limits)
  {
    if sources == [] then []
    else
      var last := sources[|sources| - 1];
      assert sources == sources[..|sources| - 1] + [last];
      Eligible(sources[..|sources| - 1], cutoff, limits) + if Proven(last, cutoff, limits) then [last] else []
  }

  function Unproven(sources: seq<Source>, cutoff: ClockSample, limits: Limits): seq<Record> {
    if sources == [] then []
    else
      var last := sources[|sources| - 1];
      Unproven(sources[..|sources| - 1], cutoff, limits) +
      if Proven(last, cutoff, limits) then [] else [Record(last.identity, NotProvenBeforeCutoff, true)]
  }

  predicate Refused(s: Source) { s.kind == Conflict || s.kind == Rejected }

  /** Keep what was provably received before the cutoff; a known invalid input is an error. */
  method StrictEligible(sources: seq<Source>, cutoff: ClockSample, limits: Limits)
    returns (r: Option<(seq<Source>, seq<Record>)>)
    ensures r.Some? <==> forall s | s in sources :: !Refused(s)
    ensures r.Some? ==> r.value == (Eligible(sources, cutoff, limits), Unproven(sources, cutoff, limits))
  {
    hide Proven;
    var eligible: seq<Source>, exclusions: seq<Record> := [], [];
    var i := 0;
    while i < |sources|
      invariant 0 <= i <= |sources| && forall j | 0 <= j < i :: !Refused(sources[j])
      invariant eligible == Eligible(sources[..i], cutoff, limits)
      invariant exclusions == Unproven(sources[..i], cutoff, limits)
    {
      var source := sources[i];
      assert sources[..i + 1][..i] == sources[..i];
      if source.kind == Conflict || source.kind == Rejected {
        assert Refused(source);
        return None;
      }
      if !Proven(source, cutoff, limits) {
        exclusions := exclusions + [Record(source.identity, NotProvenBeforeCutoff, true)];
      } else {
        eligible := eligible + [source];
      }
      i := i + 1;
    }
    assert sources[..i] == sources;
    r := Some((eligible, exclusions));
  }

  function SeenClaims(claims: seq<Claim>, cutoff: ClockSample, limits: Limits): (r: seq<Claim>)
    ensures forall c :: c in r <==> c in claims && ObservedBy(c.detected, cutoff, limits)
  {
    if claims == [] then []
    else
      var last := claims[|claims| - 1];
      assert claims == claims[..|claims| - 1] + [last];
      SeenClaims(claims[..|claims| - 1], cutoff, limits) +
      if ObservedBy(last.detected, cutoff, limits) then [last] else []
  }

  /** Whether the cutoff suits the mode: a healthy one when observing, none otherwise. */
  predicate CutoffOk(policy: Policy, cutoff: Option<ClockSample>, limits: Limits) {
    if policy.mode == AsObserved then cutoff.Some? && TimeInterval(cutoff.value, limits).Some?
    else cutoff.None?
  }

  /** The inputs and claims that the recipe may look at. */
  function VisibleSources(
      sources: seq<Source>, policy: Policy, cutoff: Option<ClockSample>, limits: Limits): seq<Source>
  {
    if policy.mode == AsObserved && cutoff.Some? then Eligible(sources, cutoff.value, limits) else sources
  }

  function VisibleClaims(claims: seq<Claim>, policy: Policy, cutoff: Option<ClockSample>, limits: Limits): seq<Claim> {
    if policy.mode == AsObserved && cutoff.Some? then SeenClaims(claims, cutoff.value, limits) else claims
  }

  function Omissions(sources: seq<Source>, policy: Policy, cutoff: Option<ClockSample>, limits: Limits): seq<Record> {
    if policy.mode == AsObserved && cutoff.Some? then Unproven(sources, cutoff.value, limits) else []
  }

  ghost predicate Observable(sources: seq<Source>, policy: Policy, cutoff: Option<ClockSample>, limits: Limits) {
    && Selectable(sources) && CutoffOk(policy, cutoff, limits)
    && Selectable(VisibleSources(sources, policy, cutoff, limits))
  }

  lemma {:induction false} SelectableNotRefused(sources: seq<Source>)
    requires Selectable(sources)
    ensures forall s | s in sources :: !Refused(s)
  {
    hide RunKey, About;
    SortSorts(SourceRank, sources);
    forall s | s in sources ensures !Refused(s) {
      InBoth(InOrder(sources), sources, s);
    }
  }

  /** Validate the whole history first; only then look at what the cutoff allows. */
  method ObservedSelection(
      sources: seq<Source>, policy: Policy, cutoff: Option<ClockSample>, limits: Limits, coverage: seq<Claim>)
    returns (r: Option<(seq<SelectedCandle>, seq<Claim>, seq<Record>)>)
    ensures r.Some? <==> Observable(sources, policy, cutoff, limits)
    ensures r.Some? ==>
              && IsSelection(InOrder(VisibleSources(sources, policy, cutoff, limits)), r.value.0)
              && r.value.1 == VisibleClaims(coverage, policy, cutoff, limits)
              && r.value.2 == Omissions(sources, policy, cutoff, limits)
  {
    hide Selectable, IsSelection, TimeInterval, ObservedBy;
    var selected := SelectCandles(sources);
    if selected.None? { return None; }
    if policy.mode == AsObserved {
      if cutoff.None? || TimeInterval(cutoff.value, limits).None? { return None; }
      SelectableNotRefused(sources);
      var strict := StrictEligible(sources, cutoff.value, limits);
      var (eligible, excluded) := strict.value;
      selected := SelectCandles(eligible);
      if selected.None? { return None; }
      r := Some((selected.value, SeenClaims(coverage, cutoff.value, limits), excluded));
    } else {
      if cutoff.Some? { return None; }
      r := Some((selected.value, coverage, []));
    }
  }

  // ----- retention

  predicate Timely(s: Source, limits: Limits) { TimeInterval(s.receipt, limits).Some? }

  ghost predicate Covered(s: Source, claims: seq<Claim>) {
    s.semantics.Some? && HasCoverage(claims, s.semantics.value.key, Complete)
  }

  predicate FinalEnough(s: Source, policy: Policy) {
    policy.finalizedOnly ==> s.semantics.Some? && s.semantics.value.finalized
  }

  /** What the three policies together let through. */
  ghost predicate Retained(s: Source, policy: Policy, limits: Limits, claims: seq<Claim>) {
    && FinalEnough(s, policy)
    && (policy.timeQuality == Exclude ==> Timely(s, limits))
    && (policy.coverage == Exclude ==> Covered(s, claims))
  }

  /** A requirement fails on an input that no earlier policy has dropped. */
  ghost predicate Unacceptable(s: Source, policy: Policy, limits: Limits, claims: seq<Claim>) {
    && FinalEnough(s, policy)
    && ((policy.timeQuality == Require && !Timely(s, limits)) ||
        (policy.coverage == Require && !Covered(s, claims) && (policy.timeQuality == Exclude ==> Timely(s, limits))))
  }

  function Drops(records: seq<Record>): seq<IngestionId> {
    if records == [] then []
    else
      var last := records[|records| - 1];
      Drops(records[..|records| - 1]) + if last.drops then [last.identity] else []
  }

  lemma {:induction false} DropsJoin(a: seq<Record>, b: seq<Record>)
    ensures Drops(a + b) == Drops(a) + Drops(b)
  {
    if b == [] {
      assert a + b == a;
    } else {
      assert (a + b)[..|a + b| - 1] == a + b[..|b| - 1];
      DropsJoin(a, b[..|b| - 1]);
    }
  }

  lemma {:induction false} OneRecord(r: Record)
    ensures Drops([r]) == if r.drops then [r.identity] else []
  {
    assert [r][..0] == [];
  }

  /** Finality, then clock, then coverage, each noting its doubt. */
  method RetainSource(source: Source, policy: Policy, limits: Limits, claims: seq<Claim>)
    returns (r: Option<(bool, seq<Record>)>)
    requires source.semantics.Some?
    ensures r.None? <==> Unacceptable(source, policy, limits, claims)
    ensures r.Some? ==>
              && r.value.0 == Retained(source, policy, limits, claims)
              && Drops(r.value.1) == (if r.value.0 then [] else [source.identity])
  {
    hide HasCoverage, TimeInterval, Drops;
    var semantics, id := source.semantics.value, source.identity;
    DropsNothing();
    if policy.finalizedOnly && !semantics.finalized {
      OneRecord(Record(id, NotFinalized, true));
      return Some((false, [Record(id, NotFinalized, true)]));
    }
    var records: seq<Record> := [];
    if TimeInterval(source.receipt, limits).None? {
      if policy.timeQuality == Require { return None; }
      records := [Record(id, TimeQualityDoubt, policy.timeQuality == Exclude)];
      OneRecord(records[0]);
      if policy.timeQuality == Exclude { return Some((false, records)); }
    }
    var status := CoverageStatus(semantics.key, claims);
    CoverageOneWay(claims, semantics.key, status);
    if status != Complete {
      if policy.coverage == Require { return None; }
      var doubt := Record(id, CoverageDoubt(status), policy.coverage == Exclude);
      DropsJoin(records, [doubt]);
      OneRecord(doubt);
      records := records + [doubt];
      if policy.coverage == Exclude { return Some((false, records)); }
    }
    r := Some((true, records));
  }

  lemma {:induction false} DropsNothing()
    ensures Drops([]) == []
  {
  }

  lemma {:induction false} CoverageOneWay(claims: seq<Claim>, key: CandleKey, status: Coverage)
    requires HasCoverage(claims, key, status)
    ensures status == Complete <==> HasCoverage(claims, key, Complete)
  {
    hide Claimed, CoveredUpTo;
  }

  /** The first input of the key's history, or the last accepted one. */
  function Candidate(c: SelectedCandle, policy: Policy): SelectedCandle {
    if policy.revision == First && c.evidence != [] then SelectedCandle(c.evidence[0], c.evidence) else c
  }

  ghost function Kept(selection: seq<SelectedCandle>, policy: Policy, limits: Limits, claims: seq<Claim>):
      seq<SelectedCandle>
  {
    if selection == [] then []
    else
      var c := Candidate(selection[|selection| - 1], policy);
      Kept(selection[..|selection| - 1], policy, limits, claims) +
      if Retained(c.selected, policy, limits, claims) then [c] else []
  }

  ghost function Dropped(selection: seq<SelectedCandle>, policy: Policy, limits: Limits, claims: seq<Claim>):
      seq<IngestionId>
  {
    if selection == [] then []
    else
      var c := Candidate(selection[|selection| - 1], policy);
      Dropped(selection[..|selection| - 1], policy, limits, claims) +
      if Retained(c.selected, policy, limits, claims) then [] else [c.selected.identity]
  }

  ghost predicate AllAcceptable(selection: seq<SelectedCandle>, policy: Policy, limits: Limits, claims: seq<Claim>) {
    forall c | c in selection :: !Unacceptable(Candidate(c, policy).selected, policy, limits, claims)
  }

  /**
   * The recipe's result for one selection: an error if a requirement fails, else the kept
   * candles, and after the omissions one dropping record for each candle not kept, in order.
   */
  ghost predicate ResultFor(
      selection: seq<SelectedCandle>, policy: Policy, limits: Limits, claims: seq<Claim>, omissions: seq<Record>,
      r: Option<(seq<SelectedCandle>, seq<Record>)>)
  {
    && (r.Some? <==> AllAcceptable(selection, policy, limits, claims))
    && (r.Some? ==>
          && r.value.0 == Kept(selection, policy, limits, claims)
          && omissions <= r.value.1
          && Drops(r.value.1[|omissions|..]) == Dropped(selection, policy, limits, claims))
  }

  ghost predicate Applied(
      sources: seq<Source>, policy: Policy, cutoff: Option<ClockSample>, limits: Limits, coverage: seq<Claim>,
      r: Option<(seq<SelectedCandle>, seq<Record>)>)
  {
    if Observable(sources, policy, cutoff, limits) then
      exists selection ::
        && IsSelection(InOrder(VisibleSources(sources, policy, cutoff, limits)), selection)
        && ResultFor(selection, policy, limits, VisibleClaims(coverage, policy, cutoff, limits),
                     Omissions(sources, policy, cutoff, limits), r)
    else r.None?
  }

  lemma {:induction false} SelectionReadable(ordered: seq<Source>, selection: seq<SelectedCandle>, c: SelectedCandle)
    requires IsSelection(ordered, selection) && Coherent(ordered) && c in selection
    ensures c.evidence != [] && c.selected.semantics.Some? && c.evidence[0].semantics.Some?
  {
    hide RunKey, About, WellFormed, Strict;
    ChosenFrom(ordered, c);
    var key := c.selected.semantics.value.key;
    assert c.evidence[0] in About(ordered, key);
  }

  /** Put every selected candle to the policies, in order. */
  method RetainAll(selection: seq<SelectedCandle>, policy: Policy, limits: Limits, claims: seq<Claim>)
    returns (r: Option<(seq<SelectedCandle>, seq<Record>)>)
    requires forall c | c in selection :: Candidate(c, policy).selected.semantics.Some?
    ensures ResultFor(selection, policy, limits, claims, [], r)
  {
    hide Retained, Unacceptable, Drops, Candidate;
    var retained: seq<SelectedCandle>, records: seq<Record> := [], [];
    DropsNothing();
    var i := 0;
    while i < |selection|
      invariant 0 <= i <= |selection|
      invariant AllAcceptable(selection[..i], policy, limits, claims)
      invariant retained == Kept(selection[..i], policy, limits, claims)
      invariant Drops(records) == Dropped(selection[..i], policy, limits, claims)
    {
      hide Kept, Dropped;
      assert selection[i] in selection;
      var item := Candidate(selection[i], policy);
      var kept := RetainSource(item.selected, policy, limits, claims);
      if kept.None? { return None; }
      OneMore(selection, i, policy, limits, claims);
      DropsJoin(records, kept.value.1);
      records := records + kept.value.1;
      if kept.value.0 { retained := retained + [item]; }
      i := i + 1;
    }
    assert selection[..i] == selection;
    r := Some((retained, records));
  }

  method ApplyPolicy(
      sources: seq<Source>, policy: Policy, cutoff: Option<ClockSample>, limits: Limits, coverage: seq<Claim>)
    returns (r: Option<(seq<SelectedCandle>, seq<Record>)>)
    ensures Applied(sources, policy, cutoff, limits, coverage, r)
  {
    hide IsSelection, Coherent, Retained, Unacceptable, Drops, SortBy, VisibleSources, VisibleClaims, Omissions;
    hide AllAcceptable, Kept, Dropped;
    var observed := ObservedSelection(sources, policy, cutoff, limits, coverage);
    if observed.None? { return None; }
    var (selection, claims, omissions) := observed.value;
    forall c | c in selection ensures Candidate(c, policy).selected.semantics.Some? {
      SelectionReadable(InOrder(VisibleSources(sources, policy, cutoff, limits)), selection, c);
    }
    r := RetainAll(selection, policy, limits, claims);
    if r.Some? {
      var (retained, records) := r.value;
      assert (omissions + records)[|omissions|..] == records == records[0..];
      r := Some((retained, omissions + records));
    }
  }

  lemma {:induction false} OneMore(
      selection: seq<SelectedCandle>, i: nat, policy: Policy, limits: Limits, claims: seq<Claim>)
    requires i < |selection|
    ensures var c := Candidate(selection[i], policy);
            && Kept(selection[..i + 1], policy, limits, claims)
               == (if Retained(c.selected, policy, limits, claims)
                   then Kept(selection[..i], policy, limits, claims) + [c]
                   else Kept(selection[..i], policy, limits, claims))
            && Dropped(selection[..i + 1], policy, limits, claims)
               == (if Retained(c.selected, policy, limits, claims)
                   then Dropped(selection[..i], policy, limits, claims)
                   else Dropped(selection[..i], policy, limits, claims) + [c.selected.identity])
            && (AllAcceptable(selection[..i + 1], policy, limits, claims)
                <==> AllAcceptable(selection[..i], policy, limits, claims) &&
                     !Unacceptable(c.selected, policy, limits, claims))
  {
    hide Retained, Unacceptable;
    assert selection[..i + 1][..i] == selection[..i];
    assert selection[..i + 1] == selection[..i] + [selection[i]];
  }

  // ----- no look-ahead

  lemma {:induction false} CoverageSame(a: seq<Claim>, b: seq<Claim>, s: Source)
    requires forall c :: c in a <==> c in b
    ensures Covered(s, a) <==> Covered(s, b)
  {
    hide Bears;
    if s.semantics.Some? {
      var key := s.semantics.value.key;
      forall status ensures Claimed(a, key, status) <==> Claimed(b, key, status) {
      }
      forall x: int ensures CoveredAt(a, key, x) <==> CoveredAt(b, key, x) {
      }
    }
  }

  lemma {:induction false} SameVerdicts(
      selection: seq<SelectedCandle>, policy: Policy, limits: Limits, a: seq<Claim>, b: seq<Claim>)
    requires forall c :: c in a <==> c in b
    ensures Kept(selection, policy, limits, a) == Kept(selection, policy, limits, b)
    ensures Dropped(selection, policy, limits, a) == Dropped(selection, policy, limits, b)
    ensures AllAcceptable(selection, policy, limits, a) <==> AllAcceptable(selection, policy, limits, b)
  {
    hide Covered, Timely, FinalEnough, Candidate;
    forall c: SelectedCandle
      ensures Covered(Candidate(c, policy).selected, a) <==> Covered(Candidate(c, policy).selected, b)
    {
      CoverageSame(a, b, Candidate(c, policy).selected);
    }
    if selection != [] { SameVerdicts(selection[..|selection| - 1], policy, limits, a, b); }
  }

  /**
   * Main result: in strict mode only what was provably known before the cutoff matters. Two
   * whole histories, both valid, that agree on that much give the same candles or both fail.
   */
  lemma {:induction false} NoLookAhead(
      a: seq<Source>, b: seq<Source>, claimsA: seq<Claim>, claimsB: seq<Claim>, policy: Policy, cutoff: ClockSample,
      limits: Limits, ra: Option<(seq<SelectedCandle>, seq<Record>)>, rb: Option<(seq<SelectedCandle>, seq<Record>)>)
    requires policy.mode == AsObserved && Selectable(a) && Selectable(b)
    requires multiset(Eligible(a, cutoff, limits)) == multiset(Eligible(b, cutoff, limits))
    requires forall c :: c in SeenClaims(claimsA, cutoff, limits) <==> c in SeenClaims(claimsB, cutoff, limits)
    requires Applied(a, policy, Some(cutoff), limits, claimsA, ra)
    requires Applied(b, policy, Some(cutoff), limits, claimsB, rb)
    ensures ra.Some? <==> rb.Some?
    ensures ra.Some? ==> ra.value.0 == rb.value.0
  {
    hide IsSelection, Coherent, SortBy, Kept, Dropped, AllAcceptable, TimeInterval, Selectable;
    var knownA, knownB := Eligible(a, cutoff, limits), Eligible(b, cutoff, limits);
    PermutationInvariant(knownA, knownB, [], []);
    if Observable(a, policy, Some(cutoff), limits) {
      var sa :| IsSelection(InOrder(knownA), sa) &&
                ResultFor(sa, policy, limits, SeenClaims(claimsA, cutoff, limits), Unproven(a, cutoff, limits), ra);
      var sb :| IsSelection(InOrder(knownB), sb) &&
                ResultFor(sb, policy, limits, SeenClaims(claimsB, cutoff, limits), Unproven(b, cutoff, limits), rb);
      PermutationInvariant(knownA, knownB, sa, sb);
      SameVerdicts(sa, policy, limits, SeenClaims(claimsA, cutoff, limits), SeenClaims(claimsB, cutoff, limits));
    }
  }
}
