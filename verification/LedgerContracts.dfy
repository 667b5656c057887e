/** Forecast identities, their JSON bodies, and the timing verdict on a publication. */
module LedgerContracts {
  import opened Wrappers
  import opened Canonical
  import opened Records
  import opened Domain
  import opened Decimals

  const SECOND_NS := 1_000_000_000
  const HOUR_NS := 3600 * SECOND_NS
  const ISSUE_DELAY_NS := 60 * SECOND_NS
  const FINAL_START_NS := 1793491200 * SECOND_NS
  const FINAL_END_NS := 1893456000 * SECOND_NS
  const DEVELOPMENT_END_NS := 1790812800 * SECOND_NS
  const SHADOW_START_NS := 1792800000 * SECOND_NS
  const MAX_VERDICT_AGE_NS := 120 * SECOND_NS

  const HORIZONS: set<int> := {3600, 86400, 604800, 2419200}

  const EVIDENCE_CLASSES: set<string> := {
    "synthetic-fixture", "historical-reconstruction", "simulated-as-observed", "backcast", "forward-shadow"}

  const TARGET := "log-last-trade-close-v1"
  const POINT_STATISTIC := "deterministic-point"

  datatype Stream = Stream(
    streamId: string,
    evidenceClass: string,
    sourceId: string,
    baselineSha256: Digest,
    runtimeSha256: Digest,
    codeSha256: Digest)

  datatype Slot = Slot(
    stream: Stream,
    venue: string,
    category: string,
    instrument: string,
    originNs: int,
    horizonSeconds: int,
    target: string)
  {
    function EndpointNs(): int { originNs + horizonSeconds * SECOND_NS }

    function DeadlineNs(): int { originNs + ISSUE_DELAY_NS }

    predicate IsForward() { stream.evidenceClass == "forward-shadow" }
  }

  datatype Content = Content(
    slot: Slot,
    inputSha256: Digest,
    referenceSha256: Digest,
    referenceClose: DecimalNumber,
    latestAvailableNs: int,
    point: Option<DecimalNumber>,
    reason: Option<string>,
    pointStatistic: string)

  // ----- admission

  predicate PermittedInterval(start: int, end: int, evidence: string) {
    && HOUR_NS <= start < end < 0x8000_0000_0000_0000
    && !(start < FINAL_END_NS && end >= FINAL_START_NS)
    && (evidence != "synthetic-fixture" ==> end < DEVELOPMENT_END_NS)
  }

  const FORWARD_SOURCE := "binance-usdm-public-hourly-v1"

  function AllowedSources(evidenceClass: string): set<string> {
    if evidenceClass == "forward-shadow" then {FORWARD_SOURCE}
    else if evidenceClass == "synthetic-fixture" then {"synthetic-hourly"}
    else {"synthetic-hourly", "binance-vision-hourly"}
  }

  predicate ValidStream(s: Stream) {
    && IsIdentifier(s.streamId) && s.evidenceClass in EVIDENCE_CLASSES
    && s.sourceId in AllowedSources(s.evidenceClass)
    && IsDigest(s.baselineSha256) && IsDigest(s.runtimeSha256) && IsDigest(s.codeSha256)
  }

  /** The native instruments of the forward supplement, within its window. */
  predicate ForwardSlot(s: Slot) {
    && SHADOW_START_NS <= s.originNs < FINAL_START_NS
    && s.venue == "Binance" && s.category == "USD-M-futures" && s.instrument in {"BTCUSDT", "ETHUSDT"}
  }

  predicate ValidSlot(s: Slot) {
    && ValidStream(s.stream)
    && IsIdentifier(s.venue) && IsIdentifier(s.category) && IsIdentifier(s.instrument)
    && HOUR_NS <= s.originNs
    && s.originNs % HOUR_NS == 0
    && s.horizonSeconds in HORIZONS
    && (s.horizonSeconds != 3600 ==> s.originNs % (24 * HOUR_NS) == 0)
    && s.target == TARGET
    && if s.IsForward() then ForwardSlot(s)
       else PermittedInterval(s.originNs, s.EndpointNs(), s.stream.evidenceClass)
  }

  predicate ValidContent(c: Content) {
    && ValidSlot(c.slot)
    && IsDigest(c.inputSha256)
    && IsDigest(c.referenceSha256)
    && 0 <= c.latestAvailableNs <= c.slot.DeadlineNs()
    && IsPositive(c.referenceClose)
    && (c.point.Some? ==> IsZero(c.point.value))
    && c.point.None? == c.reason.Some?
    && c.pointStatistic == POINT_STATISTIC
    && (c.reason.Some? ==> IsIdentifier(c.reason.value))
  }

  // ----- JSON bodies

  function StreamJson(s: Stream): Json {
    Obj([
      Member("stream_id", Str(s.streamId)),
      Member("evidence_class", Str(s.evidenceClass)),
      Member("source_id", Str(s.sourceId)),
      Member("baseline_sha256", Str(s.baselineSha256)),
      Member("runtime_sha256", Str(s.runtimeSha256)),
      Member("code_sha256", Str(s.codeSha256))])
  }

  function SlotJson(s: Slot): Json {
    Obj([
      Member("stream", StreamJson(s.stream)),
      Member("venue", Str(s.venue)),
      Member("category", Str(s.category)),
      Member("instrument", Str(s.instrument)),
      Member("origin_ns", Int(s.originNs)),
      Member("horizon_seconds", Int(s.horizonSeconds)),
      Member("target", Str(s.target))])
  }

  function OptionalDecimalText(d: Option<DecimalNumber>): Option<string> {
    if d.Some? then Some(DecimalText(d.value)) else None
  }

  function OptionalDecimal(text: Option<string>): Option<DecimalNumber> {
    if text.Some? then ReadDecimal(text.value) else None
  }

  function ContentJson(c: Content): Json {
    Obj([
      Member("slot", SlotJson(c.slot)),
      Member("input_sha256", Str(c.inputSha256)),
      Member("reference_sha256", Str(c.referenceSha256)),
      Member("reference_close", Str(DecimalText(c.referenceClose))),
      Member("latest_available_ns", Int(c.latestAvailableNs)),
      Member("point", OptionalText(OptionalDecimalText(c.point))),
      Member("reason", OptionalText(c.reason)),
      Member("point_statistic", Str(c.pointStatistic))])
  }

  /** The slot's own identity leaves the stream's manifest out, all but its name. */
  function SlotIdentityJson(s: Slot): Json {
    Obj([
      Member("stream_id", Str(s.stream.streamId)),
      Member("venue", Str(s.venue)),
      Member("category", Str(s.category)),
      Member("instrument", Str(s.instrument)),
      Member("origin_ns", Int(s.originNs)),
      Member("horizon_seconds", Int(s.horizonSeconds)),
      Member("target", Str(s.target))])
  }

  function SlotSha(codec: Codec, s: Slot): Digest { Identity(codec, SlotIdentityJson(s)) }

  function ContentSha(codec: Codec, c: Content): Digest { Identity(codec, ContentJson(c)) }

  function StreamOf(j: Json): Option<Stream> {
    var a, b, c := GetText(j, "stream_id"), GetText(j, "evidence_class"), GetText(j, "source_id");
    var d, e, f := GetText(j, "baseline_sha256"), GetText(j, "runtime_sha256"), GetText(j, "code_sha256");
    if a.Some? && b.Some? && c.Some? && d.Some? && e.Some? && f.Some? then
      Some(Stream(a.value, b.value, c.value, d.value, e.value, f.value))
    else None
  }

  function SlotOf(j: Json): Option<Slot> {
    var s := match Get(j, "stream")
             case Some(m) => StreamOf(m)
             case None => None;
    var a, b, c := GetText(j, "venue"), GetText(j, "category"), GetText(j, "instrument");
    var d, e, f := GetInt(j, "origin_ns"), GetInt(j, "horizon_seconds"), GetText(j, "target");
    if s.Some? && a.Some? && b.Some? && c.Some? && d.Some? && e.Some? && f.Some? then
      Some(Slot(s.value, a.value, b.value, c.value, d.value, e.value, f.value))
    else None
  }

  function ContentOf(j: Json): Option<Content> {
    var s := match Get(j, "slot")
             case Some(m) => SlotOf(m)
             case None => None;
    var a, b := GetText(j, "input_sha256"), GetText(j, "reference_sha256");
    var c, point := OptionalDecimal(GetText(j, "reference_close")), OptionalDecimal(GetText(j, "point"));
    var d, e := GetInt(j, "latest_available_ns"), GetText(j, "point_statistic");
    if s.Some? && a.Some? && b.Some? && c.Some? && d.Some? && e.Some? then
      Some(Content(s.value, a.value, b.value, c.value, d.value, point, GetText(j, "reason"), e.value))
    else None
  }

  /** Rebuild, validate, and insist that the body is exactly the one a content would write. */
  function FromBody(j: Json): Option<Content> {
    match ContentOf(j)
    case None => None
    case Some(c) => if ValidContent(c) && Canon(ContentJson(c)) == Canon(j) then Some(c) else None
  }

  // ----- bodies and contents determine each other

  lemma {:induction false} StreamShape(s: Stream)
    ensures Apart(StreamJson(s).members) && Valid(StreamJson(s))
  {
    var j := StreamJson(s);
    assert Apart(j.members);
    ApartIsValid(j.members);
  }

  /** An admitted stream's manifest is short. */
  lemma {:induction false} StreamSize(s: Stream)
    requires ValidStream(s)
    ensures |Encode(StreamJson(s))| <= 4000
  {
    hide Escape, Encode, IsDigest, IsIdentifier;
    EscapeSize("stream_id");
    EscapeSize("evidence_class");
    EscapeSize("source_id");
    EscapeSize("baseline_sha256");
    EscapeSize("runtime_sha256");
    EscapeSize("code_sha256");
    IdentifierSize(s.streamId);
    assert |s.evidenceClass| <= 25 && |s.sourceId| <= 29;
    ShortSize(s.evidenceClass);
    ShortSize(s.sourceId);
    DigestSize(s.baselineSha256);
    DigestSize(s.runtimeSha256);
    DigestSize(s.codeSha256);
    ObjectSize(StreamJson(s).members, 600);
  }

  lemma {:induction false} StreamReads(s: Stream)
    ensures Valid(StreamJson(s)) && StreamOf(Canon(StreamJson(s))) == Some(s)
  {
    var m := StreamJson(s).members;
    StreamShape(s);
    TextFieldAt(m, 0, "stream_id", s.streamId);
    TextFieldAt(m, 1, "evidence_class", s.evidenceClass);
    TextFieldAt(m, 2, "source_id", s.sourceId);
    TextFieldAt(m, 3, "baseline_sha256", s.baselineSha256);
    TextFieldAt(m, 4, "runtime_sha256", s.runtimeSha256);
    TextFieldAt(m, 5, "code_sha256", s.codeSha256);
  }

  predicate SlotInRange(s: Slot) {
    INT64_MIN <= s.originNs <= INT64_MAX && INT64_MIN <= s.horizonSeconds <= INT64_MAX
  }

  lemma {:induction false} SlotShape(s: Slot)
    requires SlotInRange(s)
    ensures Apart(SlotJson(s).members) && Valid(SlotJson(s))
  {
    var members := SlotJson(s).members;
    forall i | 0 <= i < |members| ensures Valid(members[i].value) {
      if i == 0 {
        StreamShape(s.stream);
        assert members[i].value == StreamJson(s.stream);
      } else {
        assert members[i].value.Str? || members[i].value.Int?;
      }
    }
    ApartIsValid(members);
  }

  lemma {:induction false} SlotFields(s: Slot)
    requires SlotInRange(s)
    ensures var j := Canon(SlotJson(s));
            && Get(j, "stream") == Some(Canon(StreamJson(s.stream)))
            && GetText(j, "venue") == Some(s.venue)
            && GetText(j, "category") == Some(s.category)
            && GetText(j, "instrument") == Some(s.instrument)
            && GetInt(j, "origin_ns") == Some(s.originNs)
            && GetInt(j, "horizon_seconds") == Some(s.horizonSeconds)
            && GetText(j, "target") == Some(s.target)
  {
    var m := SlotJson(s).members;
    CanonFieldAt(m, 0);
    TextFieldAt(m, 1, "venue", s.venue);
    TextFieldAt(m, 2, "category", s.category);
    TextFieldAt(m, 3, "instrument", s.instrument);
    IntFieldAt(m, 4, "origin_ns", s.originNs);
    IntFieldAt(m, 5, "horizon_seconds", s.horizonSeconds);
    TextFieldAt(m, 6, "target", s.target);
  }

  lemma {:induction false} SlotReads(s: Slot)
    requires SlotInRange(s)
    ensures SlotOf(Canon(SlotJson(s))) == Some(s)
  {
    SlotFields(s);
    StreamReads(s.stream);
  }

  predicate InRange(c: Content) {
    SlotInRange(c.slot) && INT64_MIN <= c.latestAvailableNs <= INT64_MAX
  }

  lemma {:induction false} ContentShape(c: Content)
    requires InRange(c)
    ensures Apart(ContentJson(c).members) && Valid(ContentJson(c))
  {
    hide DecimalText, SlotJson;
    var members := ContentJson(c).members;
    forall i | 0 <= i < |members| ensures Valid(members[i].value) {
      if i == 0 {
        SlotShape(c.slot);
        assert members[i].value == SlotJson(c.slot);
      } else {
        assert !members[i].value.List? && !members[i].value.Obj?;
      }
    }
    ApartIsValid(members);
  }

  lemma {:induction false} ContentFields(c: Content)
    requires InRange(c)
    ensures var j := Canon(ContentJson(c));
            && Get(j, "slot") == Some(Canon(SlotJson(c.slot)))
            && GetText(j, "input_sha256") == Some(c.inputSha256)
            && GetText(j, "reference_sha256") == Some(c.referenceSha256)
            && GetText(j, "reference_close") == Some(DecimalText(c.referenceClose))
            && GetInt(j, "latest_available_ns") == Some(c.latestAvailableNs)
            && GetText(j, "point") == OptionalDecimalText(c.point)
            && GetText(j, "reason") == c.reason
            && GetText(j, "point_statistic") == Some(c.pointStatistic)
  {
    hide DecimalText, SlotJson;
    var m := ContentJson(c).members;
    CanonFieldAt(m, 0);
    TextFieldAt(m, 1, "input_sha256", c.inputSha256);
    TextFieldAt(m, 2, "reference_sha256", c.referenceSha256);
    TextFieldAt(m, 3, "reference_close", DecimalText(c.referenceClose));
    IntFieldAt(m, 4, "latest_available_ns", c.latestAvailableNs);
    OptionalTextFieldAt(m, 5, "point", OptionalDecimalText(c.point));
    OptionalTextFieldAt(m, 6, "reason", c.reason);
    TextFieldAt(m, 7, "point_statistic", c.pointStatistic);
  }

  lemma {:induction false} ContentReads(c: Content)
    requires InRange(c)
    ensures ContentOf(Canon(ContentJson(c))) == Some(c)
  {
    hide DecimalText, ReadDecimal, SlotJson, SlotOf, Canon;
    ContentFields(c);
    SlotReads(c.slot);
    DecimalRoundTrip(c.referenceClose);
    if c.point.Some? { DecimalRoundTrip(c.point.value); }
  }

  /** Every admitted content survives being stored and read back. */
  lemma {:induction false} BodyRoundTrip(c: Content)
    requires ValidContent(c)
    ensures Valid(ContentJson(c)) && FromBody(Canon(ContentJson(c))) == Some(c)
  {
    ContentShape(c);
    ContentReads(c);
    CanonIdempotent(ContentJson(c));
  }

  lemma {:induction false} StreamOfCanon(j: Json)
    requires Valid(j)
    ensures StreamOf(Canon(j)) == StreamOf(j)
  {
    TypedGetCanon(j, "stream_id");
    TypedGetCanon(j, "evidence_class");
    TypedGetCanon(j, "source_id");
    TypedGetCanon(j, "baseline_sha256");
    TypedGetCanon(j, "runtime_sha256");
    TypedGetCanon(j, "code_sha256");
  }

  lemma {:induction false} GetValid(j: Json, key: string)
    requires Valid(j)
    ensures Get(j, key).Some? ==> Valid(Get(j, key).value)
  {
    if j.Obj? { FindValid(j.members, key); }
  }

  lemma {:induction false} SlotOfCanon(j: Json)
    requires Valid(j)
    ensures SlotOf(Canon(j)) == SlotOf(j)
  {
    GetCanon(j, "stream");
    GetValid(j, "stream");
    if Get(j, "stream").Some? { StreamOfCanon(Get(j, "stream").value); }
    TypedGetCanon(j, "venue");
    TypedGetCanon(j, "category");
    TypedGetCanon(j, "instrument");
    TypedGetCanon(j, "origin_ns");
    TypedGetCanon(j, "horizon_seconds");
    TypedGetCanon(j, "target");
  }

  /** Contents are read off a body by member name, whatever order its members came in. */
  lemma {:induction false} ContentOfCanon(j: Json)
    requires Valid(j)
    ensures ContentOf(Canon(j)) == ContentOf(j)
  {
    GetCanon(j, "slot");
    GetValid(j, "slot");
    if Get(j, "slot").Some? { SlotOfCanon(Get(j, "slot").value); }
    TypedGetCanon(j, "input_sha256");
    TypedGetCanon(j, "reference_sha256");
    TypedGetCanon(j, "reference_close");
    TypedGetCanon(j, "latest_available_ns");
    TypedGetCanon(j, "point_statistic");
    TypedGetCanon(j, "point");
    TypedGetCanon(j, "reason");
  }

  /** A body is read as a content exactly when that content is admitted and would write it. */
  lemma {:induction false} FromBodyExactly(j: Json, c: Content)
    requires Valid(j)
    ensures FromBody(j) == Some(c) <==> (ValidContent(c) && Canon(j) == Canon(ContentJson(c)))
  {
    if ValidContent(c) && Canon(j) == Canon(ContentJson(c)) {
      ContentReads(c);
      ContentOfCanon(j);
    }
  }

  /** Contents with one digest are equal, or their two bodies are a collision. */
  lemma {:induction false} ContentShaBinds(hash: Bytes -> Digest, a: Content, b: Content)
    requires ValidContent(a) && ValidContent(b)
    requires ContentSha(CanonicalCodec(hash), a) == ContentSha(CanonicalCodec(hash), b)
    ensures a == b || Collides(hash, Encode(ContentJson(a)), Encode(ContentJson(b)))
  {
    BodyRoundTrip(a);
    BodyRoundTrip(b);
    if Encode(ContentJson(a)) == Encode(ContentJson(b)) {
      EncodeInvertible(ContentJson(a));
      EncodeInvertible(ContentJson(b));
    }
  }

  // ----- timing of a publication

  predicate BoundedEvidence(q: TimeQuality) {
    && q.status == Healthy
    && q.uncertainty.Some? && q.offset.Some? && q.age.Some?
    && q.age.value <= MAX_VERDICT_AGE_NS
    && q.uncertainty.value >= Abs(q.offset.value)
  }

  /** One clock, running forward, in step with its own monotonic reading. */
  predicate Continuous(before: ClockSample, after: ClockSample)
    requires BoundedEvidence(before.quality) && BoundedEvidence(after.quality)
  {
    && before.session == after.session
    && before.quality.epoch == after.quality.epoch
    && before.wall <= after.wall
    && before.monotonic <= after.monotonic
    && Abs((after.wall - before.wall) - (after.monotonic - before.monotonic))
       <= before.quality.uncertainty.value + after.quality.uncertainty.value
  }

  function Timeliness(before: ClockSample, after: ClockSample, slot: Slot): string {
    if !BoundedEvidence(before.quality) || !BoundedEvidence(after.quality) then "unknown"
    else if !Continuous(before, after) then "clock-discontinuity"
    else
      var lower := after.wall - after.quality.uncertainty.value;
      var upper := after.wall + after.quality.uncertainty.value;
      if lower >= slot.originNs && upper <= slot.DeadlineNs() && upper < slot.EndpointNs() then "on-time"
      else if lower > slot.DeadlineNs() then "late"
      else "uncertain"
  }
}
