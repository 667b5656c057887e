/** Outcome vintages and their scores, recorded in the forecast ledger and never rewritten. */
module Scores {
  import opened Wrappers
  import opened Canonical
  import opened Records
  import opened Domain
  import opened Decimals
  import opened Journal
  import opened LedgerContracts
  import opened Protocol
  import opened Ledger

  function Version(body: Json): Option<string> { GetText(body, "outcome_sha256") }

  /** The content a certificate-bearing slot was published with. */
  function ContentIn(publication: Json): Option<Content> {
    match Get(publication, "content")
    case None => None
    case Some(j) => FromBody(j)
  }

  // ----- what an outcome and a score need of the journal before them

  predicate OutcomeFits(before: seq<Json>, subject: string, body: Json) {
    var vintages := Bodies(before, "outcome", subject);
    && Version(body).Some?
    && (forall v | v in vintages :: Version(v) != Version(body))
    && Get(body, "supersedes") == Some(Supersedes(vintages))
    && |Bodies(before, "publication", subject)| == 1
    && |Bodies(before, "receipt", subject)| == 1
  }

  function Supersedes(vintages: seq<Json>): Json {
    if vintages == [] then Null else OptionalText(Version(vintages[|vintages| - 1]))
  }

  /** When, and on what certificate, a slot may be scored at all. */
  predicate Scorable(c: Content, receipt: Json, asOf: int) {
    && c.slot.EndpointNs() + ISSUE_DELAY_NS <= asOf
    && c.point.Some?
    && (c.slot.IsForward() ==>
          c.slot.EndpointNs() < FINAL_START_NS && GetText(receipt, "evidence_class") == Some("genuine-forward"))
  }

  predicate ScoreFits(before: seq<Json>, subject: string, body: Json) {
    var publications, receipts := Bodies(before, "publication", subject), Bodies(before, "receipt", subject);
    && Version(body).Some?
    && (exists v | v in Bodies(before, "outcome", subject) :: Version(v) == Version(body))
    && (forall v | v in Bodies(before, "score", subject) :: Version(v) != Version(body))
    && |publications| == 1 && |receipts| == 1
    && ContentIn(publications[0]).Some?
    && GetInt(body, "as_of_ns").Some?
    && Scorable(ContentIn(publications[0]).value, receipts[0], GetInt(body, "as_of_ns").value)
    && Get(body, "evidence_class") == CanonOption(Get(receipts[0], "evidence_class"))
  }

  predicate ScorePlaced(before: seq<Json>, e: Json) {
    && (Kind(e) == "outcome" ==> OutcomeFits(before, Subject(e), Body(e)))
    && (Kind(e) == "score" ==> ScoreFits(before, Subject(e), Body(e)))
  }

  predicate ScorePlacedAt(events: seq<Json>, i: nat)
    requires i < |events|
  {
    ScorePlaced(events[..i], events[i])
  }

  ghost predicate WellScored(events: seq<Json>) {
    forall i | 0 <= i < |events| :: ScorePlacedAt(events, i)
  }

  lemma {:induction false} ScoredPrefix(events: seq<Json>, n: nat)
    requires WellScored(events) && n <= |events|
    ensures WellScored(events[..n])
  {
    hide ScorePlaced;
    forall i | 0 <= i < n ensures ScorePlacedAt(events[..n], i) {
      assert events[..n][..i] == events[..i];
      assert ScorePlacedAt(events, i);
    }
  }

  lemma {:induction false} ScoredExtends(events: seq<Json>, e: Json)
    requires WellScored(events)
    ensures WellScored(events + [e]) <==> ScorePlaced(events, e)
  {
    hide ScorePlaced;
    var more := events + [e];
    assert more[..|events|] == events;
    assert ScorePlacedAt(more, |events|) == ScorePlaced(events, e);
    forall i | 0 <= i < |events| ensures ScorePlacedAt(more, i) {
      assert more[..i] == events[..i];
      assert ScorePlacedAt(events, i);
    }
  }

  lemma {:induction false} ScoredAt(events: seq<Json>, i: nat)
    requires WellScored(events) && i < |events|
    ensures ScorePlaced(events[..i], events[i])
  {
    hide ScorePlaced;
    assert ScorePlacedAt(events, i);
  }

  lemma {:induction false} SplitLast(events: seq<Json>, kind: string, subject: string)
    requires events != [] && WellScored(events)
    ensures var n := |events| - 1;
            && WellScored(events[..n]) && ScorePlaced(events[..n], events[n])
            && Bodies(events, kind, subject)
               == if Kind(events[n]) == kind && Subject(events[n]) == subject
                  then Bodies(events[..n], kind, subject) + [Body(events[n])]
                  else Bodies(events[..n], kind, subject)
  {
    hide ScorePlaced;
    var n := |events| - 1;
    ScoredPrefix(events, n);
    assert ScorePlacedAt(events, n);
  }

  /** Publishing and recovering leave the score history well formed. */
  lemma {:induction false} ProtocolKeepsScores(was: seq<Json>, now: seq<Json>)
    requires WellScored(was) && OnlyProtocol(was, now)
    ensures WellScored(now)
    decreases |now|
  {
    hide WellScored, OutcomeFits, ScoreFits;
    if |was| < |now| {
      var n := |now| - 1;
      assert forall i | |was| <= i < n :: now[..n][i] == now[i];
      ProtocolKeepsScores(was, now[..n]);
      ScoredExtends(now[..n], now[n]);
      assert now[..n] + [now[n]] == now;
    } else {
      assert was == now;
    }
  }

  // ----- the vintages of one slot

  /** Each vintage has a version of its own and names the one just before it. */
  ghost predicate Linked(vintages: seq<Json>) {
    && (forall i | 0 <= i < |vintages| :: LinkedAt(vintages, i))
    && DistinctVersions(vintages)
  }

  predicate LinkedAt(vintages: seq<Json>, i: nat)
    requires i < |vintages|
  {
    Version(vintages[i]).Some? && Get(vintages[i], "supersedes") == Some(Supersedes(vintages[..i]))
  }

  predicate DistinctVersions(bodies: seq<Json>) {
    forall i, j | 0 <= i < j < |bodies| :: Version(bodies[i]) != Version(bodies[j])
  }

  lemma {:induction false} LinkedNext(vintages: seq<Json>, body: Json)
    requires Linked(vintages) && Version(body).Some?
    requires forall v | v in vintages :: Version(v) != Version(body)
    requires Get(body, "supersedes") == Some(Supersedes(vintages))
    ensures Linked(vintages + [body])
  {
    hide Version;
    var more := vintages + [body];
    forall i | 0 <= i < |more| ensures LinkedAt(more, i) {
      assert i < |vintages| ==> LinkedAt(vintages, i) && more[..i] == vintages[..i];
      assert i == |vintages| ==> more[..i] == vintages;
    }
    assert forall i | 0 <= i < |vintages| :: vintages[i] in vintages;
  }

  /** Main result: a slot's outcomes form one chain of distinct versions, oldest first. */
  lemma {:induction false} VintagesLinked(events: seq<Json>, subject: string)
    requires WellScored(events)
    ensures Linked(Bodies(events, "outcome", subject))
  {
    if events != [] {
      hide WellScored, Linked, Bodies, Version, Get;
      var n := |events| - 1;
      SplitLast(events, "outcome", subject);
      VintagesLinked(events[..n], subject);
      if Kind(events[n]) == "outcome" && Subject(events[n]) == subject {
        LinkedNext(Bodies(events[..n], "outcome", subject), Body(events[n]));
      }
    }
  }

  /** A version of a slot's outcome is scored at most once. */
  lemma {:induction false} OneScorePerVersion(events: seq<Json>, subject: string)
    requires WellScored(events)
    ensures DistinctVersions(Bodies(events, "score", subject))
  {
    if events != [] {
      hide WellScored, Bodies, Version, Scorable, ContentIn;
      var n := |events| - 1;
      SplitLast(events, "score", subject);
      OneScorePerVersion(events[..n], subject);
      var was := Bodies(events[..n], "score", subject);
      assert forall i | 0 <= i < |was| :: was[i] in was;
    }
  }

  lemma {:induction false} ReceiptIsHonest(codec: Codec, events: seq<Json>, subject: string, receipt: Json)
    requires Disciplined(codec, events) && receipt in Bodies(events, "receipt", subject)
    ensures Honest(receipt)
  {
    hide Disciplined, Bodies;
    var j := BodyFrom(events, "receipt", subject, receipt);
    var i := ReceiptFollows(codec, events, j);
  }

  /**
   * Main result: behind every score stand the slot's one publication, its one certificate
   * and the very outcome it scores; it was made no earlier than the issue delay after the
   * endpoint; and a forward slot is scored only on genuine, on-time evidence before the seal.
   */
  lemma {:induction false} ScoreJustified(codec: Codec, events: seq<Json>, j: nat)
    requires Disciplined(codec, events) && WellScored(events) && j < |events| && Kind(events[j]) == "score"
    ensures var s, b := Subject(events[j]), Body(events[j]);
            var publications, receipts := Bodies(events, "publication", s), Bodies(events, "receipt", s);
            && |publications| == 1 && publications == Bodies(events[..j], "publication", s)
            && |receipts| == 1 && receipts == Bodies(events[..j], "receipt", s)
            && (exists v | v in Bodies(events[..j], "outcome", s) :: Version(v) == Version(b))
            && ContentIn(publications[0]).Some? && GetInt(b, "as_of_ns").Some?
            && Scorable(ContentIn(publications[0]).value, receipts[0], GetInt(b, "as_of_ns").value)
            && (ContentIn(publications[0]).value.slot.IsForward() ==>
                  GetText(receipts[0], "timeliness") == Some("on-time"))
  {
    hide Bodies, Version, Disciplined, WellScored;
    var s, before := Subject(events[j]), events[..j];
    ScoredAt(events, j);
    PublicationStable(codec, before, events, "publication", s);
    PublicationStable(codec, before, events, "receipt", s);
    ReceiptIsHonest(codec, events, s, Bodies(events, "receipt", s)[0]);
  }

  /** A slot that must stay sealed has no score. */
  lemma {:induction false} SealedNeverScored(codec: Codec, events: seq<Json>, subject: string, c: Content)
    requires Disciplined(codec, events) && WellScored(events)
    requires Bodies(events, "publication", subject) != []
    requires ContentIn(Bodies(events, "publication", subject)[0]) == Some(c)
    requires c.slot.IsForward() && c.slot.EndpointNs() >= FINAL_START_NS
    ensures Bodies(events, "score", subject) == []
  {
    hide Disciplined, WellScored, Bodies, ContentIn;
    var scores := Bodies(events, "score", subject);
    if scores != [] {
      var j := BodyFrom(events, "score", subject, scores[0]);
      ScoreJustified(codec, events, j);
    }
  }

  // ----- as-of views

  function Past(scores: seq<Json>, asOf: int): seq<Json> {
    if scores == [] then []
    else
      var last := scores[|scores| - 1];
      var t := GetInt(last, "as_of_ns");
      Past(scores[..|scores| - 1], asOf) + if t.Some? && t.value <= asOf then [last] else []
  }

  /** The score of a slot as it stood at some time: the first one, or the latest. */
  function View(events: seq<Json>, subject: string, asOf: int, firstAvailable: bool): Option<Json> {
    var records := Past(Bodies(events, "score", subject), asOf);
    if records == [] then None
    else if firstAvailable then Some(records[0])
    else Some(records[|records| - 1])
  }

  /** Nothing was added but records about one slot, and its scores are all of this moment. */
  ghost predicate Matured(was: seq<Json>, now: seq<Json>, subject: string, moment: int) {
    && was <= now
    && forall i | |was| <= i < |now| :: MaturedEvent(now[i], subject, moment)
  }

  predicate MaturedEvent(e: Json, subject: string, moment: int) {
    && Subject(e) == subject
    && Kind(e) in {"slot", "outcome", "score"}
    && (Kind(e) == "score" ==> GetInt(Body(e), "as_of_ns") == Some(moment))
  }

  /** Main result: what was said about an earlier time is what will always be said about it. */
  lemma {:induction false} ViewStable(
      was: seq<Json>, now: seq<Json>, subject: string, moment: int, slot: string, asOf: int, firstAvailable: bool)
    requires Matured(was, now, subject, moment) && asOf < moment
    ensures View(now, slot, asOf, firstAvailable) == View(was, slot, asOf, firstAvailable)
    decreases |now|
  {
    if |was| < |now| {
      var shorter := now[..|now| - 1];
      assert forall i | |was| <= i < |shorter| :: shorter[i] == now[i];
      ViewStable(was, shorter, subject, moment, slot, asOf, firstAvailable);
      PastIgnoresLater(shorter, now, slot, subject, moment, asOf);
    } else {
      assert was == now;
    }
  }

  lemma {:induction false} PastSkips(scores: seq<Json>, last: Json, moment: int, asOf: int)
    requires GetInt(last, "as_of_ns") == Some(moment) && asOf < moment
    ensures Past(scores + [last], asOf) == Past(scores, asOf)
  {
    hide GetInt;
    assert (scores + [last])[..|scores|] == scores;
    assert Past(scores + [last], asOf) == Past(scores, asOf) + [];
  }

  lemma {:induction false} PastIgnoresLater(
      was: seq<Json>, now: seq<Json>, slot: string, subject: string, moment: int, asOf: int)
    requires |now| == |was| + 1 && was == now[..|was|]
    requires MaturedEvent(now[|was|], subject, moment) && asOf < moment
    ensures Past(Bodies(now, "score", slot), asOf) == Past(Bodies(was, "score", slot), asOf)
  {
    hide Bodies, Past, GetInt;
    var e := now[|was|];
    assert now == was + [e];
    BodiesAppend(was, e, "score", slot);
    var scores := Bodies(was, "score", slot);
    if Kind(e) == "score" && Subject(e) == slot {
      PastSkips(scores, Body(e), moment, asOf);
    } else {
      assert scores + [] == scores;
    }
  }

  // ----- records

  /** What the hourly series says of a slot's target; the series itself is not modelled. */
  datatype Outcome = Outcome(
    value: Option<string>,
    version: Option<Digest>,
    reason: Option<string>,
    maturedAt: Option<int>,
    lineage: Option<Digest>)

  /** Error measures are decimals in text form; how they are computed is left open. */
  datatype Measures = Measures(
    absolute: string, squared: string, magnitude: string,
    direction: bool, zeroPrediction: bool, zeroOutcome: bool)

  function StateJson(slot: Slot, state: string, reason: string, asOf: int): Json {
    Obj([
      Member("slot", SlotJson(slot)),
      Member("state", Str(state)),
      Member("reason", Str(reason)),
      Member("as_of_ns", Int(asOf))])
  }

  function TruthJson(c: Content, outcome: Outcome): Json {
    Obj([
      Member("source", Str(c.slot.stream.sourceId)),
      Member("evidence_class", Str(c.slot.stream.evidenceClass)),
      Member("venue", Str(c.slot.venue)),
      Member("category", Str(c.slot.category)),
      Member("instrument", Str(c.slot.instrument)),
      Member("origin_ns", Int(c.slot.originNs)),
      Member("horizon_seconds", Int(c.slot.horizonSeconds)),
      Member("target", Str(c.slot.target)),
      Member("reference_close", Str(DecimalText(c.referenceClose))),
      Member("lineage_sha256", OptionalText(outcome.lineage)),
      Member("value", OptionalText(outcome.value))])
  }

  function OutcomeJson(
      codec: Codec, c: Content, outcome: Outcome, version: string, asOf: int, supersedes: Json): (j: Json)
    ensures j.Obj?
  {
    Obj([
      Member("publication_sha256", Str(ContentSha(codec, c))),
      Member("outcome_sha256", Str(version)),
      Member("truth_sha256", Str(Identity(codec, TruthJson(c, outcome)))),
      Member("value", OptionalText(outcome.value)),
      Member("lineage_sha256", OptionalText(outcome.lineage)),
      Member("expected_maturity_ns", Int(c.slot.EndpointNs() + ISSUE_DELAY_NS)),
      Member("source_available_ns", OptionalInt(outcome.maturedAt)),
      Member("observed_as_of_ns", Int(asOf)),
      Member("supersedes", supersedes)])
  }

  function ScoreJson(
      codec: Codec, c: Content, outcome: Outcome, version: string, asOf: int, m: Measures, evidence: Json): (j: Json)
    ensures j.Obj?
  {
    Obj([
      Member("state", Str("scored")),
      Member("publication_sha256", Str(ContentSha(codec, c))),
      Member("outcome_sha256", Str(version)),
      Member("truth_sha256", Str(Identity(codec, TruthJson(c, outcome)))),
      Member("scorer", Str("pi04-point-decimal28-v1")),
      Member("as_of_ns", Int(asOf)),
      Member("absolute_error", Str(m.absolute)),
      Member("squared_error", Str(m.squared)),
      Member("magnitude_error", Str(m.magnitude)),
      Member("direction_correct", Bool(m.direction)),
      Member("zero_prediction", Bool(m.zeroPrediction)),
      Member("zero_outcome", Bool(m.zeroOutcome)),
      Member("evidence_class", evidence)])
  }

  lemma {:induction false} OutcomeReads(
      codec: Codec, c: Content, outcome: Outcome, version: string, asOf: int, supersedes: Json)
    requires Canonical.Valid(OutcomeJson(codec, c, outcome, version, asOf, supersedes))
    ensures var b := Canon(OutcomeJson(codec, c, outcome, version, asOf, supersedes));
            Version(b) == Some(version) && Get(b, "supersedes") == Some(Canon(supersedes))
  {
    hide ContentSha, Identity, TruthJson, Canonical.Valid, Find;
    var members := OutcomeJson(codec, c, outcome, version, asOf, supersedes).members;
    ValidFieldAt(members, 1);
    ValidFieldAt(members, 8);
  }

  lemma {:induction false} ScoreReads(
      codec: Codec, c: Content, outcome: Outcome, version: string, asOf: int, m: Measures, evidence: Json)
    requires Canonical.Valid(ScoreJson(codec, c, outcome, version, asOf, m, evidence))
    ensures var b := Canon(ScoreJson(codec, c, outcome, version, asOf, m, evidence));
            && Version(b) == Some(version) && GetInt(b, "as_of_ns") == Some(asOf)
            && Get(b, "evidence_class") == Some(Canon(evidence))
  {
    hide ContentSha, Identity, TruthJson, Canonical.Valid, Find;
    var members := ScoreJson(codec, c, outcome, version, asOf, m, evidence).members;
    ValidFieldAt(members, 2);
    ValidFieldAt(members, 5);
    ValidFieldAt(members, 12);
  }

  // ----- the checks made before an outcome is looked at

  function Unavailable(reason: string): string {
    if reason == "not-yet-available" then "pending"
    else if reason == "missing-constituent" then "missing"
    else "invalid"
  }

  predicate Sealed(c: Content) {
    c.slot.IsForward() && c.slot.EndpointNs() >= FINAL_START_NS
  }

  /** The state, and its reason, that keeps a slot from being scored now. */
  function Withheld(c: Content, receipt: Json, asOf: int): Option<(string, string)> {
    var evidence, timing := GetText(receipt, "evidence_class").GetOr(""), GetText(receipt, "timeliness").GetOr("");
    if Sealed(c) then Some(("sealed", "final-outcome-access-denied"))
    else if c.slot.IsForward() && evidence != "genuine-forward" then Some(("excluded", evidence))
    else if timing != "on-time" && c.slot.stream.evidenceClass == "synthetic-fixture" then
      Some(("excluded", "publication-" + timing))
    else if c.point.None? then
      Some(("abstained", if c.reason.Some? && c.reason.value != "" then c.reason.value else "abstained"))
    else if asOf < c.slot.EndpointNs() + ISSUE_DELAY_NS then Some(("pending", "not-mature"))
    else None
  }

  /** Not withheld is exactly fit to be scored. */
  lemma {:induction false} WithheldExactly(c: Content, receipt: Json, asOf: int)
    ensures Withheld(c, receipt, asOf).None? <==>
              && Scorable(c, receipt, asOf)
              && (c.slot.stream.evidenceClass == "synthetic-fixture" ==>
                    GetText(receipt, "timeliness") == Some("on-time"))
  {
  }

  lemma {:induction false} KeepsScored(was: seq<Json>, now: seq<Json>, kind: string, subject: string, body: Json)
    requires WellScored(was) && Appended(was, now, kind, subject, body)
    requires kind == "outcome" ==> OutcomeFits(was, subject, Canon(body))
    requires kind == "score" ==> ScoreFits(was, subject, Canon(body))
    ensures WellScored(now)
  {
    hide WellScored, OutcomeFits, ScoreFits, Canonical.Valid, Canon;
    ScoredExtends(was, now[|was|]);
  }

  /** The slot stands published and certified with this content and certificate. */
  predicate Stands(h: seq<Json>, subject: string, c: Content, receipt: Json) {
    && |Bodies(h, "publication", subject)| == 1
    && ContentIn(Bodies(h, "publication", subject)[0]) == Some(c)
    && Bodies(h, "receipt", subject) == [receipt]
  }

  predicate HasVersion(bodies: seq<Json>, version: string) {
    exists b | b in bodies :: Version(b) == Some(version)
  }

  function OfVersion(bodies: seq<Json>, version: string): (found: seq<Json>)
    ensures found == [] <==> !HasVersion(bodies, version)
    ensures forall b | b in found :: b in bodies && Version(b) == Some(version)
  {
    if bodies == [] then []
    else
      var last := bodies[|bodies| - 1];
      assert bodies == bodies[..|bodies| - 1] + [last];
      OfVersion(bodies[..|bodies| - 1], version) + if Version(last) == Some(version) then [last] else []
  }

  lemma {:induction false} OutcomeBelongs(
      codec: Codec, h: seq<Json>, subject: string, c: Content, receipt: Json, outcome: Outcome, version: string,
      asOf: int)
    requires Stands(h, subject, c, receipt) && !HasVersion(Bodies(h, "outcome", subject), version)
    requires var body := OutcomeJson(codec, c, outcome, version, asOf, Supersedes(Bodies(h, "outcome", subject)));
             Canonical.Valid(body)
    ensures var body := OutcomeJson(codec, c, outcome, version, asOf, Supersedes(Bodies(h, "outcome", subject)));
            OutcomeFits(h, subject, Canon(body))
  {
    hide OutcomeJson, Bodies, Canonical.Valid, ContentIn, Version;
    OutcomeReads(codec, c, outcome, version, asOf, Supersedes(Bodies(h, "outcome", subject)));
  }

  lemma {:induction false} OutcomeNoted(
      was: seq<Json>, now: seq<Json>, subject: string, body: Json, c: Content, receipt: Json, version: string)
    requires Appended(was, now, "outcome", subject, body) && Stands(was, subject, c, receipt)
    requires Version(Canon(body)) == Some(version)
    ensures Stands(now, subject, c, receipt) && HasVersion(Bodies(now, "outcome", subject), version)
    ensures Bodies(now, "score", subject) == Bodies(was, "score", subject)
  {
    hide Bodies, Appended, ContentIn, Version, Canon;
    BodiesAppended(was, now, "outcome", subject, body, "outcome", subject);
    BodiesAppended(was, now, "outcome", subject, body, "publication", subject);
    BodiesAppended(was, now, "outcome", subject, body, "receipt", subject);
    BodiesAppended(was, now, "outcome", subject, body, "score", subject);
    var more := Bodies(now, "outcome", subject);
    assert more[|more| - 1] in more;
  }

  lemma {:induction false} ScoreBelongs(
      codec: Codec, h: seq<Json>, subject: string, c: Content, receipt: Json, outcome: Outcome, version: string,
      asOf: int, m: Measures, evidence: Json)
    requires Stands(h, subject, c, receipt) && Scorable(c, receipt, asOf)
    requires HasVersion(Bodies(h, "outcome", subject), version) && !HasVersion(Bodies(h, "score", subject), version)
    requires Get(receipt, "evidence_class") == Some(evidence)
    requires Canonical.Valid(ScoreJson(codec, c, outcome, version, asOf, m, evidence))
    ensures var body := Canon(ScoreJson(codec, c, outcome, version, asOf, m, evidence));
            ScoreFits(h, subject, body) && GetInt(body, "as_of_ns") == Some(asOf) && Version(body) == Some(version)
  {
    hide ScoreJson, Bodies, Canonical.Valid, ContentIn, Version, Scorable, Canon;
    ScoreReads(codec, c, outcome, version, asOf, m, evidence);
  }

  /** What `r` says is the score on record for this version. */
  predicate OnRecord(h: seq<Json>, subject: string, version: string, r: Json) {
    exists b | b in Bodies(h, "score", subject) :: Version(b) == Some(version) && (r == b || Canon(r) == b)
  }

  lemma {:induction false} ScoreNoted(was: seq<Json>, now: seq<Json>, subject: string, body: Json, version: string)
    requires Appended(was, now, "score", subject, body) && Version(Canon(body)) == Some(version)
    ensures OnRecord(now, subject, version, body)
  {
    hide Bodies, Appended, Version, Canon;
    BodiesAppended(was, now, "score", subject, body, "score", subject);
    var more := Bodies(now, "score", subject);
    assert more[|more| - 1] in more;
  }

  lemma {:induction false} AppendedValid(was: seq<Json>, now: seq<Json>, kind: string, subject: string, body: Json)
    requires Appended(was, now, kind, subject, body)
    ensures Canonical.Valid(body)
  {
  }

  lemma {:induction false} AppendedMatures(
      was: seq<Json>, now: seq<Json>, kind: string, subject: string, body: Json, moment: int)
    requires Appended(was, now, kind, subject, body) && kind in {"slot", "outcome", "score"}
    requires kind == "score" ==> GetInt(Canon(body), "as_of_ns") == Some(moment)
    ensures Matured(was, now, subject, moment)
  {
    hide Canonical.Valid, Canon, GetInt;
  }

  // ----- what each record is, and the room it takes

  predicate IsStanding(h: seq<Json>, subject: string) {
    && |Bodies(h, "publication", subject)| == 1 && ContentIn(Bodies(h, "publication", subject)[0]).Some?
    && |Bodies(h, "receipt", subject)| == 1
  }

  function VintageJson(
      codec: Codec, h: seq<Json>, subject: string, c: Content, outcome: Outcome, version: string, now: int): Json
  {
    OutcomeJson(codec, c, outcome, version, now, Supersedes(Bodies(h, "outcome", subject)))
  }

  /** A new version is recorded behind the ones there are; a known one adds nothing. */
  predicate VintageAdded(
      codec: Codec, was: seq<Json>, now: seq<Json>, subject: string, c: Content, outcome: Outcome, version: string,
      moment: int)
  {
    var vintages := Bodies(was, "outcome", subject);
    && Bodies(now, "outcome", subject)
       == (if HasVersion(vintages, version) then vintages
           else vintages + [Canon(VintageJson(codec, was, subject, c, outcome, version, moment))])
  }

  function MadeScore(
      codec: Codec, measure: (string, string) -> Measures, c: Content, receipt: Json, outcome: Outcome, version: string,
      now: int): Option<Json>
  {
    var evidence := Get(receipt, "evidence_class");
    if evidence.None? || c.point.None? || outcome.value.None? then None
    else
      Some(ScoreJson(
        codec, c, outcome, version, now, measure(DecimalText(c.point.value), outcome.value.value), evidence.value))
  }

  predicate RoomForState(codec: Codec, rows: seq<Row>, slot: Slot, state: string, reason: string, asOf: int) {
    var subject, body := SlotSha(codec, slot), StateJson(slot, state, reason, asOf);
    Canon(body) in Bodies(Events(codec, rows), "slot", subject) || CanAppend(codec, rows, "slot", subject, body)
  }

  predicate RoomForVintage(
      codec: Codec, rows: seq<Row>, subject: string, c: Content, outcome: Outcome, version: string, now: int)
  {
    var h := Events(codec, rows);
    HasVersion(Bodies(h, "outcome", subject), version) ||
    CanAppend(codec, rows, "outcome", subject, VintageJson(codec, h, subject, c, outcome, version, now))
  }

  function RowsWithVintage(
      codec: Codec, rows: seq<Row>, subject: string, c: Content, outcome: Outcome, version: string, now: int): seq<Row>
  {
    var h := Events(codec, rows);
    if HasVersion(Bodies(h, "outcome", subject), version) then rows
    else Grown(codec, rows, "outcome", subject, VintageJson(codec, h, subject, c, outcome, version, now))
  }

  predicate RoomForScore(
      codec: Codec, measure: (string, string) -> Measures, rows: seq<Row>, subject: string, c: Content, receipt: Json,
      outcome: Outcome, version: string, now: int)
  {
    var made := MadeScore(codec, measure, c, receipt, outcome, version, now);
    HasVersion(Bodies(Events(codec, rows), "score", subject), version) ||
    (made.Some? && CanAppend(codec, rows, "score", subject, made.value))
  }

  /** When an attempt to score is answered at all, given that nothing breaks. */
  predicate RoomToMature(
      codec: Codec, measure: (string, string) -> Measures, rows: seq<Row>, subject: string, asOf: int,
      clock: Option<ClockSample>, sourceMatches: bool, outcome: Option<Outcome>)
  {
    var h := Events(codec, rows);
    && clock.Some? && 0 <= asOf <= clock.value.wall && IsStanding(h, subject)
    && var now := clock.value.wall;
       var c, receipt := ContentIn(Bodies(h, "publication", subject)[0]).value, Bodies(h, "receipt", subject)[0];
       match Withheld(c, receipt, now)
       case Some((state, reason)) =>
         (Sealed(c) || sourceMatches) && RoomForState(codec, rows, c.slot, state, reason, now)
       case None =>
         && sourceMatches && outcome.Some?
         && var o := outcome.value;
            if Available(o, now) then
              && RoomForVintage(codec, rows, subject, c, o, o.version.value, now)
              && RoomForScore(
                   codec, measure, RowsWithVintage(codec, rows, subject, c, o, o.version.value, now), subject, c,
                   receipt,
                   o, o.version.value, now)
            else RoomForState(codec, rows, c.slot, Delay(o).0, Delay(o).1, now)
  }

  class ForecastScores {
    const ledger: ForecastLedger
    const measure: (string, string) -> Measures

    constructor (ledger: ForecastLedger, measure: (string, string) -> Measures)
      ensures this.ledger == ledger && this.measure == measure
    {
      this.ledger, this.measure := ledger, measure;
    }

    ghost predicate Valid()
      reads ledger
    {
      ledger.Valid() && WellScored(ledger.History())
    }

    /** Append one record about a slot, if it belongs there. */
    method Note(kind: string, subject: string, body: Json, ghost moment: int) returns (ok: bool)
      requires Valid() && body.Obj? && kind in {"slot", "outcome", "score"}
      requires kind == "outcome" && Canonical.Valid(body) ==> OutcomeFits(ledger.History(), subject, Canon(body))
      requires kind == "score" && Canonical.Valid(body) ==>
                 && ScoreFits(ledger.History(), subject, Canon(body))
                 && GetInt(Canon(body), "as_of_ns") == Some(moment)
      modifies ledger
      ensures Valid() && Matured(old(ledger.History()), ledger.History(), subject, moment)
      ensures ledger.History() == old(ledger.History()) ||
              Appended(old(ledger.History()), ledger.History(), kind, subject, body)
      ensures ok ==> Appended(old(ledger.History()), ledger.History(), kind, subject, body)
      ensures ok ==> ledger.anchor.Some? && ledger.events == ledger.History() && !ledger.failed
      ensures ok ==> ledger.rows == Grown(ledger.codec, old(ledger.rows), kind, subject, body)
      ensures old(ledger.Working()) ==>
                ledger.Working() && ok == CanAppend(ledger.codec, old(ledger.rows), kind, subject, body)
    {
      hide Usable, Lawful, Chain, Sound, Disciplined, WellScored, OutcomeFits, ScoreFits, Canonical.Valid, Canon;
      hide CanAppend, Appended;
      ghost var was := ledger.History();
      ledger.PlainAdmitted(kind, subject, body);
      ok := ledger.Record(kind, subject, body);
      if ledger.History() != was {
        AppendedValid(was, ledger.History(), kind, subject, body);
        KeepsScored(was, ledger.History(), kind, subject, body);
        AppendedMatures(was, ledger.History(), kind, subject, body, moment);
      }
    }

    /** Record why a slot is not scored, unless that is already on record. */
    method State(slot: Slot, state: string, reason: string, asOf: int) returns (r: Option<Json>)
      requires Valid()
      modifies ledger
      ensures Valid() && Matured(old(ledger.History()), ledger.History(), SlotSha(ledger.codec, slot), asOf)
      ensures forall i | old(|ledger.History()|) <= i < |ledger.History()| :: Kind(ledger.History()[i]) == "slot"
      ensures r.Some? ==>
                && r.value == StateJson(slot, state, reason, asOf)
                && Canon(r.value) in Bodies(ledger.History(), "slot", SlotSha(ledger.codec, slot))
      ensures old(ledger.Working()) ==>
                && ledger.Working()
                && (r.Some? <==> RoomForState(ledger.codec, old(ledger.rows), slot, state, reason, asOf))
    {
      hide Usable, Lawful, Chain, Sound, Disciplined, WellScored, Canonical.Valid, Canon, Bodies, SlotSha, SlotJson;
      hide CanAppend;
      var ok := ledger.Reload();
      if !ok { return None; }
      var subject, body := SlotSha(ledger.codec, slot), StateJson(slot, state, reason, asOf);
      if Canon(body) !in Bodies(ledger.events, "slot", subject) {
        ghost var was := ledger.History();
        ok := Note("slot", subject, body, asOf);
        if !ok { return None; }
        BodiesAppended(was, ledger.History(), "slot", subject, body, "slot", subject);
      }
      r := Some(body);
    }

    /** Record this version of the outcome if it is new. */
    method AddVintage(subject: Digest, c: Content, receipt: Json, outcome: Outcome, version: string, now: int)
      returns (ok: bool)
      requires Valid() && Stands(ledger.History(), subject, c, receipt)
      modifies ledger
      ensures Valid() && Matured(old(ledger.History()), ledger.History(), subject, now)
      ensures ok ==> Stands(ledger.History(), subject, c, receipt)
      ensures ok ==> HasVersion(Bodies(ledger.History(), "outcome", subject), version)
      ensures ok ==> Bodies(ledger.History(), "score", subject) == Bodies(old(ledger.History()), "score", subject)
      ensures ok ==>
                VintageAdded(ledger.codec, old(ledger.History()), ledger.History(), subject, c, outcome, version, now)
      ensures ok ==> ledger.rows == RowsWithVintage(ledger.codec, old(ledger.rows), subject, c, outcome, version, now)
      ensures old(ledger.Working()) ==>
                ledger.Working() &&
                (ok <==> RoomForVintage(ledger.codec, old(ledger.rows), subject, c, outcome, version, now))
    {
      hide Usable, Lawful, Chain, Sound, Disciplined, WellScored, Canonical.Valid, Bodies, OutcomeFits, HasVersion;
      hide Stands, Canon, Version, MaturedEvent, CanAppend, OutcomeJson;
      ok := ledger.Reload();
      if !ok { return; }
      var vintages := Bodies(ledger.events, "outcome", subject);
      if HasVersion(vintages, version) { return; }
      hide Appended;
      var body := OutcomeJson(ledger.codec, c, outcome, version, now, Supersedes(vintages));
      ghost var was := ledger.History();
      if Canonical.Valid(body) {
        OutcomeBelongs(ledger.codec, was, subject, c, receipt, outcome, version, now);
      }
      ok := Note("outcome", subject, body, now);
      if ok {
        AppendedValid(was, ledger.History(), "outcome", subject, body);
        BodiesAppended(was, ledger.History(), "outcome", subject, body, "outcome", subject);
        BodiesAppended(was, ledger.History(), "outcome", subject, body, "score", subject);
        OutcomeReads(ledger.codec, c, outcome, version, now, Supersedes(vintages));
        OutcomeNoted(was, ledger.History(), subject, body, c, receipt, version);
      }
    }

    /** Give back the score of this version, making it now if there is none. */
    method AddScore(subject: Digest, c: Content, receipt: Json, outcome: Outcome, version: string, now: int)
      returns (r: Option<Json>)
      requires Valid() && Stands(ledger.History(), subject, c, receipt) && Scorable(c, receipt, now)
      requires HasVersion(Bodies(ledger.History(), "outcome", subject), version)
      modifies ledger
      ensures Valid() && Matured(old(ledger.History()), ledger.History(), subject, now)
      ensures r.Some? ==> OnRecord(ledger.History(), subject, version, r.value)
      ensures HasVersion(Bodies(old(ledger.History()), "score", subject), version) ==>
                ledger.History() == old(ledger.History())
      ensures !HasVersion(Bodies(old(ledger.History()), "score", subject), version) && r.Some? ==>
                Some(r.value) == MadeScore(ledger.codec, measure, c, receipt, outcome, version, now)
      ensures r.Some? ==>
                Bodies(ledger.History(), "outcome", subject) == Bodies(old(ledger.History()), "outcome", subject)
      ensures old(ledger.Working()) ==>
                (r.Some? <==>
                  RoomForScore(ledger.codec, measure, old(ledger.rows), subject, c, receipt, outcome, version, now))
    {
      hide Usable, Lawful, Chain, Sound, Disciplined, WellScored, Canonical.Valid, Bodies, ScoreFits, HasVersion;
      hide Stands, Canon, Version, MaturedEvent, Scorable, CanAppend, ScoreJson;
      var ok := ledger.Reload();
      if !ok { return None; }
      var existing := OfVersion(Bodies(ledger.events, "score", subject), version);
      if existing != [] {
        assert existing[0] in existing;
        return Some(existing[0]);
      }
      hide Appended;
      var evidence := Get(receipt, "evidence_class");
      if evidence.None? || c.point.None? || outcome.value.None? { return None; }
      var m := measure(DecimalText(c.point.value), outcome.value.value);
      var body := ScoreJson(ledger.codec, c, outcome, version, now, m, evidence.value);
      ghost var was := ledger.History();
      if Canonical.Valid(body) {
        ScoreBelongs(ledger.codec, was, subject, c, receipt, outcome, version, now, m, evidence.value);
      }
      ok := Note("score", subject, body, now);
      if ok {
        AppendedValid(was, ledger.History(), "score", subject, body);
        BodiesAppended(was, ledger.History(), "score", subject, body, "outcome", subject);
        ScoreReads(ledger.codec, c, outcome, version, now, m, evidence.value);
        ScoreNoted(was, ledger.History(), subject, body, version);
        r := Some(body);
      } else {
        r := None;
      }
    }

    /** The slot as the ledger holds it: its content, its certificate. */
    method Standing(subject: Digest) returns (found: Option<(Content, Json)>)
      requires Valid()
      modifies ledger`events, ledger`bytes, ledger`anchor
      ensures Valid() && ledger.History() == old(ledger.History())
      ensures found.Some? ==>
                && Stands(ledger.History(), subject, found.value.0, found.value.1)
                && SlotSha(ledger.codec, found.value.0.slot) == subject
      ensures ledger.rows == old(ledger.rows)
      ensures old(ledger.Working()) ==> ledger.Working() && (found.Some? <==> IsStanding(ledger.History(), subject))
    {
      hide Usable, Lawful, Chain, Sound, Disciplined, WellScored, Certified, ContentIn, Published;
      var published := ledger.Only("publication", subject);
      if published.None? { return None; }
      var c := ContentIn(published.value);
      var receipt := ledger.Only("receipt", subject);
      if c.None? || receipt.None? { return None; }
      ghost var i := BodyFrom(ledger.History(), "publication", subject, published.value);
      ledger.CertifiedAt(i);
      ContentOfCertified(ledger.codec, ledger.History()[i], c.value);
      found := Some((c.value, receipt.value));
    }

    /**
     * One attempt to score a slot. `clock` is the owner's sample, `sourceMatches` whether the
     * series is the stream's own, and `outcome` what the series says; each may fail.
     */
    method Mature(
        subject: Digest, asOf: int, clock: Option<ClockSample>, sourceMatches: bool, outcome: Option<Outcome>)
      returns (r: Option<Json>)
      requires Valid()
      modifies ledger
      ensures Valid()
      ensures clock.Some? ==> Matured(old(ledger.History()), ledger.History(), subject, clock.value.wall)
      ensures clock.None? || !(0 <= asOf <= clock.value.wall) ==>
                r.None? && ledger.History() == old(ledger.History())
      ensures r.Some? ==>
                Answered(
                  ledger.codec, measure, old(ledger.History()), ledger.History(), subject, clock.value.wall,
                  outcome, r.value)
      ensures old(ledger.Working()) ==>
                (r.Some? <==>
                  RoomToMature(ledger.codec, measure, old(ledger.rows), subject, asOf, clock, sourceMatches, outcome))
    {
      hide Usable, Lawful, Chain, Sound, Disciplined, WellScored, Bodies, Withheld, MaturedEvent;
      hide RoomForState, RoomForVintage, RoomForScore, RowsWithVintage, VintageAdded, OnRecord, Scorable, HasVersion;
      hide Compact, Lagging, ValidContent, Delay;
      if clock.None? || !(0 <= asOf <= clock.value.wall) { return None; }
      var now := clock.value.wall;
      var found := Standing(subject);
      if found.None? { return None; }
      var (c, receipt) := found.value;
      var withheld := Withheld(c, receipt, now);
      if withheld.Some? {
        if !Sealed(c) && !sourceMatches { return None; }
        r := State(c.slot, withheld.value.0, withheld.value.1, now);
        return;
      }
      WithheldExactly(c, receipt, now);
      if !sourceMatches || outcome.None? { return None; }
      var o := outcome.value;
      if !Available(o, now) {
        r := State(c.slot, Delay(o).0, Delay(o).1, now);
        return;
      }
      r := MatureNow(subject, c, receipt, o, o.version.value, now);
    }

    /** Record the outcome's version if it is new, then its score if it has none. */
    method MatureNow(subject: Digest, c: Content, receipt: Json, o: Outcome, version: string, now: int)
      returns (r: Option<Json>)
      requires Valid() && Stands(ledger.History(), subject, c, receipt) && Scorable(c, receipt, now)
      modifies ledger
      ensures Valid() && Matured(old(ledger.History()), ledger.History(), subject, now)
      ensures r.Some? ==>
                ScoreAnswered(
                  ledger.codec, measure, old(ledger.History()), ledger.History(), subject, c, receipt, o, version,
                  now, r.value)
      ensures old(ledger.Working()) ==>
                (r.Some? <==>
                  && RoomForVintage(ledger.codec, old(ledger.rows), subject, c, o, version, now)
                  && RoomForScore(
                       ledger.codec, measure, RowsWithVintage(ledger.codec, old(ledger.rows), subject, c, o, version,
                                       now),
                       subject, c, receipt, o, version, now))
    {
      hide Usable, Lawful, Chain, Sound, Disciplined, WellScored, Bodies, MaturedEvent;
      hide RoomForVintage, RoomForScore, RowsWithVintage, OnRecord, Scorable, HasVersion, MadeScore, Stands;
      ghost var was := ledger.History();
      var ok := AddVintage(subject, c, receipt, o, version, now);
      if !ok { return None; }
      ghost var between := ledger.History();
      r := AddScore(subject, c, receipt, o, version, now);
    }
  }

  // ----- what an attempt to score answers

  predicate Available(o: Outcome, now: int) {
    o.value.Some? && o.version.Some? && (o.maturedAt.Some? ==> o.maturedAt.value <= now)
  }

  function Delay(o: Outcome): (string, string) {
    if o.value.None? || o.version.None? then
      var reason := if o.reason.Some? && o.reason.value != "" then o.reason.value else "unavailable";
      (Unavailable(reason), reason)
    else ("pending", "not-yet-available")
  }

  ghost predicate StateAnswered(
      codec: Codec, was: seq<Json>, now: seq<Json>, slot: Slot, state: string, reason: string, moment: int, r: Json)
  {
    && r == StateJson(slot, state, reason, moment)
    && Canon(r) in Bodies(now, "slot", SlotSha(codec, slot))
    && was <= now
    && forall i | |was| <= i < |now| :: Kind(now[i]) == "slot"
  }

  /** Which record answers the attempt: a state while withheld or unavailable, else the score. */
  ghost predicate Answered(
      codec: Codec, measure: (string, string) -> Measures, was: seq<Json>, now: seq<Json>, subject: string,
      moment: int, outcome: Option<Outcome>, r: Json)
  {
    exists c, receipt | Stands(was, subject, c, receipt) ::
      AnsweredFor(codec, measure, was, now, subject, moment, outcome, r, c, receipt)
  }

  /** The score on record for this version; freshly made from the point and the value if it is new. */
  predicate ScoreAnswered(
      codec: Codec, measure: (string, string) -> Measures, was: seq<Json>, now: seq<Json>, subject: string,
      c: Content, receipt: Json, outcome: Outcome, version: string, moment: int, r: Json)
  {
    && OnRecord(now, subject, version, r)
    && VintageAdded(codec, was, now, subject, c, outcome, version, moment)
    && (HasVersion(Bodies(was, "score", subject), version) ||
        Some(r) == MadeScore(codec, measure, c, receipt, outcome, version, moment))
  }

  ghost predicate AnsweredFor(
      codec: Codec, measure: (string, string) -> Measures, was: seq<Json>, now: seq<Json>, subject: string,
      moment: int, outcome: Option<Outcome>, r: Json,
      c: Content, receipt: Json)
  {
    match Withheld(c, receipt, moment)
    case Some((state, reason)) => StateAnswered(codec, was, now, c.slot, state, reason, moment, r)
    case None =>
      && outcome.Some?
      && if Available(outcome.value, moment) then
           ScoreAnswered(
             codec, measure, was, now, subject, c, receipt, outcome.value, outcome.value.version.value, moment, r)
         else StateAnswered(codec, was, now, c.slot, Delay(outcome.value).0, Delay(outcome.value).1, moment, r)
  }

  lemma {:induction false} ContentOfCertified(codec: Codec, e: Json, c: Content)
    requires Certified(codec, e) && ContentIn(Body(e)) == Some(c)
    ensures SlotSha(codec, c.slot) == Subject(e)
  {
  }
}
