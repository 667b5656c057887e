/**
 * What a journal of forecasts must look like: the publish, receipt, conflict and stream
 * discipline, stated one event at a time against everything before it.
 */
module Protocol {
  import opened Wrappers
  import opened Canonical
  import opened Records
  import opened Domain
  import opened Decimals
  import opened Journal
  import opened LedgerContracts

  /** The bodies of the events of one kind about one subject, in journal order. */
  function Bodies(events: seq<Json>, kind: string, subject: string): seq<Json> {
    if events == [] then []
    else
      var last := events[|events| - 1];
      Bodies(events[..|events| - 1], kind, subject) +
      if Kind(last) == kind && Subject(last) == subject then [Body(last)] else []
  }

  lemma {:induction false} BodiesAppend(events: seq<Json>, e: Json, kind: string, subject: string)
    ensures Bodies(events + [e], kind, subject)
            == Bodies(events, kind, subject) + if Kind(e) == kind && Subject(e) == subject then [Body(e)] else []
  {
    assert (events + [e])[..|events|] == events;
  }

  lemma {:induction false} BodiesGrow(events: seq<Json>, more: seq<Json>, kind: string, subject: string)
    requires events <= more
    ensures Bodies(events, kind, subject) <= Bodies(more, kind, subject)
    decreases |more|
  {
    if |events| == |more| {
      assert events == more;
    } else {
      BodiesGrow(events, more[..|more| - 1], kind, subject);
    }
  }

  lemma {:induction false} BodiesAt(events: seq<Json>, i: nat)
    requires i < |events|
    ensures Body(events[i]) in Bodies(events, Kind(events[i]), Subject(events[i]))
  {
    var upTo := events[..i + 1];
    assert upTo[..i] == events[..i] && upTo[i] == events[i];
    BodiesGrow(upTo, events, Kind(events[i]), Subject(events[i]));
    var b := Bodies(upTo, Kind(events[i]), Subject(events[i]));
    assert b[|b| - 1] == Body(events[i]);
  }

  lemma {:induction false} BodyFrom(events: seq<Json>, kind: string, subject: string, b: Json) returns (i: nat)
    requires b in Bodies(events, kind, subject)
    ensures i < |events| && Kind(events[i]) == kind && Subject(events[i]) == subject && Body(events[i]) == b
  {
    var n := |events| - 1;
    if b in Bodies(events[..n], kind, subject) {
      i := BodyFrom(events[..n], kind, subject, b);
    } else {
      i := n;
    }
  }

  lemma {:induction false} BodiesNone(events: seq<Json>, kind: string, subject: string)
    ensures Bodies(events, kind, subject) == []
            <==> forall i | 0 <= i < |events| :: !(Kind(events[i]) == kind && Subject(events[i]) == subject)
  {
    if events != [] {
      var rest := events[..|events| - 1];
      BodiesNone(rest, kind, subject);
      assert forall i | 0 <= i < |rest| :: rest[i] == events[i];
    }
  }

  // ----- publications and their certificates

  /** The content a publication event carries. */
  function Published(e: Json): Option<Content> {
    match Get(Body(e), "content")
    case None => None
    case Some(j) => FromBody(j)
  }

  /** A publication event states the identities of its own content. */
  predicate Certified(codec: Codec, e: Json) {
    match Published(e)
    case None => false
    case Some(c) =>
      SlotSha(codec, c.slot) == Subject(e) && GetText(Body(e), "content_sha256") == Some(ContentSha(codec, c))
  }

  function CertifiedBy(codec: Codec): Json -> bool {
    e => Certified(codec, e)
  }

  function StreamSubject(codec: Codec, s: Stream): Digest { Identity(codec, Str(s.streamId)) }

  /** Genuine forward evidence is only ever claimed for an on-time publication. */
  predicate Honest(receipt: Json) {
    GetText(receipt, "evidence_class") == Some("genuine-forward") ==>
      GetText(receipt, "timeliness") == Some("on-time")
  }

  /** What one event needs of the journal before it. */
  predicate Placed(codec: Codec, before: seq<Json>, e: Json) {
    && (Kind(e) == "stream" ==> Bodies(before, "stream", Subject(e)) == [])
    && (Kind(e) == "publication" ==>
          && Bodies(before, "publication", Subject(e)) == []
          && Published(e).Some?
          && var stream := Published(e).value.slot.stream;
          Bodies(before, "stream", StreamSubject(codec, stream)) == [Canon(StreamJson(stream))])
    && (Kind(e) == "receipt" ==>
          && Bodies(before, "receipt", Subject(e)) == []
          && |Bodies(before, "publication", Subject(e))| == 1
          && GetText(Bodies(before, "publication", Subject(e))[0], "content_sha256")
             == GetText(Body(e), "content_sha256")
          && Honest(Body(e)))
  }

  predicate PlacedAt(codec: Codec, events: seq<Json>, i: nat)
    requires i < |events|
  {
    Placed(codec, events[..i], events[i])
  }

  ghost predicate Disciplined(codec: Codec, events: seq<Json>) {
    forall i | 0 <= i < |events| :: PlacedAt(codec, events, i)
  }

  lemma {:induction false} DisciplineExtends(codec: Codec, events: seq<Json>, e: Json)
    requires Disciplined(codec, events)
    ensures Disciplined(codec, events + [e]) <==> Placed(codec, events, e)
  {
    var more := events + [e];
    assert more[..|events|] == events;
    assert PlacedAt(codec, more, |events|) == Placed(codec, events, e);
    forall i | 0 <= i < |events| ensures PlacedAt(codec, more, i) {
      assert more[..i] == events[..i];
      assert PlacedAt(codec, events, i);
    }
  }

  lemma {:induction false} DisciplinePrefix(codec: Codec, events: seq<Json>, n: nat)
    requires Disciplined(codec, events) && n <= |events|
    ensures Disciplined(codec, events[..n])
  {
    forall i | 0 <= i < n ensures PlacedAt(codec, events[..n], i) {
      assert events[..n][..i] == events[..i];
      assert PlacedAt(codec, events, i);
    }
  }

  /** Safety: one publication, one certificate, one manifest for each subject, ever. */
  lemma {:induction false} AtMostOnce(codec: Codec, events: seq<Json>, kind: string, subject: string)
    requires Disciplined(codec, events)
    requires kind == "publication" || kind == "receipt" || kind == "stream"
    ensures |Bodies(events, kind, subject)| <= 1
  {
    if events != [] {
      var n := |events| - 1;
      DisciplinePrefix(codec, events, n);
      AtMostOnce(codec, events[..n], kind, subject);
      assert PlacedAt(codec, events, n);
      BodiesAppend(events[..n], events[n], kind, subject);
      assert events == events[..n] + [events[n]];
    }
  }

  /** A publication, once made, is what any later journal still says about its slot. */
  lemma {:induction false} PublicationStable(
      codec: Codec, events: seq<Json>, more: seq<Json>, kind: string, subject: string)
    requires events <= more && Disciplined(codec, more) && Bodies(events, kind, subject) != []
    requires kind == "publication" || kind == "receipt" || kind == "stream"
    ensures Bodies(more, kind, subject) == Bodies(events, kind, subject)
  {
    BodiesGrow(events, more, kind, subject);
    AtMostOnce(codec, more, kind, subject);
  }

  lemma {:induction false} ReceiptPlaced(codec: Codec, before: seq<Json>, e: Json)
    requires Placed(codec, before, e) && Kind(e) == "receipt"
    ensures |Bodies(before, "publication", Subject(e))| == 1 && Honest(Body(e))
    ensures GetText(Bodies(before, "publication", Subject(e))[0], "content_sha256")
            == GetText(Body(e), "content_sha256")
  {
  }

  /** A certificate follows the one publication it names, and agrees with it. */
  lemma {:induction false} ReceiptFollows(codec: Codec, events: seq<Json>, j: nat) returns (i: nat)
    requires Disciplined(codec, events) && j < |events| && Kind(events[j]) == "receipt"
    ensures i < j && Kind(events[i]) == "publication" && Subject(events[i]) == Subject(events[j])
    ensures GetText(Body(events[i]), "content_sha256") == GetText(Body(events[j]), "content_sha256")
    ensures Honest(Body(events[j]))
  {
    var before, s := events[..j], Subject(events[j]);
    assert PlacedAt(codec, events, j);
    ReceiptPlaced(codec, before, events[j]);
    var found := Bodies(before, "publication", s);
    BodiesNone(before, "publication", s);
    i :| 0 <= i < |before| && Kind(before[i]) == "publication" && Subject(before[i]) == s;
    BodiesAt(before, i);
    assert Body(before[i]) in found && found == [found[0]];
  }

  /** The stream a publication names was admitted before it, and is the only one so named. */
  lemma {:induction false} StreamPrecedes(codec: Codec, events: seq<Json>, i: nat)
    requires Disciplined(codec, events) && i < |events| && Kind(events[i]) == "publication"
    ensures Published(events[i]).Some?
    ensures var stream := Published(events[i]).value.slot.stream;
            && Bodies(events[..i], "stream", StreamSubject(codec, stream)) == [Canon(StreamJson(stream))]
            && Bodies(events, "stream", StreamSubject(codec, stream)) == [Canon(StreamJson(stream))]
  {
    assert PlacedAt(codec, events, i);
    var stream := Published(events[i]).value.slot.stream;
    PublicationStable(codec, events[..i], events, "stream", StreamSubject(codec, stream));
  }

  /** Every publication carries its certificate. */
  ghost predicate AllCertified(events: seq<Json>) {
    forall i | 0 <= i < |events| && Kind(events[i]) == "publication" ::
      |Bodies(events, "receipt", Subject(events[i]))| == 1
  }

  // ----- bodies the ledger writes

  function PublicationJson(codec: Codec, c: Content, attempt: string): Json {
    Obj([
      Member("content", ContentJson(c)),
      Member("content_sha256", Str(ContentSha(codec, c))),
      Member("attempt_id", Str(attempt))])
  }

  function ConflictJson(accepted: Json, rejected: Digest, attempt: string): Json {
    Obj([
      Member("disposition", Str("conflict")),
      Member("accepted_content_sha256", accepted),
      Member("rejected_content_sha256", Str(rejected)),
      Member("attempt_id", Str(attempt))])
  }

  function StreamConflictJson(accepted: Digest, rejected: Digest): Json {
    Obj([
      Member("disposition", Str("conflict")),
      Member("reason", Str("stream-admission-conflict")),
      Member("accepted_stream_sha256", Str(accepted)),
      Member("rejected_stream_sha256", Str(rejected))])
  }

  function ReceiptJson(
      codec: Codec, c: Content, timing: string, evidence: string, observation: ClockSample): Json
  {
    Obj([
      Member("slot_sha256", Str(SlotSha(codec, c.slot))),
      Member("content_sha256", Str(ContentSha(codec, c))),
      Member("disposition", Str("accepted")),
      Member("timeliness", Str(timing)),
      Member("evidence_class", Str(evidence)),
      Member("deadline_ns", Int(c.slot.DeadlineNs())),
      Member("post_commit_observation", SampleJson(observation))])
  }

  /** The certificates of an input that vouch for this content's availability, on time. */
  function QualifiedInputs(receipts: seq<Json>, c: Content): seq<Json> {
    if receipts == [] then []
    else
      var last := receipts[|receipts| - 1];
      QualifiedInputs(receipts[..|receipts| - 1], c) +
      if Get(last, "latest_available_ns") == Some(Int(c.latestAvailableNs)) &&
         GetText(last, "timeliness") == Some("on-time")
      then [last] else []
  }

  predicate InputMatches(input: Json, c: Content) {
    && Get(input, "origin_ns") == Some(Int(c.slot.originNs))
    && Get(input, "instrument") == Some(Str(c.slot.instrument))
    && Get(input, "reference_sha256") == Some(Str(c.referenceSha256))
    && Get(input, "close") == Some(Str(DecimalText(c.referenceClose)))
  }

  function ForwardClass(admitted: bool, events: seq<Json>, c: Content, timing: string): string {
    var inputs := Bodies(events, "input", c.inputSha256);
    var receipts := QualifiedInputs(Bodies(events, "input-receipt", c.inputSha256), c);
    if timing == "late" then "late-forward"
    else if !admitted || |inputs| != 1 || |receipts| != 1 || timing != "on-time" then "forward-unclassified"
    else if !InputMatches(inputs[0], c) then "forward-unclassified"
    else "genuine-forward"
  }

  function EvidenceClass(admitted: bool, events: seq<Json>, c: Content, timing: string): string {
    if c.slot.IsForward() then ForwardClass(admitted, events, c, timing) else c.slot.stream.evidenceClass
  }

  lemma {:induction false} PublicationApart(codec: Codec, c: Content, attempt: string)
    ensures Apart(PublicationJson(codec, c, attempt).members)
  {
    hide ContentJson, ContentSha;
  }

  lemma {:induction false} PublicationShape(codec: Codec, c: Content, attempt: string)
    requires Canonical.Valid(ContentJson(c))
    ensures Canonical.Valid(PublicationJson(codec, c, attempt)) && Apart(PublicationJson(codec, c, attempt).members)
  {
    hide ContentJson, ContentSha, Apart;
    var members := PublicationJson(codec, c, attempt).members;
    forall i | 0 <= i < |members| ensures Canonical.Valid(members[i].value) {
      if i == 0 {
        assert members[i].value == ContentJson(c);
      } else {
        assert members[i].value.Str?;
      }
    }
    PublicationApart(codec, c, attempt);
    ApartIsValid(members);
  }

  lemma {:induction false} PublicationReads(codec: Codec, c: Content, attempt: string)
    requires ValidContent(c)
    ensures Valid(PublicationJson(codec, c, attempt))
    ensures var b := Canon(PublicationJson(codec, c, attempt));
            && b.Obj? && Get(b, "content") == Some(Canon(ContentJson(c)))
            && GetText(b, "content_sha256") == Some(ContentSha(codec, c))
    ensures FromBody(Canon(ContentJson(c))) == Some(c)
  {
    var members := PublicationJson(codec, c, attempt).members;
    BodyRoundTrip(c);
    PublicationShape(codec, c, attempt);
    CanonFieldAt(members, 0);
    CanonFieldAt(members, 1);
  }

  lemma {:induction false} ReceiptReads(
      codec: Codec, c: Content, timing: string, evidence: string, observation: ClockSample)
    ensures var b := Canon(ReceiptJson(codec, c, timing, evidence, observation));
            && b.Obj?
            && GetText(b, "content_sha256") == Some(ContentSha(codec, c))
            && GetText(b, "timeliness") == Some(timing)
            && GetText(b, "evidence_class") == Some(evidence)
  {
    var members := ReceiptJson(codec, c, timing, evidence, observation).members;
    CanonFieldAt(members, 1);
    CanonFieldAt(members, 3);
    CanonFieldAt(members, 4);
  }

  // ----- which bodies may be appended where

  lemma {:induction false} EvidenceIsHonest(admitted: bool, events: seq<Json>, c: Content, timing: string)
    requires ValidContent(c)
    ensures EvidenceClass(admitted, events, c, timing) == "genuine-forward" ==>
              timing == "on-time" && c.slot.IsForward() && admitted
  {
    if !c.slot.IsForward() {
      assert c.slot.stream.evidenceClass in EVIDENCE_CLASSES;
    }
  }

  lemma {:induction false} ReceiptFits(
      codec: Codec, before: seq<Json>, e: Json, c: Content, timing: string, evidence: string, observation: ClockSample)
    requires Kind(e) == "receipt" && Body(e) == Canon(ReceiptJson(codec, c, timing, evidence, observation))
    requires Bodies(before, "receipt", Subject(e)) == []
    requires |Bodies(before, "publication", Subject(e))| == 1
    requires GetText(Bodies(before, "publication", Subject(e))[0], "content_sha256") == Some(ContentSha(codec, c))
    requires evidence == "genuine-forward" ==> timing == "on-time"
    ensures Placed(codec, before, e)
  {
    ReceiptReads(codec, c, timing, evidence, observation);
  }

  lemma {:induction false} PublicationFits(codec: Codec, before: seq<Json>, e: Json, c: Content, attempt: string)
    requires ValidContent(c)
    requires Kind(e) == "publication" && Body(e) == Canon(PublicationJson(codec, c, attempt))
    requires Subject(e) == SlotSha(codec, c.slot)
    requires Bodies(before, "publication", Subject(e)) == []
    requires Bodies(before, "stream", StreamSubject(codec, c.slot.stream)) == [Canon(StreamJson(c.slot.stream))]
    ensures Placed(codec, before, e) && Certified(codec, e) && Published(e) == Some(c)
  {
    PublicationReads(codec, c, attempt);
  }

  /** The certificate a crash leaves to recovery says so, and claims nothing. */
  predicate IsRecovery(e: Json) {
    && Kind(e) == "receipt"
    && GetText(Body(e), "timeliness") == Some("recovery-unknown")
    && GetText(Body(e), "evidence_class") != Some("genuine-forward")
  }

  lemma {:induction false} OnePublication(codec: Codec, events: seq<Json>, i: nat, j: nat)
    requires Disciplined(codec, events) && i < |events| && j < |events| && i != j
    requires Kind(events[i]) == "publication" && Kind(events[j]) == "publication"
    ensures Subject(events[i]) != Subject(events[j])
  {
    if j < i {
      OnePublication(codec, events, j, i);
    } else {
      assert PlacedAt(codec, events, j);
      BodiesNone(events[..j], "publication", Subject(events[j]));
      assert events[..j][i] == events[i];
    }
  }

  // ----- the discipline over every run

  /** A durable step whose new event, if there is one, is in its place. */
  ghost predicate PlacedStep(codec: Codec, d: Disk, d': Disk) {
    d'.rows == d.rows ||
    (|d'.rows| == |d.rows| + 1 && Placed(codec, Events(codec, d.rows), EventOf(codec, d'.rows[|d.rows|])))
  }

  ghost predicate ProtocolRun(codec: Codec, run: seq<Disk>) {
    && Run(codec, CertifiedBy(codec), run)
    && forall i, j | 0 <= i && j == i + 1 < |run| :: PlacedStep(codec, run[i], run[j])
  }

  lemma {:induction false} RunDisciplined(codec: Codec, run: seq<Disk>, i: nat)
    requires Lawful(codec) && ProtocolRun(codec, run) && i < |run|
    ensures Disciplined(codec, Events(codec, run[i].rows))
  {
    hide Lawful, Placed, RowOk, EventOf, Bodies;
    if i > 0 {
      RunDisciplined(codec, run, i - 1);
      RunGrows(codec, CertifiedBy(codec), run, i - 1, i);
      var was, now := run[i - 1].rows, run[i].rows;
      assert PlacedStep(codec, run[i - 1], run[i]);
      if now != was {
        assert now == was + [now[|was|]];
        EventsAppend(codec, was, now[|was|]);
        DisciplineExtends(codec, Events(codec, was), EventOf(codec, now[|was|]));
      }
    }
  }

  /**
   * Main result: over every run with crashes, a slot has at most one publication and one
   * certificate and a name one stream, and what was once there is there unchanged ever after.
   */
  lemma {:induction false} OnceAndForAll(
      codec: Codec, run: seq<Disk>, i: nat, j: nat, kind: string, subject: string)
    requires Lawful(codec) && ProtocolRun(codec, run) && i <= j < |run|
    requires kind == "publication" || kind == "receipt" || kind == "stream"
    ensures var was := Bodies(Events(codec, run[i].rows), kind, subject);
            var now := Bodies(Events(codec, run[j].rows), kind, subject);
            |now| <= 1 && (was != [] ==> now == was)
  {
    hide Lawful, Disciplined, Run, Events, Bodies;
    var was, now := Events(codec, run[i].rows), Events(codec, run[j].rows);
    RunDisciplined(codec, run, j);
    RunGrows(codec, CertifiedBy(codec), run, i, j);
    AtMostOnce(codec, now, kind, subject);
    if Bodies(was, kind, subject) != [] { PublicationStable(codec, was, now, kind, subject); }
  }

  // ----- the answers of publish

  datatype Answer = Replay | ContentConflict | StreamConflict | Fresh

  /** What publishing this content comes to, given the journal. */
  function AnswerTo(codec: Codec, events: seq<Json>, c: Content): Answer {
    var existing := Bodies(events, "publication", SlotSha(codec, c.slot));
    var streams := Bodies(events, "stream", StreamSubject(codec, c.slot.stream));
    if existing != [] then
      if Get(existing[0], "content_sha256") == Some(Str(ContentSha(codec, c))) then Replay else ContentConflict
    else if streams != [] && streams != [Canon(StreamJson(c.slot.stream))] then StreamConflict
    else Fresh
  }

  /** Nothing but conflict records separates the two journals. */
  ghost predicate OnlyConflicts(was: seq<Json>, now: seq<Json>) {
    was <= now && forall i | |was| <= i < |now| :: Kind(now[i]) == "conflict"
  }

  /** What the journal says of everything but conflicts is what it said before. */
  ghost predicate Undisturbed(was: seq<Json>, now: seq<Json>) {
    forall kind, subject | kind != "conflict" :: Bodies(now, kind, subject) == Bodies(was, kind, subject)
  }

  lemma {:induction false} ConflictsChangeNothing(was: seq<Json>, now: seq<Json>)
    requires OnlyConflicts(was, now)
    ensures Undisturbed(was, now)
    decreases |now|
  {
    if |was| < |now| {
      var shorter := now[..|now| - 1];
      assert forall i | |was| <= i < |shorter| :: shorter[i] == now[i];
      ConflictsChangeNothing(was, shorter);
    } else {
      assert was == now;
    }
  }

  // ----- what append does not check

  /** A first publication whose body holds no content passes append, and the journal no longer loads. */
  lemma {:induction false} UnreadableAppend(hash: Bytes -> Digest)
    requires forall data :: IsDigest(hash(data))
    ensures var codec := CanonicalCodec(hash);
            && Appendable(codec, [], 0, "publication", ZEROS, Obj([]))
            && Chain(codec, CertifiedBy(codec), [])
            && !Chain(codec, CertifiedBy(codec), [NewRow(codec, [], "publication", ZEROS, Obj([]))])
  {
    hide Lawful, Encode, Valid, Compact, RowOk;
    var codec := CanonicalCodec(hash);
    var row := NewRow(codec, [], "publication", ZEROS, Obj([]));
    CanonicalUsable(hash);
    assert Appendable(codec, [], 0, "publication", ZEROS, Obj([])) by {
      HandWritten(Int(1), "publication");
    }
    assert Events(codec, []) == [];
    assert Chain(codec, CertifiedBy(codec), []);
    AppendKeepsChain(codec, CertifiedBy(codec), [], "publication", ZEROS, Obj([]));
    NewEventReads(codec, [], 0, "publication", ZEROS, Obj([]));
    NothingPublished(EventOf(codec, row));
    assert [] + [row] == [row];
  }

  lemma {:induction false} NothingPublished(e: Json)
    requires Body(e) == Canon(Obj([]))
    ensures Published(e).None?
  {
  }

  /** The first event of a first publication is its stream, and every admitted stream fits. */
  lemma {:induction false} FirstStreamFits(hash: Bytes -> Digest, s: Stream)
    requires (forall data :: IsDigest(hash(data))) && ValidStream(s)
    ensures var codec := CanonicalCodec(hash);
            && Appendable(codec, [], 0, "stream", StreamSubject(codec, s), StreamJson(s))
            && Loadable(
                 CertifiedBy(codec),
                 EventOf(codec, NewRow(codec, [], "stream", StreamSubject(codec, s), StreamJson(s))))
  {
    hide Lawful, Encode, Compact, StreamJson, EventWith, IsDigest, ValidStream, Valid, Certified, Find, Canon;
    var codec := CanonicalCodec(hash);
    var subject, body := StreamSubject(codec, s), StreamJson(s);
    CanonicalUsable(hash);
    StreamShape(s);
    StreamSize(s);
    StreamIsObject(s);
    assert IsDigest(ZEROS) && IsDigest(subject) by { DigestShapes(codec, s); }
    EventValid(Int(1), ZEROS, "stream", subject, body);
    EventSize(Int(1), ZEROS, "stream", subject, body, 4000);
    assert Appendable(codec, [], 0, "stream", subject, body);
    NewEventReads(codec, [], 0, "stream", subject, body);
  }

  lemma {:induction false} DigestShapes(codec: Codec, s: Stream)
    requires Lawful(codec)
    ensures IsDigest(ZEROS) && IsDigest(StreamSubject(codec, s))
  {
  }

  lemma {:induction false} StreamIsObject(s: Stream)
    ensures Canon(StreamJson(s)).Obj?
  {
  }

  /** A first publication whose head was never synced: a power loss leaves a journal that is refused. */
  lemma {:induction false} HeadLostRun(hash: Bytes -> Digest, s: Stream) returns (run: seq<Medium>)
    requires (forall data :: IsDigest(hash(data))) && ValidStream(s)
    ensures MediumRun(CanonicalCodec(hash), CertifiedBy(CanonicalCodec(hash)), run)
    ensures var codec, last := CanonicalCodec(hash), run[|run| - 1].disk;
            && last.rows == [NewRow(codec, [], "stream", StreamSubject(codec, s), StreamJson(s))]
            && !Accepts(codec, CertifiedBy(codec), last.rows, last.anchor)
  {
    var codec := CanonicalCodec(hash);
    FirstStreamFits(hash, s);
    run := HeadLostBy(codec, CertifiedBy(codec), "stream", StreamSubject(codec, s), StreamJson(s));
  }
}
