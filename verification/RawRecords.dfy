/** The canonical text of a raw record, and reading it back. */
module RawRecords {
  import opened Wrappers
  import opened Canonical
  import opened Records
  import opened Domain

  datatype TimeUnit = Second | Millisecond | Microsecond | Nanosecond

  datatype SourceTime = SourceTime(value: int, timeUnit: TimeUnit)

  datatype Subject =
    | Instrument(venue: string, category: string, symbol: string)
    | Entity(kind: string, namespace: string, name: string)

  /** A payload is bytes: characters below 256. */
  datatype Envelope = Envelope(
    source: string,
    stream: string,
    channel: string,
    adapterVersion: string,
    receipt: ClockSample,
    payload: Bytes,
    subject: Option<Subject>,
    sourceTime: Option<SourceTime>,
    eventId: Option<string>,
    sequence: Option<int>)

  datatype RawRecord = RawRecord(identity: IngestionId, envelope: Envelope)

  // ----- validity of the values themselves

  predicate Natural(v: Option<int>) { v.Some? ==> v.value >= 0 }

  predicate ValidQuality(q: TimeQuality) {
    && IsIdentifier(q.epoch)
    && Natural(q.uncertainty) && Natural(q.age)
    && (q.status == Healthy ==> q.offset.Some? && q.uncertainty.Some? && q.age.Some?)
  }

  predicate ValidSample(s: ClockSample) {
    s.monotonic >= 0 && IsIdentifier(s.session) && ValidQuality(s.quality)
  }

  predicate ValidSubject(s: Subject) {
    match s
    case Instrument(a, b, c) => IsIdentifier(a) && IsIdentifier(b) && IsIdentifier(c)
    case Entity(a, b, c) => IsIdentifier(a) && IsIdentifier(b) && IsIdentifier(c)
  }

  predicate ValidRecord(r: RawRecord) {
    var e := r.envelope;
    && IsIdentifier(r.identity.producer) && IsIdentifier(r.identity.epoch) && r.identity.offset >= 0
    && IsIdentifier(e.source) && IsIdentifier(e.stream) && IsIdentifier(e.channel) && IsIdentifier(e.adapterVersion)
    && ValidSample(e.receipt)
    && (forall c | c in e.payload :: c as int < 256)
    && (e.subject.Some? ==> ValidSubject(e.subject.value))
    && (e.eventId.Some? ==> IsIdentifier(e.eventId.value))
    && Natural(e.sequence)
  }

  // ----- payload bytes as hexadecimal text

  function Hex(payload: Bytes): Bytes
    requires forall c | c in payload :: c as int < 256
  {
    if payload == "" then ""
    else
      assert payload[0] in payload && forall c | c in payload[1..] :: c in payload;
      [HexDigit(payload[0] as int / 16), HexDigit(payload[0] as int % 16)] + Hex(payload[1..])
  }

  function Unhex(s: Bytes): Option<Bytes> {
    if s == "" then Some("")
    else if |s| == 1 then None
    else
      var high, low, rest := FromHex(s[0]), FromHex(s[1]), Unhex(s[2..]);
      if high.None? || low.None? || rest.None? then None
      else Some([((high.value * 16 + low.value) % 256) as char] + rest.value)
  }

  lemma {:induction false} UnhexStep(n: int, rest: Bytes)
    requires 0 <= n < 256 && Unhex(rest).Some?
    ensures Unhex([HexDigit(n / 16), HexDigit(n % 16)] + rest) == Some([n as char] + Unhex(rest).value)
  {
    var s := [HexDigit(n / 16), HexDigit(n % 16)] + rest;
    HexRoundTrip(n / 16);
    HexRoundTrip(n % 16);
    assert s[2..] == rest;
  }

  lemma {:induction false} HexText(n: int)
    requires 0 <= n < 16
    ensures '0' <= HexDigit(n) <= '9' || 'a' <= HexDigit(n) <= 'z'
  {
  }

  lemma {:induction false} UnhexHex(payload: Bytes)
    requires forall c | c in payload :: c as int < 256
    ensures Unhex(Hex(payload)) == Some(payload) && |Hex(payload)| == 2 * |payload|
    ensures forall c | c in Hex(payload) :: '0' <= c <= '9' || 'a' <= c <= 'z'
  {
    hide HexDigit, Unhex;
    if payload == "" {
      assert Unhex("") == Some("") by { UnhexNothing(); }
    } else {
      assert payload[0] in payload && forall c | c in payload[1..] :: c in payload;
      var n := payload[0] as int;
      UnhexHex(payload[1..]);
      UnhexStep(n, Hex(payload[1..]));
      HexText(n / 16);
      HexText(n % 16);
      assert payload == [payload[0]] + payload[1..];
    }
  }

  lemma {:induction false} UnhexNothing()
    ensures Unhex("") == Some("")
  {
  }

  // ----- projections

  function UnitText(u: TimeUnit): string {
    match u
    case Second => "s"
    case Millisecond => "ms"
    case Microsecond => "us"
    case Nanosecond => "ns"
  }

  function UnitOf(s: string): Option<TimeUnit> {
    if s == "s" then Some(Second)
    else if s == "ms" then Some(Millisecond)
    else if s == "us" then Some(Microsecond)
    else if s == "ns" then Some(Nanosecond)
    else None
  }

  function StatusOf(s: string): Option<Status> {
    if s == "unknown" then Some(Unknown)
    else if s == "degraded" then Some(Degraded)
    else if s == "healthy" then Some(Healthy)
    else None
  }

  function IdentityJson(id: IngestionId): Json {
    Obj([Member("producer", Str(id.producer)), Member("epoch", Str(id.epoch)), Member("offset", Int(id.offset))])
  }

  function SubjectJson(s: Option<Subject>): Json {
    match s
    case None => Null
    case Some(Instrument(venue, category, symbol)) =>
      Obj([Member("type", Str("instrument")), Member("venue", Str(venue)), Member("category", Str(category)),
           Member("symbol", Str(symbol))])
    case Some(Entity(kind, namespace, name)) =>
      Obj([Member("type", Str("entity")), Member("kind", Str(kind)), Member("namespace", Str(namespace)),
           Member("value", Str(name))])
  }

  function SourceTimeJson(t: Option<SourceTime>): Json {
    match t
    case None => Null
    case Some(s) => Obj([Member("value", Int(s.value)), Member("unit", Str(UnitText(s.timeUnit)))])
  }

  function RawJson(hash: Bytes -> Digest, r: RawRecord): Json
    requires forall c | c in r.envelope.payload :: c as int < 256
  {
    var e := r.envelope;
    Obj([
      Member("identity", IdentityJson(r.identity)),
      Member("source", Str(e.source)),
      Member("stream", Str(e.stream)),
      Member("channel", Str(e.channel)),
      Member("adapter_version", Str(e.adapterVersion)),
      Member("receipt", SampleJson(e.receipt)),
      Member("subject", SubjectJson(e.subject)),
      Member("source_time", SourceTimeJson(e.sourceTime)),
      Member("source_event_id", OptionalText(e.eventId)),
      Member("source_sequence", OptionalInt(e.sequence)),
      Member("payload_hex", Str(Hex(e.payload))),
      Member("content_sha256", Str(hash(e.payload)))])
  }

  function RecordJson(hash: Bytes -> Digest, r: RawRecord): Json
    requires forall c | c in r.envelope.payload :: c as int < 256
  {
    Obj([Member("raw", RawJson(hash, r))])
  }

  /** The canonical text of a record; none if a number in it does not fit 64 bits. */
  function EncodeRecord(hash: Bytes -> Digest, r: RawRecord): Option<Bytes> {
    if ValidRecord(r) && Valid(RecordJson(hash, r)) then Some(Encode(RecordJson(hash, r))) else None
  }

  // ----- reading

  /** An optional field: absent is an error, null is nothing. */
  function OptionalField<T>(v: Option<Json>, read: Json -> Option<T>): Option<Option<T>> {
    match v
    case None => None
    case Some(j) =>
      if j == Null then Some(None)
      else
        match read(j)
        case None => None
        case Some(t) => Some(Some(t))
  }

  function ReadText(j: Json): Option<string> { if j.Str? then Some(j.text) else None }

  function ReadInt(j: Json): Option<int> { if j.Int? then Some(j.number) else None }

  function ReadIdentity(j: Json): Option<IngestionId> {
    var a, b, c := GetText(j, "producer"), GetText(j, "epoch"), GetInt(j, "offset");
    if a.Some? && b.Some? && c.Some? then Some(IngestionId(a.value, b.value, c.value)) else None
  }

  function ReadQuality(j: Json): Option<TimeQuality> {
    var a, b := GetText(j, "epoch"), GetText(j, "status");
    var c, d, e := OptionalField(Get(j, "offset_ns"), ReadInt), OptionalField(Get(j, "uncertainty_ns"), ReadInt),
                   OptionalField(Get(j, "evidence_age_ns"), ReadInt);
    if a.None? || b.None? || c.None? || d.None? || e.None? || StatusOf(b.value).None? then None
    else Some(TimeQuality(a.value, StatusOf(b.value).value, c.value, d.value, e.value))
  }

  function ReadSample(j: Json): Option<ClockSample> {
    var a, b, c := GetInt(j, "wall_time_ns"), GetInt(j, "monotonic_ns"), GetText(j, "session_id");
    match Get(j, "quality")
    case None => None
    case Some(qj) =>
      var q := ReadQuality(qj);
      if a.None? || b.None? || c.None? || q.None? then None
      else Some(ClockSample(a.value, b.value, c.value, q.value))
  }

  function ReadSubject(j: Json): Option<Subject> {
    if GetText(j, "type") == Some("instrument") then
      var a, b, c := GetText(j, "venue"), GetText(j, "category"), GetText(j, "symbol");
      if a.Some? && b.Some? && c.Some? then Some(Instrument(a.value, b.value, c.value)) else None
    else if GetText(j, "type") == Some("entity") then
      var a, b, c := GetText(j, "kind"), GetText(j, "namespace"), GetText(j, "value");
      if a.Some? && b.Some? && c.Some? then Some(Entity(a.value, b.value, c.value)) else None
    else None
  }

  function ReadSourceTime(j: Json): Option<SourceTime> {
    var a, b := GetInt(j, "value"), GetText(j, "unit");
    if a.None? || b.None? || UnitOf(b.value).None? then None else Some(SourceTime(a.value, UnitOf(b.value).value))
  }

  function ReadHex(j: Json): Option<Bytes> { if j.Str? then Unhex(j.text) else None }

  function Bind<T>(v: Option<Json>, read: Json -> Option<T>): Option<T> {
    match v
    case None => None
    case Some(j) => read(j)
  }

  function ReadRaw(j: Json): Option<RawRecord> {
    var id, receipt := Bind(Get(j, "identity"), ReadIdentity), Bind(Get(j, "receipt"), ReadSample);
    var a, b, c, d := GetText(j, "source"), GetText(j, "stream"), GetText(j, "channel"), GetText(j, "adapter_version");
    var payload := Bind(Get(j, "payload_hex"), ReadHex);
    var subject := OptionalField(Get(j, "subject"), ReadSubject);
    var time := OptionalField(Get(j, "source_time"), ReadSourceTime);
    var event, sequence := OptionalField(Get(j, "source_event_id"), ReadText),
                           OptionalField(Get(j, "source_sequence"), ReadInt);
    if id.None? || receipt.None? || a.None? || b.None? || c.None? || d.None? || payload.None? then None
    else if subject.None? || time.None? || event.None? || sequence.None? then None
    else
      Some(RawRecord(
        id.value,
        Envelope(a.value, b.value, c.value, d.value, receipt.value, payload.value, subject.value, time.value,
                 event.value, sequence.value)))
  }

  /** Rebuild, validate under the payload limit, and insist on the canonical text. */
  function DecodeRecord(hash: Bytes -> Digest, data: Bytes, limit: nat): Option<RawRecord> {
    match Loads(data)
    case None => None
    case Some(j) =>
      match Bind(Get(j, "raw"), ReadRaw)
      case None => None
      case Some(r) =>
        if |r.envelope.payload| <= limit && EncodeRecord(hash, r) == Some(data) then Some(r) else None
  }

  // ----- every part reads back

  lemma {:induction false} MemberValid(members: seq<Member>, i: nat)
    requires Valid(Obj(members)) && i < |members|
    ensures Valid(members[i].value)
  {
    FindDistinct(members, i);
    FindValid(members, members[i].key);
  }

  lemma {:induction false} IdentityReads(id: IngestionId)
    requires Valid(IdentityJson(id))
    ensures ReadIdentity(Canon(IdentityJson(id))) == Some(id)
  {
    hide Valid, Find;
    var m := IdentityJson(id).members;
    ValidFieldAt(m, 0);
    ValidFieldAt(m, 1);
    ValidFieldAt(m, 2);
  }

  lemma {:induction false} QualityReads(q: TimeQuality)
    requires Valid(QualityJson(q))
    ensures ReadQuality(Canon(QualityJson(q))) == Some(q)
  {
    hide Valid, Find;
    var m := QualityJson(q).members;
    ValidFieldAt(m, 0);
    ValidFieldAt(m, 1);
    ValidFieldAt(m, 2);
    ValidFieldAt(m, 3);
    ValidFieldAt(m, 4);
  }

  lemma {:induction false} SampleReads(s: ClockSample)
    requires Valid(SampleJson(s))
    ensures ReadSample(Canon(SampleJson(s))) == Some(s)
  {
    hide Valid, Find, QualityJson, ReadQuality;
    var m := SampleJson(s).members;
    ValidFieldAt(m, 0);
    ValidFieldAt(m, 1);
    ValidFieldAt(m, 2);
    ValidFieldAt(m, 3);
    MemberValid(m, 3);
    QualityReads(s.quality);
  }

  lemma {:induction false} SubjectReads(s: Option<Subject>)
    requires Valid(SubjectJson(s))
    ensures OptionalField(Some(Canon(SubjectJson(s))), ReadSubject) == Some(s)
  {
    hide Valid, Find;
    if s.Some? {
      var m := SubjectJson(s).members;
      ValidFieldAt(m, 0);
      ValidFieldAt(m, 1);
      ValidFieldAt(m, 2);
      ValidFieldAt(m, 3);
    }
  }

  lemma {:induction false} SourceTimeReads(t: Option<SourceTime>)
    requires Valid(SourceTimeJson(t))
    ensures OptionalField(Some(Canon(SourceTimeJson(t))), ReadSourceTime) == Some(t)
  {
    hide Valid, Find;
    if t.Some? {
      var m := SourceTimeJson(t).members;
      ValidFieldAt(m, 0);
      ValidFieldAt(m, 1);
    }
  }

  lemma {:induction false} OptionalReads(text: Option<string>, number: Option<int>)
    ensures OptionalField(Some(Canon(OptionalText(text))), ReadText) == Some(text)
    ensures OptionalField(Some(Canon(OptionalInt(number))), ReadInt) == Some(number)
  {
  }

  /** The plain fields of a projection, read from its canonical form. */
  lemma {:induction false} RawTexts(hash: Bytes -> Digest, r: RawRecord)
    requires ValidRecord(r) && Valid(RawJson(hash, r))
    ensures var j, e := Canon(RawJson(hash, r)), r.envelope;
            && GetText(j, "source") == Some(e.source) && GetText(j, "stream") == Some(e.stream)
            && GetText(j, "channel") == Some(e.channel) && GetText(j, "adapter_version") == Some(e.adapterVersion)
            && Get(j, "payload_hex") == Some(Str(Hex(e.payload)))
            && Get(j, "source_event_id") == Some(Canon(OptionalText(e.eventId)))
            && Get(j, "source_sequence") == Some(Canon(OptionalInt(e.sequence)))
  {
    hide Valid, Find, Hex, IdentityJson, SampleJson, SubjectJson, SourceTimeJson, OptionalText, OptionalInt;
    hide IsIdentifier;
    var m := RawJson(hash, r).members;
    ValidFieldAt(m, 1);
    ValidFieldAt(m, 2);
    ValidFieldAt(m, 3);
    ValidFieldAt(m, 4);
    ValidFieldAt(m, 8);
    ValidFieldAt(m, 9);
    ValidFieldAt(m, 10);
  }

  /** Its nested parts, likewise. */
  lemma {:induction false} RawParts(hash: Bytes -> Digest, r: RawRecord)
    requires ValidRecord(r) && Valid(RawJson(hash, r))
    ensures var j, e := Canon(RawJson(hash, r)), r.envelope;
            && Get(j, "identity") == Some(Canon(IdentityJson(r.identity))) && Valid(IdentityJson(r.identity))
            && Get(j, "receipt") == Some(Canon(SampleJson(e.receipt))) && Valid(SampleJson(e.receipt))
            && Get(j, "subject") == Some(Canon(SubjectJson(e.subject))) && Valid(SubjectJson(e.subject))
            && Get(j, "source_time") == Some(Canon(SourceTimeJson(e.sourceTime))) && Valid(SourceTimeJson(e.sourceTime))
  {
    hide Valid, Find, Hex, IdentityJson, SampleJson, SubjectJson, SourceTimeJson, OptionalText, OptionalInt;
    hide IsIdentifier;
    var m := RawJson(hash, r).members;
    ValidFieldAt(m, 0);
    ValidFieldAt(m, 5);
    ValidFieldAt(m, 6);
    ValidFieldAt(m, 7);
    MemberValid(m, 0);
    MemberValid(m, 5);
    MemberValid(m, 6);
    MemberValid(m, 7);
  }

  lemma {:induction false} RawReads(hash: Bytes -> Digest, r: RawRecord)
    requires ValidRecord(r) && Valid(RawJson(hash, r))
    ensures ReadRaw(Canon(RawJson(hash, r))) == Some(r)
  {
    hide Valid, RawJson, IdentityJson, SampleJson, SubjectJson, SourceTimeJson, OptionalText, OptionalInt, Hex;
    hide IsIdentifier, ReadIdentity, ReadSample, ReadSubject, ReadSourceTime, Unhex, OptionalField, Find, Canon;
    var e := r.envelope;
    RawTexts(hash, r);
    RawParts(hash, r);
    IdentityReads(r.identity);
    SampleReads(e.receipt);
    SubjectReads(e.subject);
    SourceTimeReads(e.sourceTime);
    OptionalReads(e.eventId, e.sequence);
    UnhexHex(e.payload);
  }

  lemma {:induction false} RecordReads(hash: Bytes -> Digest, r: RawRecord)
    requires ValidRecord(r) && Valid(RecordJson(hash, r))
    ensures Bind(Get(Canon(RecordJson(hash, r)), "raw"), ReadRaw) == Some(r)
  {
    hide Valid, RawJson, Find, ReadRaw, IsIdentifier, ValidSample, ValidSubject;
    var m := RecordJson(hash, r).members;
    ValidFieldAt(m, 0);
    MemberValid(m, 0);
    RawReads(hash, r);
  }

  /**
   * Main result: a text is read as a record exactly when it is that record's canonical text
   * and the payload is within the limit.
   */
  lemma {:induction false} DecodesExactly(hash: Bytes -> Digest, data: Bytes, limit: nat, r: RawRecord)
    ensures DecodeRecord(hash, data, limit) == Some(r)
            <==> EncodeRecord(hash, r) == Some(data) && |r.envelope.payload| <= limit
  {
    hide Valid, ReadRaw, IsIdentifier, ValidSample, ValidSubject, RecordJson, Loads, Canon;
    if EncodeRecord(hash, r) == Some(data) {
      var j := RecordJson(hash, r);
      CanonKeeps(j);
      LoadsPrint(Canon(j));
      RecordReads(hash, r);
    }
  }

  // ----- the text is longer than the payload

  lemma {:induction false} PrintHolds(members: seq<Member>, key: string)
    requires Find(members, key).Some?
    ensures |PrintMembers(members)| >= |Print(Find(members, key).value)|
  {
    hide Print, Quote;
    if members[0].key != key { PrintHolds(members[1..], key); }
  }

  lemma {:induction false} PrintWithin(j: Json, key: string)
    requires Get(j, key).Some?
    ensures |Print(j)| >= |Print(Get(j, key).value)|
  {
    hide PrintMembers, Find;
    PrintHolds(j.members, key);
  }

  /** Twice the payload fits in the text, so a limit on the text limits the payload. */
  lemma {:induction false} PayloadFits(hash: Bytes -> Digest, r: RawRecord)
    requires EncodeRecord(hash, r).Some?
    ensures 2 * |r.envelope.payload| <= |EncodeRecord(hash, r).value|
    ensures EncodeRecord(hash, r).value != ""
  {
    hide Valid, RawJson, Find, ReadRaw, Hex, Canon, PrintMembers;
    var j := RecordJson(hash, r);
    ValidFieldAt(j.members, 0);
    MemberValid(j.members, 0);
    PrintWithin(Canon(j), "raw");
    RawTexts(hash, r);
    PrintWithin(Canon(RawJson(hash, r)), "payload_hex");
    UnhexHex(r.envelope.payload);
    PlainQuote(Hex(r.envelope.payload));
  }

  lemma {:induction false} PlainQuote(s: string)
    requires forall c | c in s :: '0' <= c <= '9' || 'a' <= c <= 'z'
    ensures |Print(Str(s))| == |s| + 2
  {
    PlainText(s);
  }
}
