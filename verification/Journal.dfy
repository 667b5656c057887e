/**
 * The hash-chained journal and its separately retained head (the anchor).
 *
 * The database is the sequence of rows a SELECT in key order returns. Events are JSON
 * objects; each carries the digest of the one before it.
 */
module Journal {
  import opened Wrappers
  import opened Canonical
  import opened Records
  import opened Domain

  const MAX_EVENTS := 10000
  const MAX_BYTES := 8 * 1024 * 1024
  const MAX_ANCHOR := 256

  const KINDS: set<string> := {
    "publication", "receipt", "conflict", "slot", "inference", "outcome", "score", "input",
    "input-observation", "input-receipt", "stream", "maturation"}

  const EVENT_KEYS: set<string> := {"sequence", "previous", "kind", "subject", "body"}

  const ANCHOR_KEYS: set<string> := {"sequence", "sha256"}

  datatype Row = Row(sequence: int, payload: Bytes, checksum: Digest)

  // ----- reading events

  function EventOf(codec: Codec, row: Row): Json {
    match codec.decode(row.payload)
    case Some(e) => e
    case None => Null
  }

  function Events(codec: Codec, rows: seq<Row>): (es: seq<Json>)
    ensures |es| == |rows|
    ensures forall i | 0 <= i < |rows| :: es[i] == EventOf(codec, rows[i])
  {
    seq(|rows|, i requires 0 <= i < |rows| => EventOf(codec, rows[i]))
  }

  function Kind(e: Json): string { GetText(e, "kind").GetOr("") }

  function Subject(e: Json): string { GetText(e, "subject").GetOr("") }

  function Body(e: Json): Json { Get(e, "body").GetOr(Null) }

  /** A JSON `true` compares equal to the integer 1. */
  predicate IsSequence(v: Option<Json>, n: int) {
    v == Some(Int(n)) || (n == 1 && v == Some(Bool(true)))
  }

  function TotalBytes(rows: seq<Row>): nat {
    if rows == [] then 0 else TotalBytes(rows[..|rows| - 1]) + |rows[|rows| - 1].payload|
  }

  function PreviousDigest(rows: seq<Row>, i: nat): Digest
    requires i <= |rows|
  {
    if i == 0 then ZEROS else rows[i - 1].checksum
  }

  /**
   * What is demanded of one row when the journal is read. `certified` decides whether a
   * publication's body is a well-formed content under its own identities.
   */
  predicate RowOk(codec: Codec, certified: Json -> bool, i: nat, previous: Digest, row: Row) {
    var e := EventOf(codec, row);
    && e.Obj?
    && Keys(e.members) == EVENT_KEYS
    && row.sequence == i + 1
    && IsSequence(Get(e, "sequence"), row.sequence)
    && Get(e, "previous") == Some(Str(previous))
    && Identity(codec, e) == row.checksum
    && Kind(e) in KINDS
    && Body(e).Obj?
    && IsDigest(Subject(e))
    && (Kind(e) == "publication" ==> certified(e))
  }

  predicate RowAt(codec: Codec, certified: Json -> bool, rows: seq<Row>, i: nat)
    requires i < |rows|
  {
    RowOk(codec, certified, i, PreviousDigest(rows, i), rows[i])
  }

  predicate Chain(codec: Codec, certified: Json -> bool, rows: seq<Row>) {
    && |rows| <= MAX_EVENTS
    && TotalBytes(rows) <= MAX_BYTES
    && RowsOk(codec, certified, rows, |rows|)
  }

  predicate RowsOk(codec: Codec, certified: Json -> bool, rows: seq<Row>, n: nat)
    requires n <= |rows|
  {
    forall i | 0 <= i < n :: RowAt(codec, certified, rows, i)
  }

  // ----- the retained head

  function HeadDigest(codec: Codec, events: seq<Json>): Digest {
    if events == [] then ZEROS else Identity(codec, events[|events| - 1])
  }

  function AnchorJson(n: int, head: Digest): Json {
    Obj([Member("sequence", Int(n)), Member("sha256", Str(head))])
  }

  function AnchorBytes(codec: Codec, events: seq<Json>): Bytes {
    codec.encode(AnchorJson(|events|, HeadDigest(codec, events)))
  }

  predicate AnchorAccepts(codec: Codec, events: seq<Json>, anchor: Bytes) {
    && 0 < |anchor| <= MAX_ANCHOR
    && var head := codec.decode(anchor);
    && head.Some?
    && head.value.Obj?
    && Keys(head.value.members) == ANCHOR_KEYS
    && var n := GetInt(head.value, "sequence");
    && n.Some?
    && 0 <= n.value <= |events|
    && Get(head.value, "sha256") == Some(Str(HeadDigest(codec, events[..n.value])))
  }

  /** What `_load` accepts: a whole chain, and a head on it; no head only with no events. */
  predicate Accepts(codec: Codec, certified: Json -> bool, rows: seq<Row>, anchor: Option<Bytes>) {
    && Chain(codec, certified, rows)
    && match anchor
       case None => rows == []
       case Some(bytes) => AnchorAccepts(codec, Events(codec, rows), bytes)
  }

  // ----- the chain pins every row behind a head

  /** What a chain says of one row, apart from its own fields. */
  lemma {:induction false} LinkAt(codec: Codec, certified: Json -> bool, rows: seq<Row>, i: nat)
    requires Lawful(codec) && Chain(codec, certified, rows) && i < |rows|
    ensures rows[i].checksum == codec.hash(rows[i].payload) && rows[i].sequence == i + 1
    ensures Identity(codec, EventOf(codec, rows[i])) == rows[i].checksum
    ensures Get(EventOf(codec, rows[i]), "previous") == Some(Str(PreviousDigest(rows, i)))
  {
    assert RowAt(codec, certified, rows, i);
    assert codec.decode(rows[i].payload).Some?;
  }

  /** Equal payloads at one place of two chains mean equal rows and equal links back. */
  lemma {:induction false} SamePayload(codec: Codec, certified: Json -> bool, a: seq<Row>, b: seq<Row>, i: nat)
    requires Lawful(codec)
    requires Chain(codec, certified, a) && Chain(codec, certified, b) && i < |a| && i < |b|
    requires a[i].payload == b[i].payload
    ensures a[i] == b[i] && PreviousDigest(a, i) == PreviousDigest(b, i)
  {
    LinkAt(codec, certified, a, i);
    LinkAt(codec, certified, b, i);
    assert EventOf(codec, a[i]) == EventOf(codec, b[i]);
  }

  /**
   * Two journals that agree on one digest at position n agree on everything up to n,
   * unless two different payloads in them hash alike.
   */
  lemma {:induction false} HeadPinsPrefix(
      codec: Codec, certified: Json -> bool, a: seq<Row>, b: seq<Row>, n: nat)
    requires Lawful(codec) && Chain(codec, certified, a) && Chain(codec, certified, b)
    requires n <= |a| && n <= |b| && PreviousDigest(a, n) == PreviousDigest(b, n)
    ensures a[..n] == b[..n] || exists i | 0 <= i < n :: Collides(codec.hash, a[i].payload, b[i].payload)
  {
    hide Chain, Lawful, RowOk, EventOf;
    if n > 0 {
      var i := n - 1;
      LinkAt(codec, certified, a, i);
      LinkAt(codec, certified, b, i);
      if a[i].payload != b[i].payload {
        assert Collides(codec.hash, a[i].payload, b[i].payload);
      } else {
        SamePayload(codec, certified, a, b, i);
        HeadPinsPrefix(codec, certified, a, b, i);
        assert a[..n] == a[..i] + [a[i]] && b[..n] == b[..i] + [b[i]];
      }
    }
  }

  lemma {:induction false} ChainHead(codec: Codec, certified: Json -> bool, rows: seq<Row>, n: nat)
    requires Lawful(codec) && Chain(codec, certified, rows) && n <= |rows|
    ensures HeadDigest(codec, Events(codec, rows)[..n]) == PreviousDigest(rows, n)
  {
    hide Chain, Lawful, RowOk;
    if n > 0 { LinkAt(codec, certified, rows, n - 1); }
  }

  lemma {:induction false} AnchorFields(n: nat, head: Digest)
    requires n <= MAX_EVENTS
    ensures Valid(AnchorJson(n, head))
    ensures var j := Canon(AnchorJson(n, head));
            && j.Obj? && Keys(j.members) == ANCHOR_KEYS
            && GetInt(j, "sequence") == Some(n) && Get(j, "sha256") == Some(Str(head))
  {
    var j := AnchorJson(n, head);
    assert Apart(j.members);
    ApartIsValid(j.members);
    FindAt(j.members, 0);
    FindAt(j.members, 1);
    GetCanon(j, "sequence");
    GetCanon(j, "sha256");
    assert j.members[0] in j.members && j.members[1] in j.members;
  }

  function PowerOfTen(d: nat): nat {
    if d == 0 then 1 else 10 * PowerOfTen(d - 1)
  }

  lemma {:induction false} ShortDecimal(n: nat, d: nat)
    requires d >= 1 && n < PowerOfTen(d)
    ensures |Decimal(n)| <= d
  {
    if n >= 10 {
      assert d > 1 by {
        assert PowerOfTen(1) == 10 * PowerOfTen(0);
      }
      ShortDecimal(n / 10, d - 1);
    }
  }

  lemma {:induction false} HeadNumber(n: nat)
    requires n <= MAX_EVENTS
    ensures 0 < |PrintInt(n)| <= 5
  {
    assert MAX_EVENTS < PowerOfTen(5) by {
      assert PowerOfTen(2) == 100 && PowerOfTen(4) == 100 * PowerOfTen(2);
    }
    ShortDecimal(n, 5);
    DecimalDigits(n);
  }

  lemma {:induction false} AnchorSize(n: nat, head: Digest)
    requires n <= MAX_EVENTS && IsDigest(head)
    ensures 0 < |Encode(AnchorJson(n, head))| <= MAX_ANCHOR
  {
    hide Escape;
    HeadNumber(n);
    PlainText("sequence");
    PlainText("sha256");
    DigestSize(head);
    ObjectSize(AnchorJson(n, head).members, 80);
  }

  /** The head of any admitted journal fits the bound its reader sets. */
  ghost predicate Compact(codec: Codec) {
    forall n: nat, head | n <= MAX_EVENTS && IsDigest(head) ::
      0 < |codec.encode(AnchorJson(n, head))| <= MAX_ANCHOR
  }

  ghost predicate Usable(codec: Codec) {
    Lawful(codec) && Compact(codec)
  }

  /** The canonical codec meets every demand, whatever the hash function. */
  lemma {:induction false} CanonicalUsable(hash: Bytes -> Digest)
    requires forall data :: IsDigest(hash(data))
    ensures Usable(CanonicalCodec(hash))
  {
    CanonicalReadsBack(hash);
    CanonicalWritesBack(hash);
    forall n: nat, head | n <= MAX_EVENTS && IsDigest(head)
      ensures 0 < |Encode(AnchorJson(n, head))| <= MAX_ANCHOR
    {
      AnchorSize(n, head);
    }
  }

  /** Every head ever written for a prefix of a journal is accepted against the whole. */
  lemma {:induction false} AnchorOfPrefixAccepted(codec: Codec, events: seq<Json>, n: nat)
    requires Usable(codec) && n <= |events| <= MAX_EVENTS
    ensures AnchorAccepts(codec, events, AnchorBytes(codec, events[..n]))
  {
    var head := HeadDigest(codec, events[..n]);
    assert IsDigest(head) by {
      if n > 0 { assert IsDigest(codec.hash(codec.encode(events[n - 1]))); }
    }
    AnchorFields(n, head);
  }

  /** What an accepted head says: its length, and the digest at that length. */
  lemma {:induction false} AnchorReads(codec: Codec, events: seq<Json>, written: seq<Json>)
    requires Lawful(codec) && |written| <= MAX_EVENTS
    requires AnchorAccepts(codec, events, AnchorBytes(codec, written))
    ensures |written| <= |events|
    ensures HeadDigest(codec, events[..|written|]) == HeadDigest(codec, written)
  {
    AnchorFields(|written|, HeadDigest(codec, written));
  }

  /**
   * Main result, rollback detection. Whatever the database holds now, if it is accepted
   * against a head written for some journal, that journal is still there, unchanged, as a
   * prefix; the alternative exhibits two different payloads with one digest.
   */
  lemma {:induction false} RollbackDetected(
      codec: Codec, certified: Json -> bool, written: seq<Row>, found: seq<Row>)
    requires Lawful(codec) && Chain(codec, certified, written)
    requires Accepts(codec, certified, found, Some(AnchorBytes(codec, Events(codec, written))))
    ensures |written| <= |found|
    ensures written == found[..|written|] ||
            exists i | 0 <= i < |written| :: Collides(codec.hash, written[i].payload, found[i].payload)
  {
    hide RowsOk, Lawful, AnchorAccepts, EventOf;
    var n := |written|;
    AnchorReads(codec, Events(codec, found), Events(codec, written));
    ChainHead(codec, certified, found, n);
    ChainHead(codec, certified, written, n);
    assert Events(codec, written)[..n] == Events(codec, written);
    HeadPinsPrefix(codec, certified, written, found, n);
    assert written[..n] == written;
  }

  // ----- appending

  /** An event's members; only an integer is ever written as the sequence number. */
  function EventWith(sequence: Json, previous: Digest, kind: string, subject: string, body: Json): Json {
    Obj([
      Member("sequence", sequence),
      Member("previous", Str(previous)),
      Member("kind", Str(kind)),
      Member("subject", Str(subject)),
      Member("body", body)])
  }

  function EventJson(n: int, previous: Digest, kind: string, subject: string, body: Json): Json {
    EventWith(Int(n), previous, kind, subject, body)
  }

  function NewEvent(codec: Codec, events: seq<Json>, kind: string, subject: string, body: Json): Json {
    EventJson(|events| + 1, HeadDigest(codec, events), kind, subject, body)
  }

  function NewRow(codec: Codec, events: seq<Json>, kind: string, subject: string, body: Json): Row {
    var e := NewEvent(codec, events, kind, subject, body);
    Row(|events| + 1, codec.encode(e), Identity(codec, e))
  }

  /** What `_append` checks before it touches the database. */
  predicate Appendable(
      codec: Codec, events: seq<Json>, bytes: nat, kind: string, subject: string, body: Json)
  {
    var e := NewEvent(codec, events, kind, subject, body);
    && kind in KINDS
    && |events| < MAX_EVENTS
    && IsDigest(subject)
    && Valid(e)
    && 0 < |codec.encode(e)| <= MAX_PAYLOAD
    && bytes + |codec.encode(e)| <= MAX_BYTES
  }

  /** What `_append` leaves to its callers. */
  predicate Loadable(certified: Json -> bool, e: Json) {
    Body(e).Obj? && (Kind(e) == "publication" ==> certified(e))
  }

  lemma {:induction false} EventParts(sequence: Json, previous: Digest, kind: string, subject: string, body: Json)
    requires Valid(EventWith(sequence, previous, kind, subject, body))
    ensures var e := Canon(EventWith(sequence, previous, kind, subject, body));
            && e.Obj? && Keys(e.members) == EVENT_KEYS
            && Get(e, "sequence") == Some(Canon(sequence)) && Get(e, "previous") == Some(Str(previous))
            && Kind(e) == kind && Subject(e) == subject && Body(e) == Canon(body)
  {
    hide Find, Distinct, ValidMembers, CanonMembers, SortMembers;
    var j := EventWith(sequence, previous, kind, subject, body);
    assert Apart(j.members);
    FindAt(j.members, 0);
    FindAt(j.members, 1);
    FindAt(j.members, 2);
    FindAt(j.members, 3);
    FindAt(j.members, 4);
    GetCanon(j, "sequence");
    GetCanon(j, "previous");
    GetCanon(j, "kind");
    GetCanon(j, "subject");
    GetCanon(j, "body");
  }

  lemma {:induction false} EventFields(n: int, previous: Digest, kind: string, subject: string, body: Json)
    requires Valid(EventJson(n, previous, kind, subject, body))
    ensures var e := Canon(EventJson(n, previous, kind, subject, body));
            && e.Obj? && Keys(e.members) == EVENT_KEYS
            && Get(e, "sequence") == Some(Int(n)) && Get(e, "previous") == Some(Str(previous))
            && Kind(e) == kind && Subject(e) == subject && Body(e) == Canon(body)
  {
    hide Valid;
    EventParts(Int(n), previous, kind, subject, body);
  }

  /** The appended event as it will be read back. */
  lemma {:induction false} NewEventReads(
      codec: Codec, events: seq<Json>, bytes: nat, kind: string, subject: string, body: Json)
    requires Lawful(codec) && Appendable(codec, events, bytes, kind, subject, body)
    ensures var e := EventOf(codec, NewRow(codec, events, kind, subject, body));
            && e == Canon(NewEvent(codec, events, kind, subject, body))
            && Kind(e) == kind && Subject(e) == subject && Body(e) == Canon(body)
            && Identity(codec, e) == NewRow(codec, events, kind, subject, body).checksum
  {
    EventFields(|events| + 1, HeadDigest(codec, events), kind, subject, body);
  }

  lemma {:induction false} AppendableBody(
      codec: Codec, events: seq<Json>, bytes: nat, kind: string, subject: string, body: Json)
    requires Appendable(codec, events, bytes, kind, subject, body)
    ensures Valid(body)
  {
    var members := NewEvent(codec, events, kind, subject, body).members;
    FindDistinct(members, 4);
    FindValid(members, "body");
  }

  lemma {:induction false} EventsAppend(codec: Codec, rows: seq<Row>, row: Row)
    ensures Events(codec, rows + [row]) == Events(codec, rows) + [EventOf(codec, row)]
  {
  }

  predicate Fits(rows: seq<Row>, row: Row) {
    |rows| < MAX_EVENTS && TotalBytes(rows) + |row.payload| <= MAX_BYTES
  }

  lemma {:induction false} ChainExtends(codec: Codec, certified: Json -> bool, rows: seq<Row>, row: Row)
    requires Chain(codec, certified, rows) && Fits(rows, row)
    ensures Chain(codec, certified, rows + [row])
            <==> RowOk(codec, certified, |rows|, PreviousDigest(rows, |rows|), row)
  {
    var more := rows + [row];
    assert more[..|more| - 1] == rows;
    assert PreviousDigest(more, |rows|) == PreviousDigest(rows, |rows|);
    forall i | 0 <= i < |rows| ensures RowAt(codec, certified, more, i) {
      assert RowAt(codec, certified, rows, i);
      assert PreviousDigest(more, i) == PreviousDigest(rows, i);
    }
    assert RowAt(codec, certified, more, |rows|)
           == RowOk(codec, certified, |rows|, PreviousDigest(rows, |rows|), row);
  }

  lemma {:induction false} NewRowOk(
      codec: Codec, certified: Json -> bool, rows: seq<Row>, kind: string, subject: string, body: Json)
    requires Lawful(codec) && Chain(codec, certified, rows)
    requires Appendable(codec, Events(codec, rows), TotalBytes(rows), kind, subject, body)
    ensures var row := NewRow(codec, Events(codec, rows), kind, subject, body);
            RowOk(codec, certified, |rows|, PreviousDigest(rows, |rows|), row)
            <==> Loadable(certified, EventOf(codec, row))
    ensures Fits(rows, NewRow(codec, Events(codec, rows), kind, subject, body))
  {
    hide Chain, Lawful, Canon, Find, Valid, Identity;
    var events := Events(codec, rows);
    var j := NewEvent(codec, events, kind, subject, body);
    NewEventReads(codec, events, TotalBytes(rows), kind, subject, body);
    EventFields(|events| + 1, HeadDigest(codec, events), kind, subject, body);
    ChainHead(codec, certified, rows, |rows|);
    assert events[..|rows|] == events;
  }

  /**
   * A successful append keeps the journal readable exactly when the body is an object and,
   * for a publication, certified: the two things append itself does not check.
   */
  lemma {:induction false} AppendKeepsChain(
      codec: Codec, certified: Json -> bool, rows: seq<Row>, kind: string, subject: string, body: Json)
    requires Lawful(codec) && Chain(codec, certified, rows)
    requires Appendable(codec, Events(codec, rows), TotalBytes(rows), kind, subject, body)
    ensures var row := NewRow(codec, Events(codec, rows), kind, subject, body);
            Chain(codec, certified, rows + [row]) <==> Loadable(certified, EventOf(codec, row))
  {
    NewRowOk(codec, certified, rows, kind, subject, body);
    ChainExtends(codec, certified, rows, NewRow(codec, Events(codec, rows), kind, subject, body));
  }

  // ----- an event written by hand

  /** The encoding of an event is not much longer than its body's. */
  lemma {:induction false} EventSize(
      sequence: Json, previous: Digest, kind: string, subject: Digest, body: Json, size: nat)
    requires sequence == Int(1) || sequence == Bool(true)
    requires IsDigest(previous) && IsDigest(subject) && kind in KINDS
    requires |Encode(body)| <= size && size >= 210
    ensures 0 < |Encode(EventWith(sequence, previous, kind, subject, body))| <= 5 * (size + 100) + 1
  {
    hide Escape, Encode, IsDigest;
    EscapeSize("sequence");
    EscapeSize("previous");
    EscapeSize("kind");
    EscapeSize("subject");
    EscapeSize("body");
    SmallSize(sequence);
    DigestSize(previous);
    assert |kind| <= 17;
    ShortSize(kind);
    DigestSize(subject);
    ObjectSize(EventWith(sequence, previous, kind, subject, body).members, size + 100);
  }

  lemma {:induction false} SmallSize(sequence: Json)
    requires sequence == Int(1) || sequence == Bool(true) || sequence == Obj([])
    ensures |Encode(sequence)| <= 4
  {
  }

  lemma {:induction false} EventValid(sequence: Json, previous: Digest, kind: string, subject: Digest, body: Json)
    requires (sequence == Int(1) || sequence == Bool(true)) && Valid(body)
    ensures Valid(EventWith(sequence, previous, kind, subject, body))
  {
    var e := EventWith(sequence, previous, kind, subject, body);
    assert Apart(e.members);
    ApartIsValid(e.members);
  }

  lemma {:induction false} HandWritten(sequence: Json, kind: string)
    requires sequence == Int(1) || sequence == Bool(true)
    requires kind in KINDS
    ensures Valid(EventWith(sequence, ZEROS, kind, ZEROS, Obj([])))
    ensures 0 < |Encode(EventWith(sequence, ZEROS, kind, ZEROS, Obj([])))| <= MAX_PAYLOAD
  {
    hide Encode, EventWith;
    EventValid(sequence, ZEROS, kind, ZEROS, Obj([]));
    SmallSize(Obj([]));
    EventSize(sequence, ZEROS, kind, ZEROS, Obj([]), 210);
  }

  /** One row whose sequence number is `true`. */
  function TrueRow(codec: Codec): Row {
    var e := EventWith(Bool(true), ZEROS, "slot", ZEROS, Obj([]));
    Row(1, codec.encode(e), Identity(codec, e))
  }

  lemma {:induction false} TrueReads(codec: Codec, certified: Json -> bool)
    requires Lawful(codec) && 0 < |TrueRow(codec).payload| <= MAX_PAYLOAD
    requires Valid(EventWith(Bool(true), ZEROS, "slot", ZEROS, Obj([])))
    ensures Get(EventOf(codec, TrueRow(codec)), "sequence") == Some(Bool(true))
    ensures RowOk(codec, certified, 0, ZEROS, TrueRow(codec))
  {
    hide Valid, Canon, Find, Repeat;
    var e := EventWith(Bool(true), ZEROS, "slot", ZEROS, Obj([]));
    assert Canon(Bool(true)) == Bool(true) && Canon(Obj([])).Obj? by { CanonPlain(); }
    EventParts(Bool(true), ZEROS, "slot", ZEROS, Obj([]));
    assert codec.decode(codec.encode(e)) == Some(Canon(e));
  }

  lemma {:induction false} CanonPlain()
    ensures Canon(Bool(true)) == Bool(true) && Canon(Obj([])) == Obj([])
  {
  }

  /** A journal of one event numbered `true` is accepted as it stands. */
  lemma {:induction false} TrueAccepted(hash: Bytes -> Digest, certified: Json -> bool)
    requires forall data :: IsDigest(hash(data))
    ensures Get(EventOf(CanonicalCodec(hash), TrueRow(CanonicalCodec(hash))), "sequence") == Some(Bool(true))
    ensures Chain(CanonicalCodec(hash), certified, [TrueRow(CanonicalCodec(hash))])
  {
    hide RowOk, Lawful, Encode, Valid, Compact, EventWith;
    var codec, rows := CanonicalCodec(hash), [TrueRow(CanonicalCodec(hash))];
    CanonicalUsable(hash);
    HandWritten(Bool(true), "slot");
    TrueReads(codec, certified);
    assert rows[..|rows| - 1] == [];
    assert TotalBytes(rows) == |rows[0].payload|;
    assert RowAt(codec, certified, rows, 0);
  }

  /** An accepted journal is numbered by integers exactly when its first event is not numbered `true`. */
  lemma {:induction false} NumberedExactly(codec: Codec, certified: Json -> bool, rows: seq<Row>)
    requires Chain(codec, certified, rows)
    ensures (forall i | 0 <= i < |rows| :: Get(EventOf(codec, rows[i]), "sequence") == Some(Int(i + 1)))
            <==> rows == [] || Get(EventOf(codec, rows[0]), "sequence") != Some(Bool(true))
  {
    hide EventOf, Find;
    forall i | 0 <= i < |rows|
      ensures IsSequence(Get(EventOf(codec, rows[i]), "sequence"), i + 1)
    {
      assert RowAt(codec, certified, rows, i);
    }
  }

  // ----- every run, with crashes

  /** The durable state: the table and the anchor file. */
  datatype Disk = Disk(rows: seq<Row>, anchor: Option<Bytes>)

  /** The head may lag behind the journal by any number of events, never lead it. */
  ghost predicate Lagging(codec: Codec, d: Disk) {
    match d.anchor
    case None => d.rows == []
    case Some(bytes) =>
      exists k | 0 <= k <= |d.rows| :: bytes == AnchorBytes(codec, Events(codec, d.rows)[..k])
  }

  ghost predicate Sound(codec: Codec, certified: Json -> bool, d: Disk) {
    Chain(codec, certified, d.rows) && Lagging(codec, d)
  }

  /** One durable step. A crash is the end of a run of these at any point. */
  ghost predicate DiskStep(codec: Codec, certified: Json -> bool, d: Disk, d': Disk) {
    || HeadStep(codec, d, d')
    || exists kind, subject, body :: CommitStep(codec, certified, d, d', kind, subject, body)
  }

  ghost predicate HeadStep(codec: Codec, d: Disk, d': Disk) {
    d' == d.(anchor := Some(AnchorBytes(codec, Events(codec, d.rows))))
  }

  ghost predicate CommitStep(
      codec: Codec, certified: Json -> bool, d: Disk, d': Disk, kind: string, subject: string, body: Json)
  {
    var row := NewRow(codec, Events(codec, d.rows), kind, subject, body);
    && d.anchor.Some?
    && Appendable(codec, Events(codec, d.rows), TotalBytes(d.rows), kind, subject, body)
    && Loadable(certified, EventOf(codec, row))
    && d' == d.(rows := d.rows + [row])
  }

  lemma {:induction false} LaggingSurvives(codec: Codec, d: Disk, row: Row)
    requires Lagging(codec, d) && d.anchor.Some?
    ensures Lagging(codec, d.(rows := d.rows + [row]))
  {
    var more := d.rows + [row];
    EventsAppend(codec, d.rows, row);
    var k :| 0 <= k <= |d.rows| && d.anchor.value == AnchorBytes(codec, Events(codec, d.rows)[..k]);
    assert Events(codec, more)[..k] == Events(codec, d.rows)[..k];
  }

  lemma {:induction false} HeadCatchesUp(codec: Codec, d: Disk, d': Disk)
    requires HeadStep(codec, d, d')
    ensures Lagging(codec, d')
  {
    assert Events(codec, d.rows)[..|d.rows|] == Events(codec, d.rows);
  }

  lemma {:induction false} StepKeepsSound(codec: Codec, certified: Json -> bool, d: Disk, d': Disk)
    requires Lawful(codec) && Sound(codec, certified, d) && DiskStep(codec, certified, d, d')
    ensures Sound(codec, certified, d') && d.rows <= d'.rows
  {
    if HeadStep(codec, d, d') {
      HeadCatchesUp(codec, d, d');
    } else {
      var kind, subject, body :| CommitStep(codec, certified, d, d', kind, subject, body);
      AppendKeepsChain(codec, certified, d.rows, kind, subject, body);
      LaggingSurvives(codec, d, NewRow(codec, Events(codec, d.rows), kind, subject, body));
    }
  }

  lemma {:induction false} SoundAccepted(codec: Codec, certified: Json -> bool, d: Disk)
    requires Usable(codec) && Sound(codec, certified, d)
    ensures Accepts(codec, certified, d.rows, d.anchor)
  {
    if d.anchor.Some? {
      var k :| 0 <= k <= |d.rows| && d.anchor.value == AnchorBytes(codec, Events(codec, d.rows)[..k]);
      AnchorOfPrefixAccepted(codec, Events(codec, d.rows), k);
    }
  }

  ghost predicate StepAt(codec: Codec, certified: Json -> bool, run: seq<Disk>, i: nat)
    requires i + 1 < |run|
  {
    DiskStep(codec, certified, run[i], run[i + 1])
  }

  ghost predicate Run(codec: Codec, certified: Json -> bool, run: seq<Disk>) {
    && run != []
    && run[0] == Disk([], None)
    && forall i | 0 <= i < |run| - 1 :: StepAt(codec, certified, run, i)
  }

  lemma {:induction false} RunSound(codec: Codec, certified: Json -> bool, run: seq<Disk>, i: nat)
    requires Lawful(codec) && Run(codec, certified, run) && i < |run|
    ensures Sound(codec, certified, run[i])
  {
    if i > 0 {
      RunSound(codec, certified, run, i - 1);
      assert StepAt(codec, certified, run, i - 1);
      StepKeepsSound(codec, certified, run[i - 1], run[i]);
    }
  }

  lemma {:induction false} RunGrows(codec: Codec, certified: Json -> bool, run: seq<Disk>, i: nat, j: nat)
    requires Lawful(codec) && Run(codec, certified, run) && i <= j < |run|
    ensures run[i].rows <= run[j].rows
    decreases j
  {
    hide Sound, DiskStep, Lawful;
    if i < j {
      RunGrows(codec, certified, run, i, j - 1);
      RunSound(codec, certified, run, j - 1);
      assert StepAt(codec, certified, run, j - 1);
      StepKeepsSound(codec, certified, run[j - 1], run[j]);
    }
  }

  /**
   * Main result: whatever the crashes, what is on disk at any moment is accepted when next
   * read, and holds every earlier moment's journal as a prefix.
   */
  lemma {:induction false} RunsAccepted(codec: Codec, certified: Json -> bool, run: seq<Disk>, i: nat, j: nat)
    requires Usable(codec) && Run(codec, certified, run) && i <= j < |run|
    ensures Accepts(codec, certified, run[j].rows, run[j].anchor)
    ensures run[i].rows <= run[j].rows
  {
    RunSound(codec, certified, run, j);
    SoundAccepted(codec, certified, run[j]);
    RunGrows(codec, certified, run, i, j);
  }

  // ----- power loss, which may take back a head whose directory sync failed

  /** The disk as the running system sees it, and the head a power loss would leave. */
  datatype Medium = Medium(disk: Disk, durable: Option<Bytes>)

  /** Write a head or commit a row, have the directory written out, or lose power. */
  ghost predicate MediumStep(codec: Codec, certified: Json -> bool, m: Medium, n: Medium) {
    || (DiskStep(codec, certified, m.disk, n.disk) && n.durable == m.durable)
    || n == m.(durable := m.disk.anchor)
    || n == m.(disk := Disk(m.disk.rows, m.durable))
  }

  /** A head, if there is one, was written for a prefix of these rows. */
  ghost predicate HeadOn(codec: Codec, rows: seq<Row>, anchor: Option<Bytes>) {
    anchor.Some? ==> Lagging(codec, Disk(rows, anchor))
  }

  ghost predicate MediumSound(codec: Codec, certified: Json -> bool, m: Medium) {
    && Chain(codec, certified, m.disk.rows)
    && HeadOn(codec, m.disk.rows, m.disk.anchor) && HeadOn(codec, m.disk.rows, m.durable)
    && (m.durable.Some? ==> m.disk.anchor.Some?)
  }

  ghost predicate MediumStepAt(codec: Codec, certified: Json -> bool, run: seq<Medium>, i: nat)
    requires i + 1 < |run|
  {
    MediumStep(codec, certified, run[i], run[i + 1])
  }

  ghost predicate MediumRun(codec: Codec, certified: Json -> bool, run: seq<Medium>) {
    && run != [] && run[0] == Medium(Disk([], None), None)
    && forall i | 0 <= i < |run| - 1 :: MediumStepAt(codec, certified, run, i)
  }

  lemma {:induction false} HeadOnGrows(codec: Codec, rows: seq<Row>, row: Row, anchor: Option<Bytes>)
    requires HeadOn(codec, rows, anchor)
    ensures HeadOn(codec, rows + [row], anchor)
  {
    if anchor.Some? { LaggingSurvives(codec, Disk(rows, anchor), row); }
  }

  lemma {:induction false} MediumStepSound(codec: Codec, certified: Json -> bool, m: Medium, n: Medium)
    requires Lawful(codec) && MediumSound(codec, certified, m) && MediumStep(codec, certified, m, n)
    ensures MediumSound(codec, certified, n) && m.disk.rows <= n.disk.rows
    ensures m.durable.Some? ==> n.durable.Some?
  {
    hide Lawful, Chain, Lagging, NewRow, Loadable;
    if DiskStep(codec, certified, m.disk, n.disk) && n.durable == m.durable {
      if HeadStep(codec, m.disk, n.disk) {
        HeadCatchesUp(codec, m.disk, n.disk);
      } else {
        var kind, subject, body :| CommitStep(codec, certified, m.disk, n.disk, kind, subject, body);
        AppendKeepsChain(codec, certified, m.disk.rows, kind, subject, body);
        var row := NewRow(codec, Events(codec, m.disk.rows), kind, subject, body);
        HeadOnGrows(codec, m.disk.rows, row, m.disk.anchor);
        HeadOnGrows(codec, m.disk.rows, row, m.durable);
      }
    }
  }

  /** With power losses too, what is on disk is accepted exactly when its rows still have a head. */
  lemma {:induction false} AcceptedExactly(codec: Codec, certified: Json -> bool, m: Medium)
    requires Usable(codec) && MediumSound(codec, certified, m)
    ensures Accepts(codec, certified, m.disk.rows, m.disk.anchor) <==> m.disk.rows == [] || m.disk.anchor.Some?
  {
    hide Lawful, Compact, Chain, Lagging;
    if m.disk.anchor.Some? { SoundAccepted(codec, certified, m.disk); }
  }

  lemma {:induction false} MediumRunSound(codec: Codec, certified: Json -> bool, run: seq<Medium>, i: nat)
    requires Lawful(codec) && MediumRun(codec, certified, run) && i < |run|
    ensures MediumSound(codec, certified, run[i])
  {
    hide MediumStep, Lawful;
    if i > 0 {
      MediumRunSound(codec, certified, run, i - 1);
      assert MediumStepAt(codec, certified, run, i - 1);
      MediumStepSound(codec, certified, run[i - 1], run[i]);
    }
  }

  /** No row was committed before the first head was durable. */
  ghost predicate HeadFirst(run: seq<Medium>) {
    forall i, j | 0 <= i && j == i + 1 < |run| && run[i].durable.None? :: run[j].disk.rows == run[i].disk.rows
  }

  lemma {:induction false} HeadFirstHolds(codec: Codec, certified: Json -> bool, run: seq<Medium>, i: nat)
    requires Lawful(codec) && MediumRun(codec, certified, run) && HeadFirst(run) && i < |run|
    ensures run[i].disk.rows == [] || run[i].durable.Some?
  {
    hide MediumStep, Lawful, MediumSound;
    if i > 0 {
      HeadFirstHolds(codec, certified, run, i - 1);
      MediumRunSound(codec, certified, run, i - 1);
      assert MediumStepAt(codec, certified, run, i - 1);
      MediumStepSound(codec, certified, run[i - 1], run[i]);
    }
  }

  /**
   * Main result: where the first head was durable before the first event, every state any
   * run with power losses reaches is accepted.
   */
  lemma {:induction false} PowerLossAccepted(codec: Codec, certified: Json -> bool, run: seq<Medium>, i: nat)
    requires Usable(codec) && MediumRun(codec, certified, run) && HeadFirst(run) && i < |run|
    ensures Accepts(codec, certified, run[i].disk.rows, run[i].disk.anchor)
  {
    MediumRunSound(codec, certified, run, i);
    HeadFirstHolds(codec, certified, run, i);
    AcceptedExactly(codec, certified, run[i]);
  }

  /** And only there: an event committed before that, and the next power loss is not survived. */
  lemma {:induction false} HeadLost(codec: Codec, certified: Json -> bool, m: Medium)
    requires Usable(codec) && MediumSound(codec, certified, m)
    ensures var lost := m.(disk := Disk(m.disk.rows, m.durable));
            && MediumStep(codec, certified, m, lost)
            && (Accepts(codec, certified, lost.disk.rows, lost.disk.anchor)
                <==> m.disk.rows == [] || m.durable.Some?)
  {
    hide Lawful, Compact, Chain, Lagging;
    AcceptedExactly(codec, certified, m.(disk := Disk(m.disk.rows, m.durable)));
  }

  /** One such run: a head that is never synced, a first event, and a power loss. */
  lemma {:induction false} HeadLostBy(
      codec: Codec, certified: Json -> bool, kind: string, subject: string, body: Json) returns (run: seq<Medium>)
    requires Appendable(codec, [], 0, kind, subject, body)
    requires Loadable(certified, EventOf(codec, NewRow(codec, [], kind, subject, body)))
    ensures MediumRun(codec, certified, run) && run[|run| - 1].disk.rows == [NewRow(codec, [], kind, subject, body)]
    ensures !Accepts(codec, certified, run[|run| - 1].disk.rows, run[|run| - 1].disk.anchor)
  {
    hide Valid, Chain, Loadable, EventOf, HeadDigest;
    var head := Some(AnchorBytes(codec, []));
    var row := NewRow(codec, [], kind, subject, body);
    var empty, headed := Disk([], None), Disk([], head);
    var full, lost := Disk([row], head), Disk([row], None);
    run := [Medium(empty, None), Medium(headed, None), Medium(full, None), Medium(lost, None)];
    assert Events(codec, []) == [];
    assert HeadStep(codec, empty, headed);
    assert headed.rows + [row] == [row];
    assert CommitStep(codec, certified, headed, full, kind, subject, body);
    assert MediumStepAt(codec, certified, run, 0);
    assert MediumStepAt(codec, certified, run, 1);
    assert MediumStepAt(codec, certified, run, 2);
  }
}
