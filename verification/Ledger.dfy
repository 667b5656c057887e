/**
 * The single-owner forecast ledger: load, append, recover, publish.
 *
 * `rows` and `anchor` are what survives a crash; the other fields die with the process. A
 * method that reports failure may leave any prefix of its durable steps done, so dropping
 * the object after a failure and opening a new one on what is left is a crash.
 */
module Ledger {
  import opened Wrappers
  import opened Canonical
  import opened Records
  import opened Domain
  import opened Journal
  import opened LedgerContracts
  import opened Protocol

  lemma {:induction false} TotalBytesMonotone(rows: seq<Row>, n: nat)
    requires n <= |rows|
    ensures TotalBytes(rows[..n]) <= TotalBytes(rows)
    decreases |rows| - n
  {
    if n < |rows| {
      assert rows[..n + 1][..n] == rows[..n];
      TotalBytesMonotone(rows, n + 1);
    } else {
      assert rows[..n] == rows;
    }
  }

  lemma {:induction false} TakeNext<T>(s: seq<T>, i: nat)
    requires i < |s|
    ensures s[..i + 1] == s[..i] + [s[i]] && s[..i + 1][..i] == s[..i]
  {
  }

  class ForecastLedger {
    const codec: Codec
    const certified: Json -> bool
    const admitted: bool

    /** True in an environment where no system call, transaction or clock reading fails. */
    const faultless: bool

    var rows: seq<Row>
    var anchor: Option<Bytes>

    var events: seq<Json>
    var bytes: nat
    var failed: bool

    /** The journal is one chain and the head is somewhere on it. */
    ghost predicate Consistent()
      reads this
    {
      Usable(codec) && Sound(codec, certified, Disk(rows, anchor))
    }

    /** The object as the constructor finds it, before anything has been read. */
    constructor (hash: Bytes -> Digest, admitted: bool, faultless: bool, rows: seq<Row>, anchor: Option<Bytes>)
      ensures codec == CanonicalCodec(hash) && certified == CertifiedBy(codec) && this.admitted == admitted
      ensures this.faultless == faultless
      ensures this.rows == rows && this.anchor == anchor
      ensures !failed && events == []
      ensures (forall data :: IsDigest(hash(data))) && rows == [] && anchor.None? ==> Valid()
    {
      this.codec, this.admitted, this.faultless := CanonicalCodec(hash), admitted, faultless;
      this.certified := CertifiedBy(CanonicalCodec(hash));
      this.rows, this.anchor := rows, anchor;
      this.events, this.bytes, this.failed := [], 0, false;
      new;
      if (forall data :: IsDigest(hash(data))) && rows == [] && anchor.None? { CanonicalUsable(hash); }
    }

    /** Replace the anchor file; a failure may come before or after the rename. */
    method WriteAnchor() returns (ok: bool)
      modifies this`anchor
      ensures ok ==> anchor == Some(AnchorBytes(codec, events))
      ensures anchor == old(anchor) || anchor == Some(AnchorBytes(codec, events))
      ensures faultless ==> ok
    {
      var renamed: bool := *;
      if !renamed && !faultless { return false; }
      anchor := Some(AnchorBytes(codec, events));
      ok := *;
      ok := ok || faultless;
    }

    method CheckAnchor() returns (ok: bool)
      requires |events| <= MAX_EVENTS
      modifies this`anchor
      ensures old(anchor).Some? ==> anchor == old(anchor) && ok == AnchorAccepts(codec, events, anchor.value)
      ensures old(anchor).None? && events != [] ==> !ok && anchor.None?
      ensures old(anchor).None? && events == [] ==> anchor.None? || anchor == Some(AnchorBytes(codec, []))
      ensures old(anchor).None? && ok ==> anchor.Some?
      ensures old(anchor).None? && events == [] && faultless ==> ok
    {
      if anchor.None? {
        if events != [] { return false; }
        ok := WriteAnchor();
        return;
      }
      ok := AnchorAccepts(codec, events, anchor.value);
    }

    method CheckRow(i: nat, previous: Digest) returns (ok: bool)
      requires i < |rows| && previous == PreviousDigest(rows, i)
      ensures ok == RowAt(codec, certified, rows, i)
    {
      ok := RowOk(codec, certified, i, previous, rows[i]);
    }

    lemma {:induction false} RowsOkAt(i: nat)
      requires i < |rows|
      ensures RowsOk(codec, certified, rows, i + 1)
              <==> RowsOk(codec, certified, rows, i) && RowAt(codec, certified, rows, i)
      ensures RowsOk(codec, certified, rows, |rows|) ==> RowAt(codec, certified, rows, i)
      ensures PreviousDigest(rows, i + 1) == rows[i].checksum
      ensures TotalBytes(rows[..i + 1]) == TotalBytes(rows[..i]) + |rows[i].payload|
    {
      hide RowAt;
      assert rows[..i + 1][..i] == rows[..i];
    }

    lemma {:induction false} RowsOkNone()
      ensures RowsOk(codec, certified, rows, 0) && PreviousDigest(rows, 0) == ZEROS && TotalBytes(rows[..0]) == 0
    {
    }

    /** Walk the chain from the first row, keeping the running digest and byte count. */
    method Scan() returns (found: Option<seq<Json>>, total: nat)
      ensures found.Some? == Chain(codec, certified, rows)
      ensures found.Some? ==> found.value == Events(codec, rows) && total == TotalBytes(rows)
    {
      hide RowAt, EventOf, Sound, RowsOk, PreviousDigest, TotalBytes;
      RowsOkNone();
      var result: seq<Json> := [];
      var previous, i := ZEROS, 0;
      total := 0;
      while i < |rows|
        invariant 0 <= i <= |rows| && i <= MAX_EVENTS
        invariant result == Events(codec, rows[..i])
        invariant total == TotalBytes(rows[..i]) <= MAX_BYTES
        invariant previous == PreviousDigest(rows, i)
        invariant RowsOk(codec, certified, rows, i)
      {
        var row := rows[i];
        RowsOkAt(i);
        total := total + |row.payload|;
        TakeNext(rows, i);
        TotalBytesMonotone(rows, i + 1);
        if total > MAX_BYTES || |result| >= MAX_EVENTS { return None, total; }
        var ok := CheckRow(i, previous);
        if !ok { return None, total; }
        EventsAppend(codec, rows[..i], row);
        result := result + [EventOf(codec, row)];
        previous := row.checksum;
        i := i + 1;
      }
      assert rows[..i] == rows;
      return Some(result), total;
    }

    /** Re-read the whole journal and check it against the retained head. */
    method Load() returns (ok: bool)
      modifies this`events, this`bytes, this`anchor
      ensures ok ==> !failed && Accepts(codec, certified, rows, old(anchor))
      ensures ok ==> events == Events(codec, rows) && bytes == TotalBytes(rows)
      ensures ok ==> anchor == if old(anchor).Some? then old(anchor) else Some(AnchorBytes(codec, []))
      ensures anchor == old(anchor) || (old(anchor).None? && rows == [] && anchor == Some(AnchorBytes(codec, [])))
      ensures (old(anchor).Some? || faultless) && !failed && Accepts(codec, certified, rows, old(anchor)) ==> ok
    {
      if failed { return false; }
      var found, total := Scan();
      if found.None? { return false; }
      events, bytes := found.value, total;
      ok := CheckAnchor();
    }

    lemma {:induction false} HeadStays(d: Disk, d': Disk)
      requires Lagging(codec, d) && d'.rows == d.rows
      requires d' == d || d'.anchor == Some(AnchorBytes(codec, Events(codec, d.rows)))
      ensures Lagging(codec, d')
    {
      if d' != d { HeadCatchesUp(codec, d, d'); }
    }

    /** Reading a consistent journal succeeds unless the object has already failed. */
    method Reload() returns (ok: bool)
      requires Consistent()
      modifies this`events, this`bytes, this`anchor
      ensures Consistent()
      ensures ok ==> !failed && anchor.Some? && events == Events(codec, rows) && bytes == TotalBytes(rows)
      ensures old(anchor).Some? ==> anchor == old(anchor) && ok == !failed
      ensures faultless ==> ok == !failed
    {
      SoundAccepted(codec, certified, Disk(rows, anchor));
      ok := Load();
      HeadStays(Disk(rows, old(anchor)), Disk(rows, anchor));
    }

    /** COMMIT is atomic: the row is there, or it is not. */
    method Commit(row: Row) returns (ok: bool)
      modifies this`rows
      ensures rows == if ok then old(rows) + [row] else old(rows)
      ensures faultless ==> ok
    {
      ok := *;
      ok := ok || faultless;
      if ok { rows := rows + [row]; }
    }

    function Next(kind: string, subject: string, body: Json): Row
      reads this
    {
      NewRow(codec, Events(codec, rows), kind, subject, body)
    }

    predicate Acceptable(kind: string, subject: string, body: Json)
      reads this
    {
      CanAppend(codec, rows, kind, subject, body)
    }

    /** The event, if it is appended at all, is one that can be read back. */
    predicate StaysLoadable(kind: string, subject: string, body: Json)
      reads this
    {
      Acceptable(kind, subject, body) ==> Loadable(certified, EventOf(codec, Next(kind, subject, body)))
    }

    /**
     * Append one event: commit, then move the head. Success means both are durable; failure
     * leaves the journal as it was or with the event committed, and in the latter case the
     * object refuses further use.
     */
    method Append(kind: string, subject: string, body: Json) returns (checksum: Option<Digest>)
      requires Consistent()
      modifies this
      ensures old(StaysLoadable(kind, subject, body)) ==> Consistent()
      ensures rows == old(rows) ||
              (old(Acceptable(kind, subject, body)) && rows == old(rows + [Next(kind, subject, body)]))
      ensures checksum.Some? ==>
                && rows == old(rows + [Next(kind, subject, body)])
                && checksum.value == old(Next(kind, subject, body)).checksum
                && anchor == Some(AnchorBytes(codec, Events(codec, rows)))
                && events == Events(codec, rows) && bytes == TotalBytes(rows) && !failed
      ensures checksum.None? && rows != old(rows) ==> failed
      ensures old(failed) ==> failed && checksum.None? && rows == old(rows)
      ensures faultless && !old(failed) && old(Acceptable(kind, subject, body)) ==> checksum.Some?
      ensures faultless && !old(failed) ==> !failed
      ensures old(anchor).Some? ==> anchor.Some?
    {
      hide Loadable, NewRow, Appendable, AnchorBytes, EventOf, Usable, Sound;
      var ok := Reload();
      if !ok || !Appendable(codec, events, bytes, kind, subject, body) { return None; }
      var row := NewRow(codec, events, kind, subject, body);
      ok := Extend(row, kind, subject, body);
      if ok { checksum := Some(row.checksum); } else { checksum := None; }
    }

    /** Put an admitted event's row behind a journal that has just been read. */
    method Extend(row: Row, kind: string, subject: string, body: Json) returns (ok: bool)
      requires Consistent() && anchor.Some? && !failed && events == Events(codec, rows) && bytes == TotalBytes(rows)
      requires Acceptable(kind, subject, body) && row == Next(kind, subject, body)
      modifies this
      ensures Loadable(certified, EventOf(codec, row)) ==> Consistent()
      ensures anchor.Some? && (rows == old(rows) || rows == old(rows) + [row])
      ensures ok ==> rows != old(rows) && events == Events(codec, rows) && bytes == TotalBytes(rows)
      ensures ok ==> anchor == Some(AnchorBytes(codec, events))
      ensures ok == !failed && (faultless ==> ok)
    {
      hide Lawful, Compact, Chain, Lagging, Loadable, NewRow, Appendable, AnchorBytes, EventOf;
      ghost var was := Disk(rows, anchor);
      AppendedSound(was, kind, subject, body);
      ok := Persist(row);
      HeadStays(was.(rows := rows), Disk(rows, anchor));
    }

    /** Commit the row, then write a head that covers it. */
    method Persist(row: Row) returns (ok: bool)
      requires anchor.Some? && !failed && events == Events(codec, rows) && bytes == TotalBytes(rows)
      modifies this
      ensures rows == old(rows) || rows == old(rows) + [row]
      ensures anchor == old(anchor) || (rows != old(rows) && anchor == Some(AnchorBytes(codec, Events(codec, rows))))
      ensures ok ==> rows != old(rows) && events == Events(codec, rows) && bytes == TotalBytes(rows)
      ensures ok ==> anchor == Some(AnchorBytes(codec, events)) && !failed
      ensures ok == !failed && (faultless ==> ok)
    {
      hide AnchorBytes, EventOf, HeadDigest;
      ok := Commit(row);
      if !ok {
        failed := true;
        return;
      }
      EventsAppend(codec, old(rows), row);
      assert (old(rows) + [row])[..|old(rows)|] == old(rows);
      events := events + [EventOf(codec, row)];
      bytes := bytes + |row.payload|;
      ok := WriteAnchor();
      failed := !ok;
    }

    lemma {:induction false} AppendedSound(d: Disk, kind: string, subject: string, body: Json)
      requires Usable(codec) && d.anchor.Some? && Sound(codec, certified, d)
      requires Appendable(codec, Events(codec, d.rows), TotalBytes(d.rows), kind, subject, body)
      ensures var row := NewRow(codec, Events(codec, d.rows), kind, subject, body);
              var more := d.rows + [row];
              && Lagging(codec, d.(rows := more))
              && (Loadable(certified, EventOf(codec, row)) ==> Chain(codec, certified, more))
              && Events(codec, more) == Events(codec, d.rows) + [EventOf(codec, row)]
              && TotalBytes(more) == TotalBytes(d.rows) + |row.payload|
    {
      var row := NewRow(codec, Events(codec, d.rows), kind, subject, body);
      AppendKeepsChain(codec, certified, d.rows, kind, subject, body);
      LaggingSurvives(codec, d, row);
      EventsAppend(codec, d.rows, row);
      assert (d.rows + [row])[..|d.rows|] == d.rows;
    }

    // ----- the publication protocol

    ghost function History(): seq<Json>
      reads this
    {
      Events(codec, rows)
    }

    ghost predicate Valid()
      reads this
    {
      Consistent() && certified == CertifiedBy(codec) && Disciplined(codec, History())
    }

    lemma {:induction false} CertifiedAt(i: nat)
      requires Valid() && i < |rows| && Kind(History()[i]) == "publication"
      ensures Certified(codec, History()[i])
    {
      assert RowAt(codec, certified, rows, i);
      assert certified(History()[i]);
    }

    /** Whatever event `Append` would write, it is in its place. */
    ghost predicate Admits(kind: string, subject: string, body: Json)
      reads this
    {
      Acceptable(kind, subject, body) ==>
        && Loadable(certified, EventOf(codec, Next(kind, subject, body)))
        && Placed(codec, History(), EventOf(codec, Next(kind, subject, body)))
    }

    /** `Append` of an event in its place keeps the whole discipline. */
    method Record(kind: string, subject: string, body: Json) returns (ok: bool)
      requires Valid() && Admits(kind, subject, body)
      modifies this
      ensures Valid()
      ensures History() == old(History()) || Appended(old(History()), History(), kind, subject, body)
      ensures ok ==> Appended(old(History()), History(), kind, subject, body)
      ensures ok ==> anchor.Some? && events == History() && !failed && rows == old(rows + [Next(kind, subject, body)])
      ensures faultless && !old(failed) ==>
                !failed && ok == old(Acceptable(kind, subject, body)) && (!ok ==> rows == old(rows))
      ensures History() == old(History()) ==> rows == old(rows)
      ensures old(rows) <= rows && (old(anchor).Some? ==> anchor.Some?)
    {
      hide Lawful, Compact, Chain, Lagging, Placed, RowOk, Kind, Subject, Body;
      var was := rows;
      var checksum := Append(kind, subject, body);
      if rows != was {
        var row := NewRow(codec, Events(codec, was), kind, subject, body);
        NewEventReads(codec, Events(codec, was), TotalBytes(was), kind, subject, body);
        AppendableBody(codec, Events(codec, was), TotalBytes(was), kind, subject, body);
        EventsAppend(codec, was, row);
        DisciplineExtends(codec, Events(codec, was), EventOf(codec, row));
      }
      ok := checksum.Some?;
    }

    /** Write the certificate of a publication that has none. */
    method Certify(c: Content, timing: string, observation: ClockSample) returns (receipt: Option<Json>)
      requires Valid() && ValidContent(c) && AwaitsReceipt(codec, History(), c)
      modifies this
      ensures Valid() && old(rows) <= rows
      ensures var evidence := EvidenceClass(admitted, old(History()), c, timing);
              var body := ReceiptJson(codec, c, timing, evidence, observation);
              && (History() == old(History()) ||
                  Appended(old(History()), History(), "receipt", SlotSha(codec, c.slot), body))
              && (receipt.Some? ==> History() != old(History()) && receipt.value == body)
      ensures receipt.Some? ==> anchor.Some? && events == History() && !failed
      ensures faultless && !old(failed) ==>
                && !failed
                && (receipt.Some? <==> RoomForReceipt(codec, admitted, old(rows), c, timing, observation))
                && (receipt.None? ==> rows == old(rows))
      ensures old(anchor).Some? ==> anchor.Some?
    {
      hide Usable, Lawful, Compact, Chain, Lagging, Sound, Disciplined, Bodies, Canon, ReceiptJson, EvidenceClass;
      hide NewRow;
      hide CanAppend, Appended, AwaitsReceipt, ValidContent;
      var subject := SlotSha(codec, c.slot);
      var ok := Reload();
      if !ok { return None; }
      var evidence := EvidenceClass(admitted, events, c, timing);
      if evidence == "genuine-forward" {
        // the raw source bytes must still be readable
        ok := *;
        if !ok && !faultless { return None; }
      }
      var body := ReceiptJson(codec, c, timing, evidence, observation);
      ReceiptAdmitted(c, timing, evidence, observation);
      ok := Record("receipt", subject, body);
      receipt := if ok then Some(body) else None;
    }

    lemma {:induction false} ReceiptAdmitted(c: Content, timing: string, evidence: string, observation: ClockSample)
      requires Valid() && ValidContent(c) && AwaitsReceipt(codec, History(), c)
      requires evidence == EvidenceClass(admitted, History(), c, timing)
      ensures Admits("receipt", SlotSha(codec, c.slot), ReceiptJson(codec, c, timing, evidence, observation))
    {
      var subject, body := SlotSha(codec, c.slot), ReceiptJson(codec, c, timing, evidence, observation);
      if Acceptable("receipt", subject, body) {
        NewEventReads(codec, Events(codec, rows), TotalBytes(rows), "receipt", subject, body);
        EvidenceIsHonest(admitted, History(), c, timing);
        ReceiptReads(codec, c, timing, evidence, observation);
        ReceiptFits(
          codec, History(), EventOf(codec, Next("receipt", subject, body)), c, timing, evidence, observation);
      }
    }

    lemma {:induction false} NeedsReceipt(was: seq<Json>, i: nat)
      requires Valid() && was <= History() && i < |was| && Kind(was[i]) == "publication"
      requires Bodies(History(), "receipt", Subject(was[i])) == []
      ensures Published(was[i]).Some? && ValidContent(Published(was[i]).value)
      ensures SlotSha(codec, Published(was[i]).value.slot) == Subject(was[i])
      ensures AwaitsReceipt(codec, History(), Published(was[i]).value)
    {
      CertifiedAt(i);
      UncertifiedAwaits(codec, History(), i);
    }

    /** Nothing has failed, and nothing around the ledger will. */
    predicate Working()
      reads this`failed
    {
      faultless && !failed
    }

    /** Sample the clock and certify one publication without claiming anything of its timing. */
    method RecoverOne(event: Json, ghost snapshot: seq<Json>, ghost receipts: set<string>, ghost i: nat)
      returns (ok: bool)
      requires Valid() && i < |snapshot| && event == snapshot[i] && Recovering(snapshot, History(), receipts, i)
      requires Kind(event) == "publication" && Subject(event) !in receipts
      modifies this
      ensures Valid() && old(rows) <= rows
      ensures Recovered(snapshot, History())
      ensures ok ==> Recovering(snapshot, History(), receipts, i + 1)
      ensures old(anchor).Some? ==> anchor.Some?
      ensures old(Working()) ==> Working() && (ok || NoRoomToRecover(codec, admitted, rows))
    {
      hide Usable, Lawful, Compact, Chain, Lagging, Sound, Disciplined, Canon, ReceiptJson, EvidenceClass, Certified;
      hide RoomForReceipt, IsRecovery, Bodies, Published;
      ghost var h := History();
      RecoverySkips(codec, snapshot, h, receipts, i);
      NeedsReceipt(snapshot, i);
      var ticked: bool := *;
      if !ticked && !faultless { return false; }
      var observation: ClockSample := *;
      var content := Published(event).value;
      var receipt := Certify(content, "recovery-unknown", observation);
      if History() != h {
        RecoveryCertifies(codec, admitted, snapshot, h, History(), receipts, i, content, observation);
      }
      ok := receipt.Some?;
      if old(Working()) && !ok { NoRoomHere(codec, admitted, rows, i, observation); }
    }

    /** Certify every publication that has no certificate, claiming nothing about its timing. */
    method Recover() returns (ok: bool)
      requires Valid() && events == History()
      modifies this
      ensures Valid() && old(rows) <= rows
      ensures Recovered(old(History()), History())
      ensures ok ==> AllCertified(History())
      ensures ok && old(anchor).Some? ==> anchor.Some?
      ensures old(Working()) && !ok ==> NoRoomToRecover(codec, admitted, rows)
    {
      hide CanAppend;
      hide Usable, Lawful, Compact, Chain, Lagging, Sound, Disciplined, Bodies, Canon, ReceiptJson, EvidenceClass;
      hide Certified, HasReceipt, Foreseen, IsRecovery;
      var receipts := set e | e in events && Kind(e) == "receipt" :: Subject(e);
      var snapshot, i := events, 0;
      RecoveryStarts(codec, snapshot, receipts);
      while i < |snapshot|
        invariant 0 <= i <= |snapshot| && Valid() && old(rows) <= rows
        invariant Recovering(snapshot, History(), receipts, i)
        invariant old(anchor).Some? ==> anchor.Some?
        invariant old(Working()) ==> Working()
      {
        var event := snapshot[i];
        RecoverySkips(codec, snapshot, History(), receipts, i);
        if Kind(event) == "publication" && Subject(event) !in receipts {
          var ok := RecoverOne(event, snapshot, receipts, i);
          if !ok { return false; }
        }
        i := i + 1;
      }
      RecoveryEnds(snapshot, History(), receipts);
      ok := true;
    }

    /** Open what a crash, or nothing, has left: read it, then certify what is uncertified. */
    method Open() returns (ok: bool)
      requires Valid()
      modifies this
      ensures Valid() && old(rows) <= rows
      ensures Recovered(old(History()), History())
      ensures ok ==> AllCertified(History()) && anchor.Some?
      ensures old(Working()) && !ok ==> NoRoomToRecover(codec, admitted, rows)
    {
      ok := Reload();
      if ok { ok := Recover(); }
    }

    /** The bodies of one kind about one subject; `None` unless there is exactly one. */
    method Only(kind: string, subject: string) returns (body: Option<Json>)
      requires Valid()
      modifies this`events, this`bytes, this`anchor
      ensures Valid() && (old(anchor).Some? ==> anchor.Some?)
      ensures body.Some? ==> !failed && Bodies(History(), kind, subject) == [body.value]
      ensures (old(anchor).Some? || faultless) && !failed && |Bodies(History(), kind, subject)| == 1 ==> body.Some?
    {
      hide Usable, Lawful, Compact, Chain, Lagging, Sound, Disciplined, Bodies;
      var ok := Reload();
      if !ok { return None; }
      var found := Bodies(events, kind, subject);
      body := if |found| == 1 then Some(found[0]) else None;
    }

    lemma {:induction false} PlainAdmitted(kind: string, subject: string, body: Json)
      requires Valid() && body.Obj? && kind !in {"publication", "receipt", "stream"}
      ensures Admits(kind, subject, body)
    {
      if Acceptable(kind, subject, body) {
        NewEventReads(codec, Events(codec, rows), TotalBytes(rows), kind, subject, body);
      }
    }

    lemma {:induction false} StreamAdmitted(s: Stream)
      requires Valid() && Bodies(History(), "stream", StreamSubject(codec, s)) == []
      ensures Admits("stream", StreamSubject(codec, s), StreamJson(s))
    {
      if Acceptable("stream", StreamSubject(codec, s), StreamJson(s)) {
        NewEventReads(
          codec, Events(codec, rows), TotalBytes(rows), "stream", StreamSubject(codec, s), StreamJson(s));
      }
    }

    lemma {:induction false} PublicationAdmitted(c: Content, attempt: string)
      requires Valid() && ValidContent(c)
      requires Bodies(History(), "publication", SlotSha(codec, c.slot)) == []
      requires Bodies(History(), "stream", StreamSubject(codec, c.slot.stream)) == [Canon(StreamJson(c.slot.stream))]
      ensures Admits("publication", SlotSha(codec, c.slot), PublicationJson(codec, c, attempt))
    {
      var subject, body := SlotSha(codec, c.slot), PublicationJson(codec, c, attempt);
      if Acceptable("publication", subject, body) {
        NewEventReads(codec, Events(codec, rows), TotalBytes(rows), "publication", subject, body);
        PublicationFits(codec, History(), EventOf(codec, Next("publication", subject, body)), c, attempt);
      }
    }

    predicate Accredited(c: Content, attempt: string) {
      ValidContent(c) && (c.slot.IsForward() ==> admitted) && IsIdentifier(attempt) && |attempt| == 32
    }

    /** Put a conflict on record, which changes nothing else the journal says. */
    method RecordConflict(subject: Digest, conflict: Json) returns (ok: bool)
      requires Valid() && conflict.Obj?
      modifies this
      ensures Valid() && old(rows) <= rows && OnlyProtocol(old(History()), History())
      ensures OnlyConflicts(old(History()), History()) && |History()| <= |old(History())| + 1
      ensures Undisturbed(old(History()), History())
      ensures ok ==> Appended(old(History()), History(), "conflict", subject, conflict)
      ensures ok ==> HasConflict(History(), conflict)
      ensures !ok && |History()| == |old(History())| ==> History() == old(History())
      ensures old(Working()) ==> Working() && ok == old(CanAppend(codec, rows, "conflict", subject, conflict))
    {
      hide Usable, Sound, Disciplined, Bodies, Canon;
      ghost var h := History();
      PlainAdmitted("conflict", subject, conflict);
      ok := Record("conflict", subject, conflict);
      ConflictsChangeNothing(h, History());
      assert ok ==> History()[|h|] in History();
    }

    /** The slot is taken: give back its certificate, or record that the contents differ. */
    method Resubmit(c: Content, attempt: string) returns (r: Option<Json>)
      requires Valid() && Bodies(History(), "publication", SlotSha(codec, c.slot)) != []
      modifies this
      ensures Valid() && old(rows) <= rows && OnlyProtocol(old(History()), History())
      ensures AnswerTo(codec, old(History()), c) == Replay ==>
                && rows == old(rows)
                && (r.Some? ==> Bodies(old(History()), "receipt", SlotSha(codec, c.slot)) == [r.value])
      ensures AnswerTo(codec, old(History()), c) == ContentConflict ==>
                ConflictAnswered(codec, old(History()), History(), c, attempt, r)
      ensures Undisturbed(old(History()), History())
      ensures old(Working()) ==> (r.Some? <==> RoomToResubmit(codec, old(rows), c, attempt))
    {
      NothingChanges(History());
      hide Usable, Lawful, Compact, Chain, Lagging, Sound, Disciplined, Bodies, Canon, SlotSha, ContentSha, CanAppend;
      hide Undisturbed, OnlyConflicts, OnlyProtocol, HasConflict, Appended;
      var ok := Reload();
      if !ok { return None; }
      var existing := Bodies(events, "publication", SlotSha(codec, c.slot));
      var accepted := Get(existing[0], "content_sha256");
      if accepted == Some(Str(ContentSha(codec, c))) {
        r := Only("receipt", SlotSha(codec, c.slot));
        return;
      }
      var conflict := ConflictJson(accepted.GetOr(Null), ContentSha(codec, c), attempt);
      if !HasConflict(events, conflict) {
        ok := RecordConflict(SlotSha(codec, c.slot), conflict);
        if !ok { return None; }
      }
      r := Some(conflict);
    }

    /** Admit the stream under its name, once; another manifest of that name is a conflict. */
    method AdmitStream(c: Content) returns (ok: bool, conflict: Option<Json>)
      requires Valid()
      modifies this
      ensures Valid() && old(rows) <= rows && OnlyProtocol(old(History()), History())
      ensures ok ==> StreamOutcome(codec, old(History()), History(), c, conflict)
      ensures !ok ==> conflict.None? && StreamAttempted(codec, old(History()), History(), c)
      ensures AnswerIsStreamConflict(codec, old(History()), c) ==> Undisturbed(old(History()), History())
      ensures ok && conflict.None? ==> rows == RowsWithStream(codec, old(rows), c)
      ensures old(Working()) ==> Working() && (ok <==> RoomForStream(codec, old(rows), c))
    {
      hide Usable, Lawful, Compact, Chain, Lagging, Sound, Disciplined, Bodies, Canon, StreamJson, Identity, NewRow;
      hide Placed, CanAppend, Undisturbed;
      NothingChanges(History());
      conflict := None;
      ok := Reload();
      if !ok { return; }
      var s := c.slot.stream;
      var subject := StreamSubject(codec, s);
      var streams := Bodies(events, "stream", subject);
      if streams != [] && streams != [Canon(StreamJson(s))] {
        var body := StreamConflictJson(Identity(codec, streams[0]), Identity(codec, StreamJson(s)));
        ok := RecordConflict(SlotSha(codec, c.slot), body);
        if ok { conflict := Some(body); }
      } else if streams == [] {
        StreamAdmitted(s);
        ok := Record("stream", subject, StreamJson(s));
      }
    }

    method PublishFirst(c: Content, attempt: string, before: Option<ClockSample>, after: Option<ClockSample>)
      returns (r: Option<Json>)
      requires Valid() && ValidContent(c)
      requires Bodies(History(), "publication", SlotSha(codec, c.slot)) == []
      modifies this
      ensures Valid() && old(rows) <= rows && OnlyProtocol(old(History()), History())
      ensures AnswerIsStreamConflict(codec, old(History()), c) && r.Some? ==>
                StreamOutcome(codec, old(History()), History(), c, r)
      ensures AnswerIsStreamConflict(codec, old(History()), c) ==> Undisturbed(old(History()), History())
      ensures !AnswerIsStreamConflict(codec, old(History()), c) && r.Some? ==>
                && before.Some? && after.Some?
                && FirstIssued(
                     codec, admitted, old(History()), History(), c, attempt, before.value, after.value, r.value)
      ensures old(Working()) ==>
                (r.Some? <==>
                  && RoomForStream(codec, old(rows), c)
                  && (AnswerIsStreamConflict(codec, old(History()), c) ||
                      RoomToIssue(codec, admitted, RowsWithStream(codec, old(rows), c), c, attempt, before, after)))
    {
      hide RoomForStream, RowsWithStream, RoomToIssue;
      hide Usable, Lawful, Compact, Chain, Lagging, Sound, Disciplined, Bodies, Canon, StreamJson, Timeliness;
      hide FirstIssued, Issued, Undisturbed;
      ghost var h := History();
      var ok;
      ok, r := AdmitStream(c);
      if !ok || r.Some? { return; }
      StreamAdmittedNow(codec, h, History(), c);
      ghost var h' := History();
      r := Issue(c, attempt, before, after);
      if r.Some? {
        StreamThenIssued(codec, admitted, h, h', History(), c, attempt, before.value, after.value, r.value);
      }
    }

    /**
     * Main entry. `before` and `after` are what the clock gives on its two samples, if it
     * gives any. What is answered depends on the journal alone: the same content again is
     * a replay and adds nothing, another content is a conflict and changes nothing.
     */
    method Publish(c: Content, attempt: string, before: Option<ClockSample>, after: Option<ClockSample>)
      returns (r: Option<Json>)
      requires Valid()
      modifies this
      ensures Valid() && old(rows) <= rows && OnlyProtocol(old(History()), History())
      ensures !Accredited(c, attempt) ==> r.None? && rows == old(rows)
      ensures AnswerTo(codec, old(History()), c) == Replay ==>
                && rows == old(rows)
                && (r.Some? ==> Bodies(old(History()), "receipt", SlotSha(codec, c.slot)) == [r.value])
      ensures AnswerTo(codec, old(History()), c) == ContentConflict && Accredited(c, attempt) ==>
                ConflictAnswered(codec, old(History()), History(), c, attempt, r)
      ensures AnswerTo(codec, old(History()), c) == StreamConflict && r.Some? ==>
                StreamOutcome(codec, old(History()), History(), c, r)
      ensures AnswerTo(codec, old(History()), c) != Fresh ==> Undisturbed(old(History()), History())
      ensures AnswerTo(codec, old(History()), c) == Fresh && r.Some? ==> before.Some? && after.Some?
      ensures AnswerTo(codec, old(History()), c) == Fresh && r.Some? ==>
                FirstIssued(codec, admitted, old(History()), History(), c, attempt, before.value, after.value, r.value)
      ensures old(Working()) ==>
                (r.Some? <==>
                 Accredited(c, attempt) && RoomToPublish(codec, admitted, old(rows), c, attempt, before, after))
    {
      hide RoomForStream, RowsWithStream, RoomToIssue, RoomToResubmit;
      hide Usable, Lawful, Compact, Chain, Lagging, Sound, Disciplined, Bodies, Canon, StreamJson, Timeliness;
      hide FirstIssued, StreamOutcome, HasConflict, ValidContent, SlotSha, ContentSha, StreamSubject, Undisturbed;
      NothingChanges(History());
      if !Accredited(c, attempt) { return None; }
      var ok := Reload();
      if !ok { return None; }
      if Bodies(events, "publication", SlotSha(codec, c.slot)) != [] {
        r := Resubmit(c, attempt);
        return;
      }
      r := PublishFirst(c, attempt, before, after);
    }

    /** First publication of a slot: sample, commit, sample, judge, certify. */
    method Issue(c: Content, attempt: string, before: Option<ClockSample>, after: Option<ClockSample>)
      returns (r: Option<Json>)
      requires Valid() && ValidContent(c)
      requires Bodies(History(), "publication", SlotSha(codec, c.slot)) == []
      requires Bodies(History(), "stream", StreamSubject(codec, c.slot.stream)) == [Canon(StreamJson(c.slot.stream))]
      modifies this
      ensures Valid() && old(rows) <= rows && OnlyProtocol(old(History()), History())
      ensures r.Some? ==> before.Some? && after.Some?
      ensures r.Some? ==>
                Issued(codec, admitted, old(History()), History(), c, attempt, before.value, after.value, r.value)
      ensures old(History()) <= History() && |History()| <= |old(History())| + 2
      ensures old(Working()) ==> (r.Some? <==> RoomToIssue(codec, admitted, old(rows), c, attempt, before, after))
    {
      hide CanAppend;
      hide Usable, Lawful, Compact, Chain, Lagging, Sound, Disciplined, Bodies, Canon, PublicationJson, Timeliness;
      hide NewRow, Placed, Issued;
      hide Appended, AwaitsReceipt, ReceiptJson, EvidenceClass, ValidContent, SlotSha;
      if before.None? { return None; }
      var subject, publication := SlotSha(codec, c.slot), PublicationJson(codec, c, attempt);
      PublicationAdmitted(c, attempt);
      NoReceiptYet(codec, History(), subject);
      ghost var h := History();
      var ok := Record("publication", subject, publication);
      ghost var h' := History();
      AppendedGrows(h, h', "publication", subject, publication);
      if !ok || after.None? { return None; }
      PublicationAwaits(codec, h, h', c, attempt);
      var timing := Timeliness(before.value, after.value, c.slot);
      ghost var body := ReceiptJson(codec, c, timing, EvidenceClass(admitted, h', c, timing), after.value);
      r := Certify(c, timing, after.value);
      AppendedGrows(h', History(), "receipt", subject, body);
      if r.Some? { NowIssued(codec, admitted, h, h', History(), c, attempt, before.value, after.value, r.value); }
    }
  }

  // ----- what a first publication adds to the journal

  /** The stream is admitted, or the refusal is on record. */
  ghost predicate StreamOutcome(
      codec: Codec, was: seq<Json>, now: seq<Json>, c: Content, conflict: Option<Json>)
  {
    var s := c.slot.stream;
    var streams := Bodies(was, "stream", StreamSubject(codec, s));
    if streams != [] && streams != [Canon(StreamJson(s))] then
      && conflict == Some(StreamConflictJson(Identity(codec, streams[0]), Identity(codec, StreamJson(s))))
      && Appended(was, now, "conflict", SlotSha(codec, c.slot), conflict.value)
    else
      && conflict.None?
      && if streams == [] then Appended(was, now, "stream", StreamSubject(codec, s), StreamJson(s)) else now == was
  }

  ghost predicate StreamAttempted(codec: Codec, was: seq<Json>, now: seq<Json>, c: Content) {
    || now == was
    || StreamOutcome(codec, was, now, c, None)
    || (AnswerIsStreamConflict(codec, was, c) && OnlyConflicts(was, now) && |now| == |was| + 1)
  }

  predicate AnswerIsStreamConflict(codec: Codec, events: seq<Json>, c: Content) {
    var streams := Bodies(events, "stream", StreamSubject(codec, c.slot.stream));
    streams != [] && streams != [Canon(StreamJson(c.slot.stream))]
  }

  /**
   * A publication and then its certificate, whose verdict is the timing of exactly these two
   * samples and whose class is decided on the journal as it was.
   */
  ghost predicate Issued(
      codec: Codec, admitted: bool, was: seq<Json>, now: seq<Json>, c: Content, attempt: string,
      before: ClockSample, after: ClockSample, receipt: Json)
  {
    var subject, timing := SlotSha(codec, c.slot), Timeliness(before, after, c.slot);
    && was <= now && |now| == |was| + 2
    && receipt == ReceiptJson(codec, c, timing, EvidenceClass(admitted, was, c, timing), after)
    && Bodies(now, "publication", subject) == [Canon(PublicationJson(codec, c, attempt))]
    && Bodies(now, "receipt", subject) == [Canon(receipt)]
  }

  /** A first publication, with the stream's manifest put in front when it was not there. */
  ghost predicate FirstIssued(
      codec: Codec, admitted: bool, was: seq<Json>, now: seq<Json>, c: Content, attempt: string,
      before: ClockSample, after: ClockSample, receipt: Json)
  {
    var subject, timing, stream := SlotSha(codec, c.slot), Timeliness(before, after, c.slot), c.slot.stream;
    && was <= now
    && |now| == |was| + (if Bodies(was, "stream", StreamSubject(codec, stream)) == [] then 3 else 2)
    && receipt == ReceiptJson(codec, c, timing, EvidenceClass(admitted, was, c, timing), after)
    && Bodies(now, "stream", StreamSubject(codec, stream)) == [Canon(StreamJson(stream))]
    && Bodies(now, "publication", subject) == [Canon(PublicationJson(codec, c, attempt))]
    && Bodies(now, "receipt", subject) == [Canon(receipt)]
  }

  lemma {:induction false} StreamAdmittedNow(codec: Codec, was: seq<Json>, now: seq<Json>, c: Content)
    requires StreamOutcome(codec, was, now, c, None)
    ensures was <= now
    ensures |now| == |was| + if Bodies(was, "stream", StreamSubject(codec, c.slot.stream)) == [] then 1 else 0
    ensures Bodies(now, "stream", StreamSubject(codec, c.slot.stream)) == [Canon(StreamJson(c.slot.stream))]
    ensures Bodies(now, "publication", SlotSha(codec, c.slot)) == Bodies(was, "publication", SlotSha(codec, c.slot))
    ensures Bodies(now, "input", c.inputSha256) == Bodies(was, "input", c.inputSha256)
    ensures Bodies(now, "input-receipt", c.inputSha256) == Bodies(was, "input-receipt", c.inputSha256)
  {
    var subject, body := StreamSubject(codec, c.slot.stream), StreamJson(c.slot.stream);
    if now != was {
      BodiesAppended(was, now, "stream", subject, body, "stream", subject);
      BodiesAppended(was, now, "stream", subject, body, "publication", SlotSha(codec, c.slot));
      BodiesAppended(was, now, "stream", subject, body, "input", c.inputSha256);
      BodiesAppended(was, now, "stream", subject, body, "input-receipt", c.inputSha256);
    }
  }

  lemma {:induction false} StreamThenIssued(
      codec: Codec, admitted: bool, h: seq<Json>, h1: seq<Json>, h2: seq<Json>, c: Content, attempt: string,
      before: ClockSample, after: ClockSample, receipt: Json)
    requires StreamOutcome(codec, h, h1, c, None) && Disciplined(codec, h2)
    requires Issued(codec, admitted, h1, h2, c, attempt, before, after, receipt)
    ensures FirstIssued(codec, admitted, h, h2, c, attempt, before, after, receipt)
  {
    StreamAdmittedNow(codec, h, h1, c);
    SameInputsSameClass(admitted, h, h1, c, Timeliness(before, after, c.slot));
    PublicationStable(codec, h1, h2, "stream", StreamSubject(codec, c.slot.stream));
  }

  lemma {:induction false} NoReceiptYet(codec: Codec, h: seq<Json>, subject: string)
    requires Disciplined(codec, h) && Bodies(h, "publication", subject) == []
    ensures Bodies(h, "receipt", subject) == []
  {
    BodiesNone(h, "receipt", subject);
    BodiesNone(h, "publication", subject);
    if j :| 0 <= j < |h| && Kind(h[j]) == "receipt" && Subject(h[j]) == subject {
      var i := ReceiptFollows(codec, h, j);
    }
  }

  lemma {:induction false} BodiesAppended(
      was: seq<Json>, now: seq<Json>, kind: string, subject: string, body: Json, k: string, s: string)
    requires Appended(was, now, kind, subject, body)
    ensures Bodies(now, k, s)
            == if k == kind && s == subject then Bodies(was, k, s) + [Canon(body)] else Bodies(was, k, s)
  {
    BodiesAppend(was, now[|was|], k, s);
  }

  lemma {:induction false} PublicationAwaits(codec: Codec, h: seq<Json>, h': seq<Json>, c: Content, attempt: string)
    requires ValidContent(c)
    requires Appended(h, h', "publication", SlotSha(codec, c.slot), PublicationJson(codec, c, attempt))
    requires Bodies(h, "publication", SlotSha(codec, c.slot)) == [] == Bodies(h, "receipt", SlotSha(codec, c.slot))
    ensures Bodies(h', "publication", SlotSha(codec, c.slot)) == [Canon(PublicationJson(codec, c, attempt))]
    ensures AwaitsReceipt(codec, h', c)
  {
    var subject, body := SlotSha(codec, c.slot), PublicationJson(codec, c, attempt);
    BodiesAppended(h, h', "publication", subject, body, "publication", subject);
    BodiesAppended(h, h', "publication", subject, body, "receipt", subject);
    PublicationReads(codec, c, attempt);
  }

  lemma {:induction false} SameInputsSameClass(admitted: bool, a: seq<Json>, b: seq<Json>, c: Content, timing: string)
    requires Bodies(a, "input", c.inputSha256) == Bodies(b, "input", c.inputSha256)
    requires Bodies(a, "input-receipt", c.inputSha256) == Bodies(b, "input-receipt", c.inputSha256)
    ensures EvidenceClass(admitted, a, c, timing) == EvidenceClass(admitted, b, c, timing)
  {
  }

  lemma {:induction false} NowIssued(
      codec: Codec, admitted: bool, h: seq<Json>, h1: seq<Json>, h2: seq<Json>, c: Content, attempt: string,
      before: ClockSample, after: ClockSample, receipt: Json)
    requires Appended(h, h1, "publication", SlotSha(codec, c.slot), PublicationJson(codec, c, attempt))
    requires Bodies(h1, "publication", SlotSha(codec, c.slot)) == [Canon(PublicationJson(codec, c, attempt))]
    requires AwaitsReceipt(codec, h1, c)
    requires Appended(h1, h2, "receipt", SlotSha(codec, c.slot), receipt)
    requires var timing := Timeliness(before, after, c.slot);
             receipt == ReceiptJson(codec, c, timing, EvidenceClass(admitted, h1, c, timing), after)
    ensures Issued(codec, admitted, h, h2, c, attempt, before, after, receipt)
  {
    var subject, body := SlotSha(codec, c.slot), PublicationJson(codec, c, attempt);
    BodiesAppended(h1, h2, "receipt", subject, receipt, "publication", subject);
    BodiesAppended(h1, h2, "receipt", subject, receipt, "receipt", subject);
    BodiesAppended(h, h1, "publication", subject, body, "input", c.inputSha256);
    BodiesAppended(h, h1, "publication", subject, body, "input-receipt", c.inputSha256);
    SameInputsSameClass(admitted, h, h1, c, Timeliness(before, after, c.slot));
  }

  predicate HasConflict(events: seq<Json>, conflict: Json) {
    exists e | e in events :: Kind(e) == "conflict" && Body(e) == Canon(conflict)
  }

  // ----- room in the journal, the only thing that can stop a sound request

  predicate CanAppend(codec: Codec, rows: seq<Row>, kind: string, subject: string, body: Json) {
    Appendable(codec, Events(codec, rows), TotalBytes(rows), kind, subject, body)
  }

  function Grown(codec: Codec, rows: seq<Row>, kind: string, subject: string, body: Json): seq<Row> {
    rows + [NewRow(codec, Events(codec, rows), kind, subject, body)]
  }

  /** Some publication's recovery certificate is refused. */
  ghost predicate NoRoomToRecover(codec: Codec, admitted: bool, rows: seq<Row>) {
    exists i: nat, observation: ClockSample :: NoRoomFor(codec, admitted, rows, i, observation)
  }

  predicate NoRoomFor(codec: Codec, admitted: bool, rows: seq<Row>, i: nat, observation: ClockSample) {
    var h := Events(codec, rows);
    && i < |h| && Kind(h[i]) == "publication" && Published(h[i]).Some?
    && !RoomForReceipt(codec, admitted, rows, Published(h[i]).value, "recovery-unknown", observation)
  }

  lemma {:induction false} NoRoomHere(codec: Codec, admitted: bool, rows: seq<Row>, i: nat, observation: ClockSample)
    requires i < |rows|
    requires var e := Events(codec, rows)[i];
             Kind(e) == "publication" && Published(e).Some? &&
             !RoomForReceipt(codec, admitted, rows, Published(e).value, "recovery-unknown", observation)
    ensures NoRoomToRecover(codec, admitted, rows)
  {
    hide RoomForReceipt, Published, Kind;
    assert NoRoomFor(codec, admitted, rows, i, observation);
  }

  predicate RoomForReceipt(
      codec: Codec, admitted: bool, rows: seq<Row>, c: Content, timing: string, observation: ClockSample)
  {
    CanAppend(
      codec, rows, "receipt", SlotSha(codec, c.slot),
      ReceiptJson(codec, c, timing, EvidenceClass(admitted, Events(codec, rows), c, timing), observation))
  }

  function ConflictOf(codec: Codec, events: seq<Json>, c: Content, attempt: string): Json
    requires Bodies(events, "publication", SlotSha(codec, c.slot)) != []
  {
    var accepted := Get(Bodies(events, "publication", SlotSha(codec, c.slot))[0], "content_sha256");
    ConflictJson(accepted.GetOr(Null), ContentSha(codec, c), attempt)
  }

  /** A replay needs the one certificate; a conflict needs its record, or room for it. */
  predicate RoomToResubmit(codec: Codec, rows: seq<Row>, c: Content, attempt: string)
    requires Bodies(Events(codec, rows), "publication", SlotSha(codec, c.slot)) != []
  {
    var h, subject := Events(codec, rows), SlotSha(codec, c.slot);
    if AnswerTo(codec, h, c) == Replay then |Bodies(h, "receipt", subject)| == 1
    else
      var conflict := ConflictOf(codec, h, c, attempt);
      HasConflict(h, conflict) || CanAppend(codec, rows, "conflict", subject, conflict)
  }

  predicate RoomForStream(codec: Codec, rows: seq<Row>, c: Content) {
    var s := c.slot.stream;
    var streams := Bodies(Events(codec, rows), "stream", StreamSubject(codec, s));
    if streams == [] then CanAppend(codec, rows, "stream", StreamSubject(codec, s), StreamJson(s))
    else if streams == [Canon(StreamJson(s))] then true
    else
      CanAppend(codec, rows, "conflict", SlotSha(codec, c.slot),
                StreamConflictJson(Identity(codec, streams[0]), Identity(codec, StreamJson(s))))
  }

  function RowsWithStream(codec: Codec, rows: seq<Row>, c: Content): seq<Row> {
    var s := c.slot.stream;
    if Bodies(Events(codec, rows), "stream", StreamSubject(codec, s)) == [] then
      Grown(codec, rows, "stream", StreamSubject(codec, s), StreamJson(s))
    else rows
  }

  /** Both clock samples, and room for the publication and then for its certificate. */
  predicate RoomToIssue(
      codec: Codec, admitted: bool, rows: seq<Row>, c: Content, attempt: string,
      before: Option<ClockSample>, after: Option<ClockSample>)
  {
    var subject, publication := SlotSha(codec, c.slot), PublicationJson(codec, c, attempt);
    && before.Some? && after.Some?
    && CanAppend(codec, rows, "publication", subject, publication)
    && RoomForReceipt(
         codec, admitted, Grown(codec, rows, "publication", subject, publication), c,
         Timeliness(before.value, after.value, c.slot), after.value)
  }

  predicate RoomToPublish(
      codec: Codec, admitted: bool, rows: seq<Row>, c: Content, attempt: string,
      before: Option<ClockSample>, after: Option<ClockSample>)
  {
    match AnswerTo(codec, Events(codec, rows), c)
    case Replay => RoomToResubmit(codec, rows, c, attempt)
    case ContentConflict => RoomToResubmit(codec, rows, c, attempt)
    case StreamConflict => RoomForStream(codec, rows, c)
    case Fresh =>
      && RoomForStream(codec, rows, c)
      && RoomToIssue(codec, admitted, RowsWithStream(codec, rows, c), c, attempt, before, after)
  }

  /** One record of each differing content, however often it is sent again. */
  ghost predicate ConflictAnswered(
      codec: Codec, was: seq<Json>, now: seq<Json>, c: Content, attempt: string, r: Option<Json>)
    requires Bodies(was, "publication", SlotSha(codec, c.slot)) != []
  {
    var conflict := ConflictOf(codec, was, c, attempt);
    && OnlyConflicts(was, now)
    && |now| <= |was| + 1
    && (HasConflict(was, conflict) ==> now == was)
    && (r.Some? ==> r.value == conflict && HasConflict(now, conflict))
  }

  lemma {:induction false} CertifiedContent(codec: Codec, e: Json)
    requires Certified(codec, e)
    ensures Published(e).Some? && ValidContent(Published(e).value)
    ensures SlotSha(codec, Published(e).value.slot) == Subject(e)
    ensures GetText(Body(e), "content_sha256") == Some(ContentSha(codec, Published(e).value))
  {
  }

  lemma {:induction false} UncertifiedAwaits(codec: Codec, h: seq<Json>, i: nat)
    requires Disciplined(codec, h) && i < |h| && Kind(h[i]) == "publication" && Certified(codec, h[i])
    requires Bodies(h, "receipt", Subject(h[i])) == []
    ensures Published(h[i]).Some? && ValidContent(Published(h[i]).value)
    ensures SlotSha(codec, Published(h[i]).value.slot) == Subject(h[i])
    ensures AwaitsReceipt(codec, h, Published(h[i]).value)
  {
    hide Certified, Disciplined, Published, ValidContent, SlotSha, ContentSha;
    CertifiedContent(codec, h[i]);
    BodiesAt(h, i);
    AtMostOnce(codec, h, "publication", Subject(h[i]));
    assert Bodies(h, "publication", Subject(h[i])) == [Body(h[i])];
  }

  // ----- what recovery has done after i events of the journal it opened

  /** Recovery only adds certificates that claim nothing. */
  ghost predicate Recovered(was: seq<Json>, now: seq<Json>) {
    was <= now && forall i | |was| <= i < |now| :: IsRecovery(now[i])
  }

  predicate HasReceipt(h: seq<Json>, e: Json) {
    Kind(e) == "publication" ==> |Bodies(h, "receipt", Subject(e))| == 1
  }

  predicate Foreseen(h: seq<Json>, receipts: set<string>, e: Json) {
    && (Kind(e) == "publication" && Subject(e) in receipts ==> |Bodies(h, "receipt", Subject(e))| == 1)
    && (Kind(e) == "publication" && Subject(e) !in receipts ==> Bodies(h, "receipt", Subject(e)) == [])
  }

  ghost predicate Recovering(snapshot: seq<Json>, h: seq<Json>, receipts: set<string>, i: nat)
    requires i <= |snapshot|
  {
    && Recovered(snapshot, h)
    && (forall j | 0 <= j < i :: HasReceipt(h, snapshot[j]))
    && (forall j | i <= j < |snapshot| :: Foreseen(h, receipts, snapshot[j]))
  }

  lemma {:induction false} RecoveryStarts(codec: Codec, h: seq<Json>, receipts: set<string>)
    requires Disciplined(codec, h)
    requires receipts == set e | e in h && Kind(e) == "receipt" :: Subject(e)
    ensures Recovering(h, h, receipts, 0)
  {
    forall j | 0 <= j < |h| ensures Foreseen(h, receipts, h[j]) {
      var s := Subject(h[j]);
      BodiesNone(h, "receipt", s);
      AtMostOnce(codec, h, "receipt", s);
    }
  }

  lemma {:induction false} RecoverySkips(
      codec: Codec, snapshot: seq<Json>, h: seq<Json>, receipts: set<string>, i: nat)
    requires i < |snapshot| && Recovering(snapshot, h, receipts, i)
    ensures Foreseen(h, receipts, snapshot[i])
    ensures !(Kind(snapshot[i]) == "publication" && Subject(snapshot[i]) !in receipts) ==>
              Recovering(snapshot, h, receipts, i + 1)
  {
  }

  lemma {:induction false} RecoveryAdds(
      codec: Codec, snapshot: seq<Json>, h: seq<Json>, h': seq<Json>, receipts: set<string>, i: nat, body: Json)
    requires i < |snapshot| && Recovering(snapshot, h, receipts, i) && Disciplined(codec, h)
    requires Kind(snapshot[i]) == "publication" && Subject(snapshot[i]) !in receipts
    requires Appended(h, h', "receipt", Subject(snapshot[i]), body) && IsRecovery(h'[|h|])
    ensures Recovering(snapshot, h', receipts, i + 1)
  {
    var e := h'[|h|];
    forall j | 0 <= j < |snapshot|
      ensures j <= i ==> HasReceipt(h', snapshot[j])
      ensures j > i ==> Foreseen(h', receipts, snapshot[j])
    {
      BodiesAppend(h, e, "receipt", Subject(snapshot[j]));
      assert h[j] == snapshot[j] && h[i] == snapshot[i];
      if Kind(snapshot[j]) == "publication" && j != i { OnePublication(codec, h, i, j); }
      if j < i { assert HasReceipt(h, snapshot[j]); } else { assert Foreseen(h, receipts, snapshot[j]); }
    }
  }

  lemma {:induction false} RecoveryCertifies(
      codec: Codec, admitted: bool, snapshot: seq<Json>, h: seq<Json>, h': seq<Json>, receipts: set<string>, i: nat,
      c: Content, observation: ClockSample)
    requires i < |snapshot| && Recovering(snapshot, h, receipts, i) && Disciplined(codec, h) && ValidContent(c)
    requires Kind(snapshot[i]) == "publication" && Subject(snapshot[i]) !in receipts
    requires var evidence := EvidenceClass(admitted, h, c, "recovery-unknown");
             Appended(
               h, h', "receipt", Subject(snapshot[i]),
               ReceiptJson(codec, c, "recovery-unknown", evidence, observation))
    ensures Recovering(snapshot, h', receipts, i + 1)
  {
    hide Recovering, Disciplined, ReceiptJson, EvidenceClass, ValidContent;
    var evidence := EvidenceClass(admitted, h, c, "recovery-unknown");
    EvidenceIsHonest(admitted, h, c, "recovery-unknown");
    ReceiptReads(codec, c, "recovery-unknown", evidence, observation);
    RecoveryAdds(
      codec, snapshot, h, h', receipts, i, ReceiptJson(codec, c, "recovery-unknown", evidence, observation));
  }

  lemma {:induction false} RecoveryEnds(snapshot: seq<Json>, h: seq<Json>, receipts: set<string>)
    requires Recovering(snapshot, h, receipts, |snapshot|)
    ensures AllCertified(h)
  {
    forall i | 0 <= i < |snapshot| && Kind(h[i]) == "publication"
      ensures |Bodies(h, "receipt", Subject(h[i]))| == 1
    {
      assert HasReceipt(h, snapshot[i]);
    }
  }

  /** The slot has its publication, of this very content, and no certificate yet. */
  predicate AwaitsReceipt(codec: Codec, events: seq<Json>, c: Content) {
    var publications := Bodies(events, "publication", SlotSha(codec, c.slot));
    && |publications| == 1
    && GetText(publications[0], "content_sha256") == Some(ContentSha(codec, c))
    && Bodies(events, "receipt", SlotSha(codec, c.slot)) == []
  }

  lemma {:induction false} AppendedGrows(was: seq<Json>, now: seq<Json>, kind: string, subject: string, body: Json)
    requires now == was || Appended(was, now, kind, subject, body)
    ensures was <= now && |now| <= |was| + 1
    ensures kind in PROTOCOL_KINDS ==> OnlyProtocol(was, now)
  {
    hide Canonical.Valid, Canon, Subject, Body;
  }

  const PROTOCOL_KINDS: set<string> := {"publication", "receipt", "conflict", "stream"}

  /** Only events of the publication protocol have been added. */
  ghost predicate OnlyProtocol(was: seq<Json>, now: seq<Json>) {
    was <= now && forall i | |was| <= i < |now| :: Kind(now[i]) in PROTOCOL_KINDS
  }

  lemma {:induction false} NothingChanges(h: seq<Json>)
    ensures OnlyProtocol(h, h) && OnlyConflicts(h, h) && Undisturbed(h, h)
  {
  }

  /** One event of this kind, subject and body, and nothing else, has been added. */
  ghost predicate Appended(was: seq<Json>, now: seq<Json>, kind: string, subject: string, body: Json) {
    && |now| == |was| + 1
    && now == was + [now[|was|]]
    && Kind(now[|was|]) == kind
    && Subject(now[|was|]) == subject
    && Body(now[|was|]) == Canon(body)
    && Canonical.Valid(body)
  }
}
