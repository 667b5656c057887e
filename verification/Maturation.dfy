/** The maturation scheduler: a rotation of the publications under a fixed budget of rows. */
module Maturation {
  import opened Wrappers
  import opened Domain
  import opened LedgerContracts
  import ClockPolicy

  const ROW_BUDGET := 64

  datatype Published = Published(subject: Digest, slot: Slot)

  function Hours(slot: Slot): int { slot.horizonSeconds / 3600 }

  lemma {:induction false} WholeHours(slot: Slot)
    requires slot.horizonSeconds in HORIZONS
    ensures Hours(slot) >= 1 && slot.EndpointNs() == slot.originNs + Hours(slot) * HOUR_NS
  {
  }

  // ----- rotation

  predicate DistinctSubjects(publications: seq<Published>) {
    forall i, j | 0 <= i < j < |publications| :: publications[i].subject != publications[j].subject
  }

  /** The position of a subject; the number of publications if it is not among them. */
  function PositionOf(publications: seq<Published>, subject: Digest): (i: nat)
    ensures i <= |publications|
    ensures i < |publications| ==> publications[i].subject == subject
    ensures i == |publications| ==> forall j | 0 <= j < |publications| :: publications[j].subject != subject
  {
    if publications == [] then 0
    else if publications[0].subject == subject then 0
    else
      var i := PositionOf(publications[1..], subject);
      assert forall j | 0 <= j < |publications[1..]| :: publications[1..][j] == publications[j + 1];
      1 + i
  }

  /** Just after the cursor, or at the beginning if there is none here. */
  function StartAt(publications: seq<Published>, cursor: Option<Digest>): (start: nat)
    requires publications != []
    ensures start < |publications|
  {
    if cursor.None? then 0
    else
      var i := PositionOf(publications, cursor.value);
      if i == |publications| then 0 else (i + 1) % |publications|
  }

  function MaturationOrder(publications: seq<Published>, cursor: Option<Digest>): (ordered: seq<Published>)
    requires publications != []
    ensures |ordered| == |publications|
  {
    var start := StartAt(publications, cursor);
    publications[start..] + publications[..start]
  }

  lemma {:induction false} RemainderOf(a: int, q: int, r: int, m: int)
    requires m > 0 && a == q * m + r && 0 <= r < m
    ensures a % m == r && a / m == q
  {
    ClockPolicy.TimesMonotone(q, a / m, m);
    ClockPolicy.TimesMonotone(a / m, q, m);
  }

  function Wrapped(a: nat, n: nat): nat { if a < n then a else if a < 2 * n then a - n else 0 }

  lemma {:induction false} WrapsOnce(a: nat, n: nat)
    requires 0 < n && a < 2 * n
    ensures a % n == Wrapped(a, n)
  {
    if a < n { RemainderOf(a, 0, a, n); } else { RemainderOf(a, 1, a - n, n); }
  }

  lemma {:induction false} OrderRotates(publications: seq<Published>, cursor: Option<Digest>, k: nat)
    requires publications != [] && k < |publications|
    ensures MaturationOrder(publications, cursor)[k]
            == publications[(StartAt(publications, cursor) + k) % |publications|]
  {
    hide StartAt;
    var start, n := StartAt(publications, cursor), |publications|;
    WrapsOnce(start + k, n);
    assert (publications[start..] + publications[..start])[k]
           == if k < n - start then publications[start + k] else publications[start + k - n];
  }

  /** Each visit is to the place after the one before it. */
  predicate Cyclic(visits: seq<nat>, n: nat) {
    && (forall i | 0 <= i < |visits| :: visits[i] < n)
    && (forall i | 0 <= i < |visits| - 1 :: FollowsOn(visits[i], visits[i + 1], n))
  }

  predicate FollowsOn(a: nat, b: nat, n: nat) { b == if a + 1 == n then 0 else a + 1 }

  lemma {:induction false} VisitAfter(visits: seq<nat>, n: nat, k: nat, d: nat)
    requires Cyclic(visits, n) && k + d < |visits| && d < n
    ensures visits[k + d] == if visits[k] + d < n then visits[k] + d else visits[k] + d - n
  {
    if d > 0 {
      VisitAfter(visits, n, k, d - 1);
      assert FollowsOn(visits[k + d - 1], visits[k + d - 1 + 1], n);
    }
  }

  /** Main result: any n consecutive visits touch each of n publications exactly once. */
  lemma {:induction false} EachVisitedOnce(visits: seq<nat>, n: nat, k: nat, place: nat) returns (d: nat)
    requires Cyclic(visits, n) && k + n <= |visits| && place < n
    ensures d < n && visits[k + d] == place
    ensures forall i | k <= i < k + n && i != k + d :: visits[i] != place
  {
    d := if place >= visits[k] then place - visits[k] else place + n - visits[k];
    VisitAfter(visits, n, k, d);
    forall i | k <= i < k + n && i != k + d ensures visits[i] != place { VisitAfter(visits, n, k, i - k); }
  }

  // ----- hourly endpoints of one slot

  /** The endpoint fetched as the k-th row of a slot, counting through repeated passes. */
  function EndpointAt(slot: Slot, k: nat): int
    requires Hours(slot) >= 1
  {
    slot.originNs + (1 + k % Hours(slot)) * HOUR_NS
  }

  /** Every row of the log is the one due at its place: none skipped, none repeated in a pass. */
  predicate InStep(slot: Slot, log: seq<int>)
    requires Hours(slot) >= 1
  {
    forall k | 0 <= k < |log| :: log[k] == EndpointAt(slot, k)
  }

  lemma {:induction false} NextInPass(k: nat, m: nat)
    requires m >= 1
    ensures (k + 1) % m == if k % m + 1 == m then 0 else k % m + 1
  {
    var q, r := k / m, k % m;
    if r + 1 == m {
      assert (q + 1) * m == q * m + m;
      RemainderOf(k + 1, q + 1, 0, m);
    } else {
      RemainderOf(k + 1, q, r + 1, m);
    }
  }

  /** Where the scan resumes after a number of recorded rows. */
  lemma {:induction false} ResumesInStep(slot: Slot, k: nat)
    requires slot.horizonSeconds in HORIZONS
    ensures EndpointAt(slot, k) <= slot.EndpointNs()
    ensures EndpointAt(slot, k + 1)
            == if EndpointAt(slot, k) + HOUR_NS <= slot.EndpointNs() then EndpointAt(slot, k) + HOUR_NS
               else slot.originNs + HOUR_NS
  {
    WholeHours(slot);
    NextInPass(k, Hours(slot));
  }

  // ----- the scheduler

  function Lookup(progress: map<Digest, int>, subject: Digest): Option<int> {
    if subject in progress then Some(progress[subject]) else None
  }

  /** The recorded position of a slot is the one its log of rows calls for. */
  predicate Positioned(p: Published, position: Option<int>, log: seq<int>)
    requires Hours(p.slot) >= 1
  {
    && InStep(p.slot, log)
    && (if position.Some? then position.value == EndpointAt(p.slot, |log|) else log == [])
  }

  predicate WellFormed(publications: seq<Published>) {
    && publications != [] && DistinctSubjects(publications)
    && forall i | 0 <= i < |publications| :: publications[i].slot.horizonSeconds in HORIZONS
  }

  /** The publication visited k-th in a call that starts at some place. */
  function PlaceOf(start: nat, k: nat, n: nat): (place: nat)
    requires start < n && k < n
    ensures place < n
  {
    Wrapped(start + k, n)
  }

  /** How many visits into the call a place comes up. */
  function Turn(start: nat, place: nat, n: nat): nat
    requires start < n && place < n
  {
    if place >= start then place - start else place + n - start
  }

  lemma {:induction false} FirstEndpoint(slot: Slot)
    requires slot.horizonSeconds in HORIZONS
    ensures Hours(slot) >= 1 && EndpointAt(slot, 0) == slot.originNs + HOUR_NS
  {
    WholeHours(slot);
    RemainderOf(0, 0, 0, Hours(slot));
  }

  lemma {:induction false} VisitNext(visits: seq<nat>, n: nat, place: nat)
    requires Cyclic(visits, n) && place < n
    requires visits != [] ==> FollowsOn(visits[|visits| - 1], place, n)
    ensures Cyclic(visits + [place], n)
  {
    var more := visits + [place];
    forall i | 0 <= i < |more| - 1 ensures FollowsOn(more[i], more[i + 1], n) {
      assert i < |visits| - 1 ==> FollowsOn(visits[i], visits[i + 1], n);
    }
  }

  // ----- rows in all

  /** How many rows the logs hold between them. */
  ghost function RowsLogged(logs: seq<seq<int>>): nat {
    if logs == [] then 0 else RowsLogged(logs[..|logs| - 1]) + |logs[|logs| - 1]|
  }

  lemma {:induction false} OneLogGrows(before: seq<seq<int>>, after: seq<seq<int>>, i: nat)
    requires i < |before| == |after| && forall j | 0 <= j < |before| && j != i :: after[j] == before[j]
    ensures RowsLogged(after) - RowsLogged(before) == |after[i]| - |before[i]|
  {
    var n := |before| - 1;
    if i < n {
      OneLogGrows(before[..n], after[..n], i);
    } else {
      assert after[..n] == before[..n];
    }
  }

  // ----- positions found in the journal

  /** Which row of a pass is due at a position. */
  function Place(slot: Slot, position: int): int { (position - slot.originNs) / HOUR_NS - 1 }

  /** A position is one of the slot's hourly endpoints. */
  predicate OnTheHour(slot: Slot, position: int) {
    && 0 <= Place(slot, position) < Hours(slot)
    && position == slot.originNs + (1 + Place(slot, position)) * HOUR_NS
  }

  /** The journal's position of every slot, if it has one, is an hourly endpoint of it. */
  predicate Resumable(publications: seq<Published>, progress: map<Digest, int>) {
    forall i | 0 <= i < |publications| && publications[i].subject in progress ::
      OnTheHour(publications[i].slot, progress[publications[i].subject])
  }

  /** The rows of the current pass that a position says were fetched. */
  function RowsBefore(slot: Slot, position: Option<int>): (log: seq<int>)
    requires slot.horizonSeconds in HORIZONS
    requires position.Some? ==> OnTheHour(slot, position.value)
    ensures Hours(slot) >= 1
  {
    WholeHours(slot);
    if position.None? then []
    else seq(Place(slot, position.value), k requires 0 <= k < Place(slot, position.value) => EndpointAt(slot, k))
  }

  lemma {:induction false} ResumesWhereItWas(p: Published, position: Option<int>)
    requires p.slot.horizonSeconds in HORIZONS
    requires position.Some? ==> OnTheHour(p.slot, position.value)
    ensures Hours(p.slot) >= 1 && Positioned(p, position, RowsBefore(p.slot, position))
  {
    WholeHours(p.slot);
    if position.Some? {
      var k := Place(p.slot, position.value);
      RemainderOf(k, 0, k, Hours(p.slot));
    }
  }

  lemma {:induction false} PositionOnTheHour(p: Published, position: int, log: seq<int>)
    requires p.slot.horizonSeconds in HORIZONS && Hours(p.slot) >= 1 && Positioned(p, Some(position), log)
    ensures OnTheHour(p.slot, position)
  {
    var k := |log| % Hours(p.slot);
    RemainderOf((1 + k) * HOUR_NS, 1 + k, 0, HOUR_NS);
  }

  class ForwardSession {
    const publications: seq<Published>

    /** True in an environment where no append fails. */
    const faultless: bool

    var cursor: Option<Digest>
    var progress: map<Digest, int>
    ghost var visits: seq<nat>
    ghost var logs: seq<seq<int>>

    /** Take up a journal's cursor and positions, and the rotation of the visits behind them. */
    constructor (
        publications: seq<Published>, cursor: Option<Digest>, progress: map<Digest, int>, faultless: bool,
        ghost earlier: seq<nat>)
      requires WellFormed(publications) && Resumable(publications, progress) && Cyclic(earlier, |publications|)
      requires earlier != [] ==> cursor == Some(publications[earlier[|earlier| - 1]].subject)
      ensures this.publications == publications && this.cursor == cursor && this.faultless == faultless
      ensures this.progress == progress && visits == earlier && Valid()
    {
      this.publications, this.cursor, this.progress, this.faultless := publications, cursor, progress, faultless;
      visits := earlier;
      logs := seq(|publications|, i requires 0 <= i < |publications| =>
        RowsBefore(publications[i].slot, Lookup(progress, publications[i].subject)));
      new;
      forall i | 0 <= i < |publications| ensures Tracked(i) {
        ResumesWhereItWas(publications[i], Lookup(progress, publications[i].subject));
      }
    }

    /** Whatever this session leaves, another can take up, and go on with the same rotation. */
    lemma {:induction false} StaysResumable()
      requires Valid()
      ensures Resumable(publications, progress) && Cyclic(visits, |publications|)
      ensures visits != [] ==> cursor == Some(publications[visits[|visits| - 1]].subject)
    {
      hide EndpointAt, InStep;
      forall i | 0 <= i < |publications| && publications[i].subject in progress
        ensures OnTheHour(publications[i].slot, progress[publications[i].subject])
      {
        assert Tracked(i);
        PositionOnTheHour(publications[i], progress[publications[i].subject], logs[i]);
      }
    }

    ghost predicate Tracked(i: nat)
      reads this`progress, this`logs
      requires i < |publications| == |logs|
    {
      Hours(publications[i].slot) >= 1 &&
      Positioned(publications[i], Lookup(progress, publications[i].subject), logs[i])
    }

    /** Visits go round; every slot's rows are in step. */
    ghost predicate Valid()
      reads this
    {
      && WellFormed(publications) && |logs| == |publications|
      && Cyclic(visits, |publications|)
      && (visits != [] ==> cursor == Some(publications[visits[|visits| - 1]].subject))
      && forall i | 0 <= i < |publications| :: Tracked(i)
    }

    /** Fetch row after row while the budget and the source last. */
    method ScanRows(slot: Slot, from: int, budget: nat, supply: nat)
      returns (endpoint: int, fetched: nat, unavailable: bool, ghost rows: seq<int>)
      requires slot.horizonSeconds in HORIZONS && from <= slot.EndpointNs()
      ensures fetched == |rows| <= budget && endpoint == from + fetched * HOUR_NS
      ensures forall i | 0 <= i < |rows| :: rows[i] == from + i * HOUR_NS && rows[i] <= slot.EndpointNs()
      ensures !unavailable ==> endpoint > slot.EndpointNs() || fetched == budget
    {
      endpoint, fetched, rows := from, 0, [];
      while endpoint <= slot.EndpointNs() && fetched < budget
        invariant fetched == |rows| <= budget && endpoint == from + fetched * HOUR_NS
        invariant forall i | 0 <= i < |rows| :: rows[i] == from + i * HOUR_NS && rows[i] <= slot.EndpointNs()
      {
        if fetched >= supply { return endpoint, fetched, true, rows; }
        rows := rows + [endpoint];
        fetched := fetched + 1;
        endpoint := endpoint + HOUR_NS;
      }
      unavailable := false;
    }

    /** Scan one slot from where its history left it, and record where it got to. */
    method MatureOne(i: nat, history: map<Digest, int>, now: int, budget: nat, supply: nat)
      returns (ok: bool, count: nat)
      requires Valid() && i < |publications|
      requires Lookup(history, publications[i].subject) == Lookup(progress, publications[i].subject)
      modifies this`progress, this`logs
      ensures Valid() && count <= budget
      ensures forall j | 0 <= j < |publications| && j != i ::
                && Lookup(progress, publications[j].subject) == Lookup(old(progress), publications[j].subject)
                && logs[j] == old(logs[j])
      ensures old(logs[i]) <= logs[i] && |logs[i]| <= |old(logs[i])| + count
      ensures ok ==> |logs[i]| == |old(logs[i])| + count
      ensures faultless ==> ok
    {
      hide InStep, EndpointAt, Cyclic;
      var slot, subject := publications[i].slot, publications[i].subject;
      count := 0;
      if slot.EndpointNs() >= FINAL_START_NS || now < slot.EndpointNs() + ISSUE_DELAY_NS {
        ok := *;
        ok := ok || faultless;
        return;
      }
      assert Tracked(i);
      FirstEndpoint(slot);
      var from := if subject in history then history[subject] else slot.originNs + HOUR_NS;
      ResumesInStep(slot, |logs[i]|);
      var endpoint, fetched, unavailable, rows := ScanRows(slot, from, budget, supply);
      count := fetched;
      ok := *;
      ok := ok || faultless;
      if !ok { return; }
      RowsInStep(publications[i], logs[i], from, rows);
      var next := if endpoint <= slot.EndpointNs() then endpoint else slot.originNs + HOUR_NS;
      progress := progress[subject := next];
      logs := logs[i := logs[i] + rows];
      forall j | 0 <= j < |publications| ensures Tracked(j) {
        WholeHours(publications[j].slot);
        if j != i {
          assert old(Tracked(j)) && publications[j].subject != subject;
        }
      }
    }

    /** One visit: maturation of a slot, and the cursor moved on to it. */
    method Visit(i: nat, history: map<Digest, int>, now: int, budget: nat, supply: nat)
      returns (ok: bool, count: nat)
      requires Valid() && i < |publications|
      requires visits != [] ==> FollowsOn(visits[|visits| - 1], i, |publications|)
      requires Lookup(history, publications[i].subject) == Lookup(progress, publications[i].subject)
      modifies this
      ensures Valid() && count <= budget
      ensures forall j | 0 <= j < |publications| ::
                && old(logs[j]) <= logs[j]
                && (j != i ==>
                      Lookup(progress, publications[j].subject) == Lookup(old(progress), publications[j].subject))
      ensures RowsLogged(logs) <= RowsLogged(old(logs)) + count
      ensures ok ==> RowsLogged(logs) == RowsLogged(old(logs)) + count
      ensures visits == if ok then old(visits) + [i] else old(visits)
      ensures cursor == if ok then Some(publications[i].subject) else old(cursor)
      ensures faultless ==> ok
    {
      hide Positioned, Cyclic, Hours, FollowsOn, DistinctSubjects;
      ghost var was := logs;
      ok, count := MatureOne(i, history, now, budget, supply);
      OneLogGrows(was, logs, i);
      assert forall j | 0 <= j < |publications| :: was[j] <= logs[j];
      if !ok { return; }
      ok := *;
      ok := ok || faultless;
      if !ok { return; }
      VisitNext(visits, |publications|, i);
      cursor := Some(publications[i].subject);
      visits := visits + [i];
    }

    /**
     * One maturation pass: at most `limit` visits, and no more rows than the budget in all.
     * `clock` and `supply` are what each visit finds: the time, and how many rows can be had.
     */
    method Mature(limit: nat, clock: nat -> int, supply: nat -> nat) returns (fetched: nat, completed: nat)
      requires Valid() && 1 <= limit <= 16
      modifies this
      ensures Valid() && fetched <= ROW_BUDGET
      ensures RowsLogged(logs) <= RowsLogged(old(logs)) + fetched
      ensures completed == limit || completed == |publications| ==> RowsLogged(logs) == RowsLogged(old(logs)) + fetched
      ensures completed <= limit && completed <= |publications|
      ensures faultless ==> completed == limit || completed == |publications|
      ensures old(visits) <= visits && |visits| == |old(visits)| + completed
      ensures forall i | 0 <= i < |publications| :: old(logs[i]) <= logs[i]
    {
      hide Positioned, InStep, MaturationOrder, StartAt, Cyclic, Hours, PlaceOf, Turn, FollowsOn, DistinctSubjects;
      hide RowsLogged, EndpointAt, Lookup;
      var n := |publications|;
      ghost var start := StartAt(publications, cursor);
      var ordered := MaturationOrder(publications, cursor);
      var history := progress;
      fetched, completed := 0, 0;
      while completed < limit && completed < n
        invariant Valid() && fetched <= ROW_BUDGET && completed <= limit && completed <= n
        invariant RowsLogged(logs) == RowsLogged(old(logs)) + fetched
        invariant old(visits) <= visits && |visits| == |old(visits)| + completed
        invariant cursor
                  == if completed == 0 then old(cursor)
                     else Some(publications[PlaceOf(start, completed - 1, n)].subject)
        invariant forall j | 0 <= j < n :: old(logs[j]) <= logs[j]
        invariant forall j | 0 <= j < n && Turn(start, j, n) >= completed ::
                    Lookup(progress, publications[j].subject) == Lookup(history, publications[j].subject)
      {
        NextPlace(publications, visits, cursor, old(cursor), completed);
        var i := PositionOf(publications, ordered[completed].subject);
        TurnOf(start, completed, n);
        var ok, count := Visit(i, history, clock(completed), ROW_BUDGET - fetched, supply(completed));
        fetched := fetched + count;
        if !ok { return; }
        completed := completed + 1;
      }
    }
  }

  lemma {:induction false} TurnOf(start: nat, k: nat, n: nat)
    requires start < n && k < n
    ensures Turn(start, PlaceOf(start, k, n), n) == k && PlaceOf(start, k, n) < n
    ensures forall j | 0 <= j < n && Turn(start, j, n) >= k + 1 :: j != PlaceOf(start, k, n)
  {
  }

  /** The k-th publication of a call's order is where the rotation goes on from the last visit. */
  lemma {:induction false} NextPlace(
      publications: seq<Published>, visits: seq<nat>, cursor: Option<Digest>, first: Option<Digest>, k: nat)
    requires publications != [] && DistinctSubjects(publications) && k < |publications|
    requires Cyclic(visits, |publications|)
    requires visits != [] ==> cursor == Some(publications[visits[|visits| - 1]].subject)
    requires k == 0 ==> cursor == first
    requires k > 0 ==>
               var last := PlaceOf(StartAt(publications, first), k - 1, |publications|);
               visits != [] && cursor == Some(publications[last].subject)
    ensures var place := PlaceOf(StartAt(publications, first), k, |publications|);
            && PositionOf(publications, MaturationOrder(publications, first)[k].subject) == place
            && (visits != [] ==> FollowsOn(visits[|visits| - 1], place, |publications|))
  {
    hide MaturationOrder;
    var n, start := |publications|, StartAt(publications, first);
    OrderRotates(publications, first, k);
    WrapsOnce(start + k, n);
    if visits != [] {
      var last := visits[|visits| - 1];
      if k == 0 {
        WrapsOnce(last + 1, n);
      } else {
      }
    }
  }

  /** Rows fetched in hourly steps from the right place continue the log in step. */
  lemma {:induction false} RowsInStep(p: Published, log: seq<int>, from: int, rows: seq<int>)
    requires p.slot.horizonSeconds in HORIZONS && Hours(p.slot) >= 1
    requires InStep(p.slot, log) && from == EndpointAt(p.slot, |log|)
    requires forall i | 0 <= i < |rows| :: rows[i] == from + i * HOUR_NS && rows[i] <= p.slot.EndpointNs()
    ensures InStep(p.slot, log + rows)
    ensures var endpoint := from + |rows| * HOUR_NS;
            EndpointAt(p.slot, |log + rows|)
            == if endpoint <= p.slot.EndpointNs() then endpoint else p.slot.originNs + HOUR_NS
  {
    hide EndpointAt;
    if rows == [] {
      assert log + rows == log;
      ResumesInStep(p.slot, |log|);
    } else {
      var n := |rows| - 1;
      RowsInStep(p, log, from, rows[..n]);
      assert log + rows == (log + rows[..n]) + [rows[n]];
      assert rows[n] == EndpointAt(p.slot, |log| + n);
      ResumesInStep(p.slot, |log| + n);
    }
  }
}
