/** Choosing one candle per key from an interleaved stream of publication inputs. */
module Selection {
  import opened Wrappers
  import opened Domain
  import opened Sorting

  datatype Kind = Accepted | Duplicate | OpenRevision | Finalization | Conflict | Rejected

  datatype CandleKey = CandleKey(instrument: InstrumentId, start: int, interval: int)

  datatype Semantics = Semantics(key: CandleKey, finalized: bool, close: string)

  /** A validated input: where it came from, when it was received, what was made of it. */
  datatype Source = Source(
    identity: IngestionId,
    fingerprint: Digest,
    receipt: ClockSample,
    kind: Kind,
    revision: Option<Digest>,
    semantics: Option<Semantics>)

  datatype SelectedCandle = SelectedCandle(selected: Source, evidence: seq<Source>)

  /** The state of one key while its inputs are read in ingestion order. */
  datatype KeyState = KeyState(selected: Source, evidence: seq<Source>, revisions: set<Digest>)

  // ----- one key

  predicate Readable(s: Source) {
    s.kind != Conflict && s.kind != Rejected && s.semantics.Some? && s.revision.Some?
  }

  function Revise(st: KeyState, s: Source): Option<KeyState>
    requires Readable(s)
  {
    var previous := st.selected.semantics;
    if previous.None? || previous.value.finalized || s.revision.value in st.revisions then None
    else if s.kind == OpenRevision && s.semantics.value.finalized then None
    else if s.kind == Finalization && !s.semantics.value.finalized then None
    else if s.kind != OpenRevision && s.kind != Finalization then None
    else Some(KeyState(s, st.evidence + [s], st.revisions + {s.revision.value}))
  }

  /** The next state of a key, or nothing where the source raises. */
  function Advance(st: Option<KeyState>, s: Source): Option<KeyState> {
    if !Readable(s) then None
    else if s.kind == Accepted then
      if st.Some? then None else Some(KeyState(s, [s], {s.revision.value}))
    else if st.None? then None
    else if s.kind == Duplicate then
      if s.revision.value !in st.value.revisions then None
      else Some(st.value.(evidence := st.value.evidence + [s]))
    else Revise(st.value, s)
  }

  datatype Progress = Failed | Running(state: Option<KeyState>)

  /** The revision automaton over one key's inputs. */
  function RunKey(xs: seq<Source>): Progress {
    if xs == [] then Running(None)
    else
      match RunKey(xs[..|xs| - 1])
      case Failed => Failed
      case Running(st) =>
        match Advance(st, xs[|xs| - 1])
        case None => Failed
        case Some(next) => Running(Some(next))
  }

  /** What the automaton accepts, said of the whole history at once. */
  predicate EntryOk(xs: seq<Source>, i: nat)
    requires i < |xs|
  {
    && Readable(xs[i])
    && if xs[i].kind == Accepted then i == 0
       else if xs[i].kind == Duplicate then Repeats(xs, i)
       else
         && i > 0
         && xs[i].semantics.value.finalized == (xs[i].kind == Finalization)
         && forall j | 0 <= j < i && Original(xs[j]) :: Open(xs[j]) && xs[j].revision != xs[i].revision
  }

  predicate Open(s: Source) { s.semantics.Some? && !s.semantics.value.finalized }

  predicate Repeats(xs: seq<Source>, i: nat)
    requires i < |xs|
  {
    exists j | 0 <= j < i :: Original(xs[j]) && xs[j].revision == xs[i].revision
  }

  predicate Original(s: Source) { s.kind != Duplicate }

  predicate WellFormed(xs: seq<Source>) {
    xs != [] && xs[0].kind == Accepted && forall i | 0 <= i < |xs| :: EntryOk(xs, i)
  }

  /** The position of the last input that is not a duplicate. */
  predicate LastOriginal(xs: seq<Source>, k: nat) {
    k < |xs| && Original(xs[k]) && forall j | k < j < |xs| :: !Original(xs[j])
  }

  /** The state a well-formed history leaves. */
  ghost predicate StateOf(xs: seq<Source>, st: KeyState) {
    && st.evidence == xs
    && (exists k: nat :: LastOriginal(xs, k) && st.selected == xs[k])
    && (forall r :: r in st.revisions <==> exists j | 0 <= j < |xs| :: Original(xs[j]) && xs[j].revision == Some(r))
  }

  lemma {:induction false} EntryPrefix(xs: seq<Source>, s: Source, i: nat)
    requires i < |xs|
    ensures EntryOk(xs + [s], i) <==> EntryOk(xs, i)
  {
    var more := xs + [s];
    assert forall j | 0 <= j < |xs| :: more[j] == xs[j];
  }

  lemma {:induction false} WellFormedNext(xs: seq<Source>, s: Source)
    requires xs != []
    ensures WellFormed(xs + [s]) <==> WellFormed(xs) && EntryOk(xs + [s], |xs|)
  {
    hide EntryOk;
    var more := xs + [s];
    forall i | 0 <= i < |xs| ensures EntryOk(more, i) <==> EntryOk(xs, i) { EntryPrefix(xs, s, i); }
  }

  /** Earlier originals are open unless the last one is the finalized one. */
  lemma {:induction false} OnlyLastFinalized(xs: seq<Source>, k: nat, j: nat)
    requires WellFormed(xs) && LastOriginal(xs, k) && j < k && Original(xs[j])
    ensures Open(xs[j]) && xs[j].revision != xs[k].revision
  {
    assert EntryOk(xs, k);
  }

  lemma {:induction false} RevisedExactly(xs: seq<Source>, st: KeyState, s: Source)
    requires WellFormed(xs) && StateOf(xs, st) && Readable(s) && s.kind != Accepted && s.kind != Duplicate
    ensures Revise(st, s).Some? <==> EntryOk(xs + [s], |xs|)
  {
    var more := xs + [s];
    var k: nat :| LastOriginal(xs, k) && st.selected == xs[k];
    assert EntryOk(xs, k);
    forall j: nat | j < |xs| && Original(xs[j])
      ensures j == k || Open(xs[j])
      ensures more[j] == xs[j]
      ensures xs[j].revision.Some? && xs[j].revision.value in st.revisions
    {
      assert EntryOk(xs, j);
      assert j <= k;
      if j < k { OnlyLastFinalized(xs, k, j); }
    }
  }

  lemma {:induction false} OriginalNext(xs: seq<Source>, st: KeyState, s: Source)
    requires StateOf(xs, st) && Readable(s) && Original(s)
    ensures StateOf(xs + [s], KeyState(s, xs + [s], st.revisions + {s.revision.value}))
  {
    var more := xs + [s];
    assert LastOriginal(more, |xs|);
    forall r
      ensures r in st.revisions + {s.revision.value}
              <==> exists j | 0 <= j < |more| :: Original(more[j]) && more[j].revision == Some(r)
    {
      if r in st.revisions {
        var j :| 0 <= j < |xs| && Original(xs[j]) && xs[j].revision == Some(r);
        assert more[j] == xs[j];
      } else if r == s.revision.value {
        assert more[|xs|] == s;
      }
    }
  }

  lemma {:induction false} DuplicateNext(xs: seq<Source>, st: KeyState, s: Source)
    requires StateOf(xs, st) && s.kind == Duplicate
    ensures StateOf(xs + [s], st.(evidence := xs + [s]))
  {
    var more := xs + [s];
    var k: nat :| LastOriginal(xs, k) && st.selected == xs[k];
    assert LastOriginal(more, k) && more[k] == xs[k];
    forall r
      ensures r in st.revisions <==> exists j | 0 <= j < |more| :: Original(more[j]) && more[j].revision == Some(r)
    {
      if r in st.revisions {
        var j :| 0 <= j < |xs| && Original(xs[j]) && xs[j].revision == Some(r);
        assert more[j] == xs[j];
      }
    }
  }

  lemma {:induction false} DuplicateExactly(xs: seq<Source>, st: KeyState, s: Source)
    requires StateOf(xs, st) && Readable(s) && s.kind == Duplicate
    ensures s.revision.value in st.revisions <==> EntryOk(xs + [s], |xs|)
  {
    var more := xs + [s];
    assert forall j | 0 <= j < |xs| :: more[j] == xs[j];
  }

  /** One step of the automaton accepts exactly the entries that fit the history. */
  lemma {:induction false} AdvanceExactly(xs: seq<Source>, st: KeyState, s: Source)
    requires WellFormed(xs) && StateOf(xs, st)
    ensures Advance(Some(st), s).Some? <==> EntryOk(xs + [s], |xs|)
    ensures Advance(Some(st), s).Some? ==> StateOf(xs + [s], Advance(Some(st), s).value)
  {
    hide WellFormed;
    if Readable(s) && s.kind != Accepted {
      if s.kind == Duplicate {
        DuplicateExactly(xs, st, s);
        DuplicateNext(xs, st, s);
      } else {
        RevisedExactly(xs, st, s);
        OriginalNext(xs, st, s);
      }
    }
  }

  lemma {:induction false} FirstExactly(s: Source)
    ensures Advance(None, s).Some? <==> WellFormed([s])
    ensures Advance(None, s).Some? ==> StateOf([s], Advance(None, s).value)
  {
    assert EntryOk([s], 0) <==> Readable(s) && (s.kind == Accepted || (s.kind == Duplicate && Repeats([s], 0)));
    if Advance(None, s).Some? { assert LastOriginal([s], 0); }
  }

  /** Main result: the automaton accepts exactly the well-formed histories of a key. */
  lemma {:induction false} AutomatonExactly(xs: seq<Source>)
    requires xs != []
    ensures WellFormed(xs) <==> RunKey(xs) != Failed
    ensures RunKey(xs) != Failed ==> RunKey(xs).state.Some? && StateOf(xs, RunKey(xs).state.value)
  {
    hide Advance, WellFormed, StateOf, EntryOk;
    var n := |xs| - 1;
    assert xs == xs[..n] + [xs[n]];
    if n == 0 {
      assert xs == [xs[0]] && RunKey(xs[..0]) == Running(None);
      FirstExactly(xs[0]);
    } else {
      AutomatonExactly(xs[..n]);
      WellFormedNext(xs[..n], xs[n]);
      if RunKey(xs[..n]) != Failed { AdvanceExactly(xs[..n], RunKey(xs[..n]).state.value, xs[n]); }
    }
  }

  // ----- what a well-formed history means

  /** A validated input states the digest of its own semantics. */
  predicate Validated(revise: Semantics -> Digest, s: Source) {
    if s.kind == Rejected then s.semantics.None? && s.revision.None?
    else s.semantics.Some? && s.revision == Some(revise(s.semantics.value))
  }

  /** The revisions a history goes through are all different. */
  lemma {:induction false} RevisionsDistinct(xs: seq<Source>, i: nat, j: nat)
    requires WellFormed(xs) && i < j < |xs| && Original(xs[i]) && Original(xs[j])
    ensures xs[i].revision != xs[j].revision && Open(xs[i]) && xs[j].kind != Accepted
  {
    assert EntryOk(xs, i) && EntryOk(xs, j);
  }

  ghost predicate TwoSemantics(revise: Semantics -> Digest, a: Semantics, b: Semantics) {
    a != b && revise(a) == revise(b)
  }

  /**
   * The selected input is finalized exactly when some input about the key is, unless two
   * different candles have one revision digest.
   */
  lemma {:induction false} FinalizedExactly(revise: Semantics -> Digest, xs: seq<Source>, st: KeyState, i: nat)
    requires WellFormed(xs) && StateOf(xs, st) && forall x | x in xs :: Validated(revise, x)
    requires i < |xs|
    ensures st.selected in xs && st.selected.semantics.Some? && xs[i].semantics.Some?
    ensures xs[i].semantics.value.finalized ==>
              st.selected.semantics.value.finalized ||
              exists j | 0 <= j < |xs| :: xs[j].semantics.Some? &&
                                         TwoSemantics(revise, xs[j].semantics.value, xs[i].semantics.value)
  {
    hide Validated;
    var k: nat :| LastOriginal(xs, k) && st.selected == xs[k];
    assert EntryOk(xs, k) && EntryOk(xs, i);
    if xs[i].semantics.value.finalized && i != k {
      if Original(xs[i]) {
        RevisionsDistinct(xs, i, k);
      } else {
        var j :| 0 <= j < i && Original(xs[j]) && xs[j].revision == xs[i].revision;
        assert EntryOk(xs, j);
        SameRevision(revise, xs[j], xs[i]);
        if j < k { RevisionsDistinct(xs, j, k); }
      }
    }
  }

  lemma {:induction false} SameRevision(revise: Semantics -> Digest, a: Source, b: Source)
    requires Validated(revise, a) && Validated(revise, b) && Readable(a) && Readable(b) && a.revision == b.revision
    ensures a.semantics == b.semantics || TwoSemantics(revise, a.semantics.value, b.semantics.value)
  {
  }

  // ----- the interleaved stream

  function SourceRank(s: Source): Rank {
    [Text(s.identity.producer), Number(s.identity.offset), Text(s.identity.epoch)]
  }

  function KeyRank(k: CandleKey): Rank {
    [Number(k.start), Text(k.instrument.venue), Text(k.instrument.category), Text(k.instrument.symbol),
     Number(k.interval)]
  }

  function InOrder(inputs: seq<Source>): seq<Source> {
    SortBy(SourceRank, inputs)
  }

  predicate Concerns(s: Source, key: CandleKey) {
    s.semantics.Some? && s.semantics.value.key == key
  }

  /** The inputs about one key, in order. */
  function About(xs: seq<Source>, key: CandleKey): (r: seq<Source>)
    ensures forall x | x in r :: x in xs && Concerns(x, key)
  {
    if xs == [] then []
    else
      var last := xs[|xs| - 1];
      assert xs == xs[..|xs| - 1] + [last];
      if Concerns(last, key) then About(xs[..|xs| - 1], key) + [last] else About(xs[..|xs| - 1], key)
  }

  /** All from one producer, no offset twice. */
  predicate OneStream(xs: seq<Source>) {
    forall i, j | 0 <= i < j < |xs| ::
      xs[i].identity.producer == xs[j].identity.producer && xs[i].identity.offset != xs[j].identity.offset
  }

  /** Every key's own history is accepted, whatever is interleaved with it. */
  ghost predicate Coherent(xs: seq<Source>) {
    && OneStream(xs)
    && (forall x | x in xs :: Readable(x))
    && forall key: CandleKey :: RunKey(About(xs, key)) != Failed
  }

  ghost predicate Selectable(inputs: seq<Source>) {
    inputs != [] && Coherent(InOrder(inputs))
  }

  lemma {:induction false} AboutNext(xs: seq<Source>, n: nat, key: CandleKey)
    requires n < |xs|
    ensures About(xs[..n + 1], key)
            == if Concerns(xs[n], key) then About(xs[..n], key) + [xs[n]] else About(xs[..n], key)
  {
    assert xs[..n + 1][..n] == xs[..n];
  }

  lemma {:induction false} FailedForever(xs: seq<Source>, n: nat, key: CandleKey)
    requires n <= |xs| && RunKey(About(xs[..n], key)) == Failed
    ensures RunKey(About(xs, key)) == Failed
    decreases |xs| - n
  {
    hide Advance;
    if n < |xs| {
      AboutNext(xs, n, key);
      var was := About(xs[..n], key);
      assert (was + [xs[n]])[..|was|] == was;
      FailedForever(xs, n + 1, key);
    } else {
      assert xs[..n] == xs;
    }
  }

  // ----- the selection

  function CandleRank(c: SelectedCandle): Rank {
    if c.selected.semantics.Some? then KeyRank(c.selected.semantics.value.key) else []
  }

  /** What the automaton leaves for this candle's key. */
  predicate Chosen(ordered: seq<Source>, c: SelectedCandle) {
    c.selected.semantics.Some? &&
    var p := RunKey(About(ordered, c.selected.semantics.value.key));
    p.Running? && p.state.Some? && p.state.value.selected == c.selected && p.state.value.evidence == c.evidence
  }

  predicate Represented(out: seq<SelectedCandle>, s: Source) {
    exists c | c in out :: c.selected.semantics.Some? && Concerns(s, c.selected.semantics.value.key)
  }

  /** One candle for each key, in key order, each as its own history leaves it. */
  predicate IsSelection(ordered: seq<Source>, out: seq<SelectedCandle>) {
    && Strict(CandleRank, out)
    && (forall c | c in out :: Chosen(ordered, c))
    && (forall s | s in ordered :: Represented(out, s))
  }

  /** The states kept so far are what each key's automaton has reached. */
  ghost predicate Tracks(xs: seq<Source>, states: map<CandleKey, KeyState>) {
    forall key: CandleKey :: RunKey(About(xs, key)) == Running(Lookup(states, key))
  }

  function Lookup(states: map<CandleKey, KeyState>, key: CandleKey): Option<KeyState> {
    if key in states then Some(states[key]) else None
  }

  ghost predicate Listed(keys: seq<CandleKey>, states: map<CandleKey, KeyState>) {
    && (forall k :: k in keys <==> k in states)
    && (forall i, j | 0 <= i < j < |keys| :: keys[i] != keys[j])
  }

  lemma {:induction false} KeyMoves(xs: seq<Source>, n: nat, key: CandleKey, st: Option<KeyState>)
    requires n < |xs| && Concerns(xs[n], key) && RunKey(About(xs[..n], key)) == Running(st)
    ensures RunKey(About(xs[..n + 1], key))
            == if Advance(st, xs[n]).Some? then Running(Some(Advance(st, xs[n]).value)) else Failed
  {
    hide Advance;
    AboutNext(xs, n, key);
    var was := About(xs[..n], key);
    assert (was + [xs[n]])[..|was|] == was;
  }

  lemma {:induction false} TracksNext(xs: seq<Source>, n: nat, states: map<CandleKey, KeyState>)
    requires n < |xs| && Tracks(xs[..n], states) && Readable(xs[n])
    ensures var key := xs[n].semantics.value.key;
            var next := Advance(Lookup(states, key), xs[n]);
            && (next.Some? ==> Tracks(xs[..n + 1], states[key := next.value]))
            && (next.None? ==> RunKey(About(xs[..n + 1], key)) == Failed)
  {
    hide Advance, RunKey, About;
    var key := xs[n].semantics.value.key;
    var next := Advance(Lookup(states, key), xs[n]);
    KeyMoves(xs, n, key, Lookup(states, key));
    if next.Some? {
      var more, moved := xs[..n + 1], states[key := next.value];
      forall k: CandleKey ensures RunKey(About(more, k)) == Running(Lookup(moved, k)) {
        if k != key {
          AboutNext(xs, n, k);
          assert RunKey(About(xs[..n], k)) == Running(Lookup(states, k));
        }
      }
    }
  }

  /** A rejected input spoils the whole stream; an accepted one moves its own key only. */
  lemma {:induction false} TracksStep(xs: seq<Source>, n: nat, states: map<CandleKey, KeyState>)
    requires n < |xs| && Tracks(xs[..n], states)
    ensures Readable(xs[n]) && Advance(Lookup(states, xs[n].semantics.value.key), xs[n]).Some? ==>
              Tracks(xs[..n + 1], states[xs[n].semantics.value.key :=
                                           Advance(Lookup(states, xs[n].semantics.value.key), xs[n]).value])
    ensures !(Readable(xs[n]) && Advance(Lookup(states, xs[n].semantics.value.key), xs[n]).Some?) ==> !Coherent(xs)
  {
    hide Advance, Tracks, OneStream, RunKey;
    if Readable(xs[n]) {
      var key := xs[n].semantics.value.key;
      TracksNext(xs, n, states);
      if Advance(Lookup(states, key), xs[n]).None? { FailedForever(xs, n + 1, key); }
    }
  }

  /** One input against the table of states, in the source's order of checks. */
  method SelectSource(states: map<CandleKey, KeyState>, keys: seq<CandleKey>, source: Source)
    returns (ok: bool, states': map<CandleKey, KeyState>, keys': seq<CandleKey>)
    requires Listed(keys, states)
    ensures ok <==> Readable(source) && Advance(Lookup(states, source.semantics.value.key), source).Some?
    ensures ok ==>
              && states' == states[source.semantics.value.key :=
                                   Advance(Lookup(states, source.semantics.value.key), source).value]
              && Listed(keys', states')
  {
    ok, states', keys' := false, states, keys;
    if source.kind == Conflict || source.kind == Rejected { return; }
    if source.semantics.None? || source.revision.None? { return; }
    var key, revision := source.semantics.value.key, source.revision.value;
    if source.kind == Accepted {
      if key in states { return; }
      states' := states[key := KeyState(source, [source], {revision})];
      keys' := keys + [key];
      return true, states', keys';
    }
    if key !in states { return; }
    var st := states[key];
    if source.kind == Duplicate {
      if revision !in st.revisions { return; }
      states' := states[key := st.(evidence := st.evidence + [source])];
      return true, states', keys';
    }
    var revised := Revise(st, source);
    if revised.None? { return; }
    states' := states[key := revised.value];
    ok := true;
  }

  lemma {:induction false} TracksNothing(xs: seq<Source>)
    ensures Tracks(xs[..0], map[])
  {
  }

  /** Walk the ordered inputs, keeping one state for each key. */
  method Walk(ordered: seq<Source>)
    returns (ok: bool, states: map<CandleKey, KeyState>, keys: seq<CandleKey>)
    requires ordered != []
    ensures ok <==> Coherent(ordered)
    ensures ok ==> Tracks(ordered, states) && Listed(keys, states)
  {
    hide RunKey, Advance, Revise;
    var producer := ordered[0].identity.producer;
    var seen: set<(string, int)> := {};
    var i := 0;
    ok, states, keys := false, map[], [];
    TracksNothing(ordered);
    while i < |ordered|
      invariant 0 <= i <= |ordered| && !ok
      invariant OneStream(ordered[..i]) && forall j | 0 <= j < i :: Readable(ordered[j])
      invariant forall p :: p in seen <==>
                  exists j | 0 <= j < i :: p == (ordered[j].identity.producer, ordered[j].identity.offset)
      invariant Tracks(ordered[..i], states) && Listed(keys, states)
    {
      var source := ordered[i];
      var ingestion := (source.identity.producer, source.identity.offset);
      if source.identity.producer != producer || ingestion in seen {
        return;
      }
      seen := seen + {ingestion};
      var selected;
      ghost var before := states;
      TracksStep(ordered, i, before);
      selected, states, keys := SelectSource(states, keys, source);
      if !selected { return; }
      i := i + 1;
    }
    assert ordered[..i] == ordered;
    ok := true;
  }

  lemma {:induction false} KeyRankInjective(a: CandleKey, b: CandleKey)
    requires KeyRank(a) == KeyRank(b)
    ensures a == b
  {
    assert KeyRank(a)[0] == KeyRank(b)[0] && KeyRank(a)[1] == KeyRank(b)[1] && KeyRank(a)[2] == KeyRank(b)[2];
    assert KeyRank(a)[3] == KeyRank(b)[3] && KeyRank(a)[4] == KeyRank(b)[4];
  }

  function CandleOf(states: map<CandleKey, KeyState>, key: CandleKey): SelectedCandle
    requires key in states
  {
    SelectedCandle(states[key].selected, states[key].evidence)
  }

  /** A tracked state is the chosen one of its key. */
  lemma {:induction false} TrackedIsChosen(ordered: seq<Source>, states: map<CandleKey, KeyState>, key: CandleKey)
    requires Tracks(ordered, states) && key in states
    ensures Concerns(CandleOf(states, key).selected, key) && Chosen(ordered, CandleOf(states, key))
  {
    hide RunKey, About, WellFormed;
    var xs := About(ordered, key);
    assert RunKey(xs) == Running(Lookup(states, key));
    assert xs != [] by { RunNothing(); }
    AutomatonExactly(xs);
    var k: nat :| LastOriginal(xs, k) && states[key].selected == xs[k];
    assert xs[k] in xs;
  }

  lemma {:induction false} RunNothing()
    ensures RunKey([]) == Running(None)
  {
  }

  lemma {:induction false} EveryKeyTracked(ordered: seq<Source>, states: map<CandleKey, KeyState>, s: Source)
    requires Tracks(ordered, states) && s in ordered && Readable(s)
    ensures s.semantics.value.key in states
  {
    hide RunKey;
    var key := s.semantics.value.key;
    AboutHolds(ordered, key, s);
    AutomatonExactly(About(ordered, key));
    assert RunKey(About(ordered, key)) == Running(Lookup(states, key));
  }

  lemma {:induction false} AboutHolds(xs: seq<Source>, key: CandleKey, s: Source)
    requires s in xs && Concerns(s, key)
    ensures s in About(xs, key)
  {
    var n := |xs| - 1;
    assert xs == xs[..n] + [xs[n]];
    if s in xs[..n] { AboutHolds(xs[..n], key, s); }
  }

  lemma {:induction false} SortedKeys(keys: seq<CandleKey>, states: map<CandleKey, KeyState>)
    requires Listed(keys, states)
    ensures Strict(KeyRank, SortBy(KeyRank, keys))
    ensures forall k :: k in SortBy(KeyRank, keys) <==> k in states
  {
    hide KeyRank, SortBy, Strict;
    forall i, j | 0 <= i < j < |keys| ensures KeyRank(keys[i]) != KeyRank(keys[j]) {
      if KeyRank(keys[i]) == KeyRank(keys[j]) { KeyRankInjective(keys[i], keys[j]); }
    }
    SortInvariant(KeyRank, keys, keys);
    SortSorts(KeyRank, keys);
    forall k ensures k in SortBy(KeyRank, keys) <==> k in states {
      InBoth(SortBy(KeyRank, keys), keys, k);
    }
  }

  lemma {:induction false} CandlesSelect(
      ordered: seq<Source>, states: map<CandleKey, KeyState>, sorted: seq<CandleKey>, out: seq<SelectedCandle>)
    requires Tracks(ordered, states) && forall x | x in ordered :: Readable(x)
    requires Strict(KeyRank, sorted) && forall k :: k in sorted <==> k in states
    requires |out| == |sorted|
    requires forall i | 0 <= i < |out| :: sorted[i] in states && out[i] == CandleOf(states, sorted[i])
    ensures IsSelection(ordered, out)
  {
    hide KeyRank, Tracks, Chosen, Less;
    forall i | 0 <= i < |out|
      ensures Chosen(ordered, out[i]) && Concerns(out[i].selected, sorted[i])
      ensures CandleRank(out[i]) == KeyRank(sorted[i])
    {
      TrackedIsChosen(ordered, states, sorted[i]);
    }
    forall s | s in ordered ensures Represented(out, s) {
      EveryKeyTracked(ordered, states, s);
      var i :| 0 <= i < |sorted| && sorted[i] == s.semantics.value.key;
      assert out[i] in out;
    }
  }

  /** Main operation: select the latest accepted revision of every key, in key order. */
  method SelectCandles(inputs: seq<Source>) returns (r: Option<seq<SelectedCandle>>)
    ensures r.Some? <==> Selectable(inputs)
    ensures r.Some? ==> IsSelection(InOrder(inputs), r.value)
  {
    hide Coherent, Tracks, Listed, IsSelection, KeyRank, Strict, SortBy;
    if inputs == [] { return None; }
    var ordered := InOrder(inputs);
    SortSorts(SourceRank, inputs);
    assert |ordered| == |inputs| by { assert |multiset(ordered)| == |multiset(inputs)|; }
    var ok, states, keys := Walk(ordered);
    if !ok { return None; }
    SortedKeys(keys, states);
    var sorted := SortBy(KeyRank, keys);
    var out: seq<SelectedCandle> := [];
    var i := 0;
    while i < |sorted|
      invariant 0 <= i <= |sorted| && |out| == i
      invariant forall j | 0 <= j < i :: sorted[j] in states && out[j] == CandleOf(states, sorted[j])
    {
      assert sorted[i] in sorted;
      out := out + [CandleOf(states, sorted[i])];
      i := i + 1;
    }
    CoherentReadable(ordered);
    CandlesSelect(ordered, states, sorted, out);
    r := Some(out);
  }

  lemma {:induction false} CoherentReadable(xs: seq<Source>)
    requires Coherent(xs)
    ensures forall x | x in xs :: Readable(x)
  {
  }

  // ----- what a selection says

  /** There is only one selection of an ordered stream. */
  lemma {:induction false} SelectionUnique(ordered: seq<Source>, a: seq<SelectedCandle>, b: seq<SelectedCandle>)
    requires Coherent(ordered) && IsSelection(ordered, a) && IsSelection(ordered, b)
    ensures a == b
  {
    hide Strict;
    forall c | c in a ensures c in b { SelectedByBoth(ordered, a, b, c); }
    forall c | c in b ensures c in a { SelectedByBoth(ordered, b, a, c); }
    StrictSameSet(CandleRank, a, b);
  }

  lemma {:induction false} SelectedByBoth(
      ordered: seq<Source>, a: seq<SelectedCandle>, b: seq<SelectedCandle>, c: SelectedCandle)
    requires IsSelection(ordered, a) && IsSelection(ordered, b) && c in a
    ensures c in b
  {
    hide Strict, RunKey, About;
    var key := c.selected.semantics.value.key;
    var xs := About(ordered, key);
    ChosenFrom(ordered, c);
    var d :| d in b && d.selected.semantics.Some? && Concerns(c.selected, d.selected.semantics.value.key);
    assert Chosen(ordered, d);
  }

  /** A chosen candle comes from its key's own inputs, all of which are its evidence. */
  lemma {:induction false} ChosenFrom(ordered: seq<Source>, c: SelectedCandle)
    requires Chosen(ordered, c)
    ensures c.selected in ordered && c.selected in c.evidence
    ensures c.evidence == About(ordered, c.selected.semantics.value.key) && WellFormed(c.evidence)
    ensures exists k: nat :: LastOriginal(c.evidence, k) && c.selected == c.evidence[k]
  {
    hide RunKey, About, WellFormed;
    var xs := About(ordered, c.selected.semantics.value.key);
    assert xs != [] by { RunNothing(); }
    AutomatonExactly(xs);
    var k: nat :| LastOriginal(xs, k) && c.selected == xs[k];
    assert xs[k] in xs;
  }

  /** Main result: neither the outcome nor the selection depends on the order of the inputs. */
  lemma {:induction false} PermutationInvariant(
      a: seq<Source>, b: seq<Source>, outA: seq<SelectedCandle>, outB: seq<SelectedCandle>)
    requires multiset(a) == multiset(b)
    ensures Selectable(a) <==> Selectable(b)
    ensures Selectable(a) && IsSelection(InOrder(a), outA) && IsSelection(InOrder(b), outB) ==> outA == outB
  {
    hide Coherent, SortBy, IsSelection;
    if Selectable(a) {
      SameOrder(a, b);
      if IsSelection(InOrder(a), outA) && IsSelection(InOrder(b), outB) {
        SelectionUnique(InOrder(a), outA, outB);
      }
    }
    if Selectable(b) { SameOrder(b, a); }
  }

  lemma {:induction false} SameOrder(a: seq<Source>, b: seq<Source>)
    requires multiset(a) == multiset(b) && Selectable(a)
    ensures InOrder(a) == InOrder(b) && b != []
  {
    hide SortBy, RunKey, About;
    var ordered := InOrder(a);
    SortSorts(SourceRank, a);
    assert |multiset(a)| == |multiset(b)|;
    forall i, j | 0 <= i < j < |ordered| ensures SourceRank(ordered[i]) != SourceRank(ordered[j]) {
      assert SourceRank(ordered[i])[1] != SourceRank(ordered[j])[1];
    }
    SortInvariant(SourceRank, ordered, a);
    SortInvariant(SourceRank, ordered, b);
  }

  /** Every input is evidence of the one candle of its key, and of no other. */
  lemma {:induction false} EvidencePartitions(ordered: seq<Source>, out: seq<SelectedCandle>, n: nat) returns (i: nat)
    requires Coherent(ordered) && IsSelection(ordered, out) && n < |ordered|
    ensures i < |out| && out[i].selected.semantics.Some?
    ensures out[i].evidence == About(ordered, out[i].selected.semantics.value.key)
    ensures ordered[n] in out[i].evidence
    ensures forall j | 0 <= j < |out| && j != i :: ordered[n] !in out[j].evidence
  {
    hide RunKey, WellFormed, Less, KeyRank;
    var s := ordered[n];
    assert Represented(out, s);
    i :| 0 <= i < |out| && out[i].selected.semantics.Some? && Concerns(s, out[i].selected.semantics.value.key);
    forall j | 0 <= j < |out|
      ensures out[j].selected.semantics.Some? && out[j].evidence == About(ordered, out[j].selected.semantics.value.key)
      ensures j != i ==> s !in out[j].evidence
    {
      assert Chosen(ordered, out[j]);
      ChosenFrom(ordered, out[j]);
      if j != i {
        RankIrreflexive(CandleRank(out[i]));
        assert out[j].selected.semantics.value.key != out[i].selected.semantics.value.key;
      }
    }
    AboutHolds(ordered, out[i].selected.semantics.value.key, s);
  }
}
