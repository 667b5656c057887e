/** Lags and labels of selected candles: exact contiguous neighbours, never filled in. */
module Derivation {
  import opened Wrappers
  import opened Domain
  import opened Selection
  import opened Recipes

  type Index = map<CandleKey, SelectedCandle>

  /** The key a number of steps away, forwards or backwards. */
  function Neighbour(key: CandleKey, steps: int): CandleKey {
    key.(start := key.start + steps * key.interval)
  }

  predicate IsFinalized(c: SelectedCandle) {
    c.selected.semantics.Some? && c.selected.semantics.value.finalized
  }

  function KeyOf(c: SelectedCandle): Option<CandleKey> {
    match c.selected.semantics
    case None => None
    case Some(s) => Some(s.key)
  }

  /** Keyed by its own candle's key. */
  predicate WellKeyed(index: Index) {
    forall k | k in index :: KeyOf(index[k]) == Some(k)
  }

  predicate IndexedIn(index: Index, c: SelectedCandle) {
    KeyOf(c).Some? && KeyOf(c).value in index && index[KeyOf(c).value] == c
  }

  predicate Indexes(index: Index, selected: seq<SelectedCandle>) {
    && WellKeyed(index)
    && (forall c | c in selected :: IndexedIn(index, c))
    && (forall k | k in index :: index[k] in selected)
  }

  predicate OnePerKey(selected: seq<SelectedCandle>) {
    && (forall c | c in selected :: KeyOf(c).Some?)
    && (forall i, j | 0 <= i < j < |selected| :: KeyOf(selected[i]) != KeyOf(selected[j]))
  }

  lemma {:induction false} IndexNext(index: Index, selected: seq<SelectedCandle>, i: nat)
    requires i < |selected| && Indexes(index, selected[..i]) && OnePerKey(selected[..i])
    ensures var key := KeyOf(selected[i]);
            if key.Some? && key.value !in index then
              Indexes(index[key.value := selected[i]], selected[..i + 1]) && OnePerKey(selected[..i + 1])
            else !OnePerKey(selected)
  {
    hide KeyOf;
    var key, more := KeyOf(selected[i]), selected[..i + 1];
    assert more == selected[..i] + [selected[i]];
    if key.Some? && key.value !in index {
      assert forall c | c in selected[..i] :: IndexedIn(index, c);
      assert forall j | 0 <= j < i :: selected[j] in selected[..i];
    } else if key.None? {
      assert selected[i] in selected;
    } else {
      var j :| 0 <= j < i && selected[j] == index[key.value];
    }
  }

  /** Refuse a candle without semantics, or a second one for a key. */
  method CandleIndex(selected: seq<SelectedCandle>) returns (r: Option<Index>)
    ensures r.Some? <==> OnePerKey(selected)
    ensures r.Some? ==> Indexes(r.value, selected)
  {
    hide Indexes, OnePerKey;
    var index: Index := map[];
    var i := 0;
    IndexNothing(selected);
    while i < |selected|
      invariant 0 <= i <= |selected|
      invariant Indexes(index, selected[..i]) && OnePerKey(selected[..i])
    {
      IndexNext(index, selected, i);
      var semantics := selected[i].selected.semantics;
      if semantics.None? || semantics.value.key in index { return None; }
      index := index[semantics.value.key := selected[i]];
      i := i + 1;
    }
    assert selected[..i] == selected;
    r := Some(index);
  }

  lemma {:induction false} IndexNothing(selected: seq<SelectedCandle>)
    ensures Indexes(map[], selected[..0]) && OnePerKey(selected[..0])
  {
  }

  function Nth(key: CandleKey, direction: int, n: int): CandleKey { Neighbour(key, direction * n) }

  /** The candles a number of steps away and nearer all exist, finalized if that is asked. */
  predicate Contiguous(index: Index, key: CandleKey, steps: int, direction: int, finalized: bool) {
    forall i | 1 <= i <= steps :: Linked(index, key, direction, i, finalized)
  }

  predicate Linked(index: Index, key: CandleKey, direction: int, n: int, finalized: bool) {
    Nth(key, direction, n) in index && (finalized ==> IsFinalized(index[Nth(key, direction, n)]))
  }

  predicate IsNth(index: Index, key: CandleKey, direction: int, n: int, c: SelectedCandle) {
    Nth(key, direction, n) in index && index[Nth(key, direction, n)] == c
  }

  predicate HasFingerprint(index: Index, key: CandleKey, direction: int, n: int, fingerprint: Digest) {
    Nth(key, direction, n) in index && index[Nth(key, direction, n)].selected.fingerprint == fingerprint
  }

  datatype Missing = GapOrMissing | Unfinalized

  /** Follow neighbours until one is missing or, for a label, not finalized. */
  method DerivedChain(key: CandleKey, index: Index, steps: nat, direction: int, finalized: bool)
    returns (chain: seq<SelectedCandle>, reason: Option<Missing>)
    requires WellKeyed(index)
    ensures reason.None? <==> Contiguous(index, key, steps, direction, finalized)
    ensures reason.None? ==> |chain| == steps
    ensures |chain| <= steps
    ensures forall i | 0 <= i < |chain| :: IsNth(index, key, direction, i + 1, chain[i])
    ensures reason == Some(GapOrMissing) ==>
              && |chain| < steps && Nth(key, direction, |chain| + 1) !in index
              && Contiguous(index, key, |chain|, direction, finalized)
    ensures reason == Some(Unfinalized) ==>
              && finalized && chain != [] && !IsFinalized(chain[|chain| - 1])
              && Contiguous(index, key, |chain| - 1, direction, finalized)
  {
    hide Nth;
    chain, reason := [], None;
    var step := 1;
    while step <= steps
      invariant 1 <= step <= steps + 1 && |chain| == step - 1
      invariant forall i | 0 <= i < |chain| :: IsNth(index, key, direction, i + 1, chain[i])
      invariant Contiguous(index, key, step - 1, direction, finalized)
    {
      var other := Nth(key, direction, step);
      if other !in index {
        assert !Linked(index, key, direction, step, finalized);
        return chain, Some(GapOrMissing);
      }
      chain := chain + [index[other]];
      if finalized && !index[other].selected.semantics.value.finalized {
        assert !Linked(index, key, direction, step, finalized);
        return chain, Some(Unfinalized);
      }
      step := step + 1;
    }
  }

  /** A derived column of one row, with the evidence it was read from. */
  datatype Derived = Derived(close: Option<string>, end: Option<int>, sources: seq<Digest>, reason: Option<Missing>)

  function Fingerprints(chain: seq<SelectedCandle>): (r: seq<Digest>)
    ensures |r| == |chain| && forall i | 0 <= i < |r| :: r[i] == chain[i].selected.fingerprint
  {
    seq(|chain|, i requires 0 <= i < |chain| => chain[i].selected.fingerprint)
  }

  /** Present exactly when the whole stretch is there; then it is the far end's value. */
  predicate LagOf(index: Index, key: CandleKey, steps: nat, d: Derived) {
    && d.close.Some? == Contiguous(index, key, steps, -1, false)
    && d.end.None?
    && (d.close.Some? ==>
          && Nth(key, -1, steps) in index
          && d.close == CloseOf(index[Nth(key, -1, steps)])
          && |d.sources| == steps && d.reason.None?)
  }

  predicate LabelOf(index: Index, key: CandleKey, steps: nat, d: Derived) {
    && d.close.Some? == d.end.Some? == Contiguous(index, key, steps, 1, true)
    && (d.close.Some? ==>
          && Neighbour(key, steps) in index
          && d.close == CloseOf(index[Neighbour(key, steps)])
          && d.end == Some(key.start + (steps + 1) * key.interval)
          && |d.sources| == steps && d.reason.None?)
  }

  function CloseOf(c: SelectedCandle): Option<string> {
    match c.selected.semantics
    case None => None
    case Some(s) => Some(s.close)
  }

  method DeriveValue(key: CandleKey, index: Index, steps: nat, direction: int, isLabel: bool) returns (d: Derived)
    requires WellKeyed(index) && steps > 0 && direction == (if isLabel then 1 else -1)
    ensures if isLabel then LabelOf(index, key, steps, d) else LagOf(index, key, steps, d)
    ensures forall i | 0 <= i < |d.sources| :: HasFingerprint(index, key, direction, i + 1, d.sources[i])
  {
    hide Contiguous;
    var chain, reason := DerivedChain(key, index, steps, direction, isLabel);
    d := Derived(None, None, Fingerprints(chain), reason);
    if reason.Some? { return; }
    var target := chain[|chain| - 1].selected.semantics.value;
    assert target.key == Nth(key, direction, steps);
    d := d.(close := Some(target.close));
    if isLabel {
      d := d.(end := Some(target.key.start + target.key.interval));
    }
  }

  // ----- lags and labels face each other

  /** The candle the label of `key` is read from. */
  function LabelSource(index: Index, key: CandleKey, steps: nat): Option<CandleKey> {
    if Contiguous(index, key, steps, 1, true) then Some(Neighbour(key, steps)) else None
  }

  function LagSource(index: Index, key: CandleKey, steps: nat): Option<CandleKey> {
    if Contiguous(index, key, steps, -1, false) then Some(Nth(key, -1, steps)) else None
  }

  predicate FinalizedBetween(index: Index, a: CandleKey, steps: nat) {
    forall i | 1 <= i <= steps :: FinalizedAt(index, Neighbour(a, i))
  }

  predicate FinalizedAt(index: Index, key: CandleKey) {
    key in index ==> IsFinalized(index[key])
  }

  lemma {:induction false} StepsCompose(key: CandleKey, m: int, n: int)
    ensures Neighbour(Neighbour(key, m), n) == Neighbour(key, m + n)
  {
    assert (m + n) * key.interval == m * key.interval + n * key.interval;
  }

  lemma {:induction false} StepsCancel(key: CandleKey, m: int)
    ensures Neighbour(Neighbour(key, m), -m) == key
  {
    StepsCompose(key, m, -m);
    assert 0 * key.interval == 0;
  }

  /**
   * Main result: for equal steps, b is where a's label is read exactly when a is where b's
   * lag is read and everything after a up to b is finalized.
   */
  lemma {:induction false} LabelFacesLag(index: Index, a: CandleKey, b: CandleKey, steps: nat)
    requires a in index && b in index && steps > 0
    ensures LabelSource(index, a, steps) == Some(b)
            <==> LagSource(index, b, steps) == Some(a) && FinalizedBetween(index, a, steps)
  {
    hide IsFinalized, Neighbour;
    StepsCancel(a, steps);
    StepsCancel(b, 0 - steps);
    if LabelSource(index, a, steps) == Some(b) {
      LabelGivesLag(index, a, b, steps);
    }
    if LagSource(index, b, steps) == Some(a) && FinalizedBetween(index, a, steps) {
      LagGivesLabel(index, a, b, steps);
    }
  }

  lemma {:induction false} LabelGivesLag(index: Index, a: CandleKey, b: CandleKey, steps: nat)
    requires a in index && steps > 0 && b == Neighbour(a, steps) && Contiguous(index, a, steps, 1, true)
    ensures Contiguous(index, b, steps, -1, false) && FinalizedBetween(index, a, steps)
  {
    hide IsFinalized, Neighbour;
    forall i | 1 <= i <= steps
      ensures Linked(index, b, -1, i, false) && FinalizedAt(index, Neighbour(a, i))
    {
      StepsCompose(a, steps, -i);
      assert Linked(index, a, 1, i, true);
      if i < steps { assert Linked(index, a, 1, steps - i, true); } else { NoSteps(a); }
    }
  }

  lemma {:induction false} NoSteps(a: CandleKey)
    ensures Neighbour(a, 0) == a
  {
    assert 0 * a.interval == 0;
  }

  lemma {:induction false} LagGivesLabel(index: Index, a: CandleKey, b: CandleKey, steps: nat)
    requires b in index && steps > 0 && b == Neighbour(a, steps) && Contiguous(index, b, steps, -1, false)
    requires FinalizedBetween(index, a, steps)
    ensures Contiguous(index, a, steps, 1, true)
  {
    hide IsFinalized, Neighbour;
    forall i | 1 <= i <= steps ensures Linked(index, a, 1, i, true) {
      assert FinalizedAt(index, Neighbour(a, i));
      if i < steps {
        StepsCompose(a, steps, i - steps);
        assert Linked(index, b, -1, steps - i, false);
      }
    }
  }

  // ----- rows

  /** One output row's derived columns; a column with no steps asked for is not there. */
  datatype Definition = Definition(row: nat, lagged: Option<Derived>, labelled: Option<Derived>)

  predicate DefinitionOk(index: Index, selected: seq<SelectedCandle>, policy: Policy, i: nat, d: Definition)
    requires i < |selected|
  {
    && d.row == i
    && selected[i].selected.semantics.Some?
    && var key := selected[i].selected.semantics.value.key;
    && (if policy.lagSteps > 0 then d.lagged.Some? && LagOf(index, key, policy.lagSteps, d.lagged.value)
        else d.lagged.None?)
    && (if policy.labelSteps > 0 then d.labelled.Some? && LabelOf(index, key, policy.labelSteps, d.labelled.value)
        else d.labelled.None?)
  }

  /** Main operation: the lag and the label of every selected candle. */
  method DeriveRows(selected: seq<SelectedCandle>, rows: nat, policy: Policy)
    returns (r: Option<seq<Definition>>)
    ensures r.Some? <==> rows == |selected| && OnePerKey(selected)
    ensures r.Some? && policy.lagSteps == 0 && policy.labelSteps == 0 ==> r.value == []
    ensures r.Some? && (policy.lagSteps > 0 || policy.labelSteps > 0) ==>
              && |r.value| == |selected|
              && exists index :: Indexes(index, selected) &&
                   forall i | 0 <= i < |selected| :: DefinitionOk(index, selected, policy, i, r.value[i])
  {
    hide LagOf, LabelOf;
    if |selected| != rows { return None; }
    var found := CandleIndex(selected);
    if found.None? { return None; }
    var index := found.value;
    var definitions: seq<Definition> := [];
    var i := 0;
    while i < |selected| && (policy.lagSteps > 0 || policy.labelSteps > 0)
      invariant 0 <= i <= |selected| && |definitions| == i
      invariant policy.lagSteps == 0 && policy.labelSteps == 0 ==> i == 0
      invariant forall j | 0 <= j < i :: DefinitionOk(index, selected, policy, j, definitions[j])
    {
      assert IndexedIn(index, selected[i]);
      var key := selected[i].selected.semantics.value.key;
      var definition := Definition(i, None, None);
      if policy.lagSteps > 0 {
        var lagged := DeriveValue(key, index, policy.lagSteps, -1, false);
        definition := definition.(lagged := Some(lagged));
      }
      if policy.labelSteps > 0 {
        var labelled := DeriveValue(key, index, policy.labelSteps, 1, true);
        definition := definition.(labelled := Some(labelled));
      }
      definitions := definitions + [definition];
      i := i + 1;
    }
    assert Indexes(index, selected);
    r := Some(definitions);
  }
}
