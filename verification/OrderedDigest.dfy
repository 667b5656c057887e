/** One digest for an ordered list of publication inputs. */
module OrderedDigest {
  import opened Wrappers
  import opened Canonical
  import opened Records
  import opened Domain
  import opened RawRecords

  const ALGORITHM := "scryntic-publication-ordered-input-v1"

  datatype Pair = Pair(identity: IngestionId, fingerprint: Digest)

  function EntryJson(p: Pair): Json {
    Obj([Member("identity", IdentityJson(p.identity)), Member("input_fingerprint", Str(p.fingerprint))])
  }

  function Entries(pairs: seq<Pair>): seq<Json> {
    if pairs == [] then [] else Entries(pairs[..|pairs| - 1]) + [EntryJson(pairs[|pairs| - 1])]
  }

  function Projection(pairs: seq<Pair>): Json {
    Obj([
      Member("algorithm", Str(ALGORITHM)),
      Member("inputs", List(Entries(pairs))),
      Member("record_count", Int(|pairs|))])
  }

  /** One producer, digests that look like digests, offsets strictly increasing from above zero. */
  predicate Admitted(pairs: seq<Pair>) {
    && pairs != []
    && forall i | 0 <= i < |pairs| :: AdmittedAt(pairs, i)
  }

  predicate AdmittedAt(pairs: seq<Pair>, i: nat)
    requires i < |pairs|
  {
    && IsDigest(pairs[i].fingerprint)
    && pairs[i].identity.producer == pairs[0].identity.producer
    && pairs[i].identity.offset > if i == 0 then 0 else pairs[i - 1].identity.offset
  }

  /** Check the order while collecting the entries, then hash the canonical text. */
  method OrderedDigestFromPairs(hash: Bytes -> Digest, pairs: seq<Pair>) returns (r: Option<Digest>)
    ensures r.Some? <==> Admitted(pairs) && Valid(Projection(pairs))
    ensures r.Some? ==> r.value == hash(Encode(Projection(pairs)))
  {
    hide Valid, EntryJson, IsDigest;
    if pairs == [] { return None; }
    var producer: Option<string>, previous, entries := None, 0, [];
    var i := 0;
    while i < |pairs|
      invariant 0 <= i <= |pairs| && entries == Entries(pairs[..i])
      invariant producer == if i == 0 then None else Some(pairs[0].identity.producer)
      invariant previous == if i == 0 then 0 else pairs[i - 1].identity.offset
      invariant forall j | 0 <= j < i :: AdmittedAt(pairs, j)
    {
      var (identity, fingerprint) := (pairs[i].identity, pairs[i].fingerprint);
      if !IsDigest(fingerprint) {
        assert !AdmittedAt(pairs, i);
        return None;
      }
      if producer.None? { producer := Some(identity.producer); }
      if identity.producer != producer.value || identity.offset <= previous {
        assert !AdmittedAt(pairs, i);
        return None;
      }
      previous := identity.offset;
      assert pairs[..i + 1][..i] == pairs[..i];
      entries := entries + [EntryJson(pairs[i])];
      i := i + 1;
    }
    assert pairs[..i] == pairs;
    var projection := Obj([
      Member("algorithm", Str(ALGORITHM)), Member("inputs", List(entries)), Member("record_count", Int(|entries|))]);
    EntriesLength(pairs);
    assert projection == Projection(pairs);
    if !Valid(projection) { return None; }
    r := Some(hash(Encode(projection)));
  }

  lemma {:induction false} EntriesLength(pairs: seq<Pair>)
    ensures |Entries(pairs)| == |pairs|
  {
    if pairs != [] { EntriesLength(pairs[..|pairs| - 1]); }
  }

  // ----- the digest binds the list

  function ReadPair(j: Json): Option<Pair> {
    match Get(j, "identity")
    case None => None
    case Some(id) =>
      var identity, fingerprint := ReadIdentity(id), GetText(j, "input_fingerprint");
      if identity.None? || fingerprint.None? then None else Some(Pair(identity.value, fingerprint.value))
  }

  lemma {:induction false} PairReads(p: Pair)
    requires Valid(EntryJson(p))
    ensures ReadPair(Canon(EntryJson(p))) == Some(p)
  {
    hide Valid, Find, IdentityJson, ReadIdentity;
    var m := EntryJson(p).members;
    ValidFieldAt(m, 0);
    ValidFieldAt(m, 1);
    MemberValid(m, 0);
    IdentityReads(p.identity);
  }

  lemma {:induction false} ItemsAt(items: seq<Json>, i: nat)
    requires i < |items|
    ensures |CanonItems(items)| == |items| && CanonItems(items)[i] == Canon(items[i])
    ensures ValidItems(items) ==> Valid(items[i])
  {
    if i == 0 {
      ItemsLength(items);
    } else {
      ItemsAt(items[1..], i - 1);
    }
  }

  lemma {:induction false} ItemsLength(items: seq<Json>)
    ensures |CanonItems(items)| == |items|
  {
    if items != [] { ItemsLength(items[1..]); }
  }

  lemma {:induction false} EntryAt(pairs: seq<Pair>, i: nat)
    requires i < |pairs|
    ensures |Entries(pairs)| == |pairs| && Entries(pairs)[i] == EntryJson(pairs[i])
  {
    EntriesLength(pairs);
    if i < |pairs| - 1 { EntryAt(pairs[..|pairs| - 1], i); }
  }

  /** The i-th pair, read from the canonical projection. */
  lemma {:induction false} ProjectionReads(pairs: seq<Pair>, i: nat)
    requires Valid(Projection(pairs))
    ensures var inputs := Get(Canon(Projection(pairs)), "inputs");
            && inputs.Some? && inputs.value.List? && |inputs.value.items| == |pairs|
            && (i < |pairs| ==> ReadPair(inputs.value.items[i]) == Some(pairs[i]))
  {
    hide Find, EntryJson, ReadPair;
    var m := Projection(pairs).members;
    ValidFieldAt(m, 1);
    MemberValid(m, 1);
    EntriesLength(pairs);
    ItemsLength(Entries(pairs));
    if i < |pairs| {
      EntryAt(pairs, i);
      ItemsAt(Entries(pairs), i);
      PairReads(pairs[i]);
    }
  }

  /** Main result: lists with one digest are equal, or their texts are a collision. */
  lemma {:induction false} OrderedDigestBinds(hash: Bytes -> Digest, a: seq<Pair>, b: seq<Pair>)
    requires Valid(Projection(a)) && Valid(Projection(b))
    requires hash(Encode(Projection(a))) == hash(Encode(Projection(b)))
    ensures a == b || Collides(hash, Encode(Projection(a)), Encode(Projection(b)))
  {
    hide Valid, Projection, ReadPair, Encode, Canon;
    if Encode(Projection(a)) == Encode(Projection(b)) {
      EncodeInvertible(Projection(a));
      EncodeInvertible(Projection(b));
      ProjectionReads(a, 0);
      ProjectionReads(b, 0);
      forall i | 0 <= i < |a| ensures a[i] == b[i] {
        ProjectionReads(a, i);
        ProjectionReads(b, i);
      }
    }
  }
}
