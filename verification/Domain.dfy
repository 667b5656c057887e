/** Values shared by the components: time samples, identities and digests. */
module Domain {
  import opened Wrappers
  import opened Canonical
  import opened Records

  type Digest = string

  function Repeat(c: char, n: nat): (r: string)
    ensures |r| == n && forall x | x in r :: x == c
  {
    if n == 0 then "" else Repeat(c, n - 1) + [c]
  }

  const ZEROS: Digest := Repeat('0', 64)

  predicate IsDigest(s: string) {
    |s| == 64 && forall c | c in s :: '0' <= c <= '9' || 'a' <= c <= 'f'
  }

  predicate Alphanumeric(c: char) { '0' <= c <= '9' || 'A' <= c <= 'Z' || 'a' <= c <= 'z' }

  /** A bounded opaque name. */
  predicate IsIdentifier(s: string) {
    && 1 <= |s| <= 256 && Alphanumeric(s[0])
    && forall c | c in s :: Alphanumeric(c) || c == '_' || c == '.' || c == ':' || c == '-'
  }

  lemma {:induction false} DigestSize(s: Digest)
    requires IsDigest(s)
    ensures |Encode(Str(s))| == 66
  {
    hide Encode;
    TextSize(s);
  }

  lemma {:induction false} IdentifierSize(s: string)
    requires IsIdentifier(s)
    ensures |Encode(Str(s))| <= 258
  {
    hide Encode;
    TextSize(s);
  }

  /** Two different texts with one digest. */
  ghost predicate Collides(hash: Bytes -> Digest, a: Bytes, b: Bytes) {
    a != b && hash(a) == hash(b)
  }

  /** How JSON objects become bytes and digests, and back. */
  datatype Codec = Codec(hash: Bytes -> Digest, encode: Json -> Bytes, decode: Bytes -> Option<Json>)

  function Identity(codec: Codec, v: Json): Digest {
    codec.hash(codec.encode(v))
  }

  /** The one codec in use; only the hash function is left open. */
  function CanonicalCodec(hash: Bytes -> Digest): Codec {
    Codec(hash, Encode, Decoded)
  }

  ghost predicate ReadsBack(codec: Codec) {
    forall data | codec.decode(data).Some? ::
      var e := codec.decode(data).value;
      e.Obj? && codec.encode(e) == data && Canonical.Valid(e) && Canon(e) == e
  }

  ghost predicate WritesBack(codec: Codec) {
    forall v: Json | v.Obj? && Canonical.Valid(v) && 0 < |codec.encode(v)| <= MAX_PAYLOAD ::
      codec.decode(codec.encode(v)) == Some(Canon(v)) && codec.encode(Canon(v)) == codec.encode(v)
  }

  /** All that is used of the codec. Of the hash: its results look like digests. */
  ghost predicate Lawful(codec: Codec) {
    && (forall data :: IsDigest(codec.hash(data)))
    && ReadsBack(codec)
    && WritesBack(codec)
  }

  lemma {:induction false} CanonicalReadsBack(hash: Bytes -> Digest)
    ensures ReadsBack(CanonicalCodec(hash))
  {
    forall data | Decoded(data).Some?
      ensures var e := Decoded(data).value;
              e.Obj? && Encode(e) == data && Canonical.Valid(e) && Canon(e) == e
    {
      var e := Decoded(data).value;
      LoadsIsFaithful();
      DecodedAcceptsExactly(Loads, data, e);
      CanonKeeps(e);
      NormalUnique(Canon(e), e);
    }
  }

  lemma {:induction false} CanonicalWritesBack(hash: Bytes -> Digest)
    ensures WritesBack(CanonicalCodec(hash))
  {
    forall v: Json | v.Obj? && Canonical.Valid(v) && 0 < |Encode(v)| <= MAX_PAYLOAD
      ensures Decoded(Encode(v)) == Some(Canon(v)) && Encode(Canon(v)) == Encode(v)
    {
      CanonKeeps(v);
      CanonIdempotent(v);
      LoadsIsFaithful();
      DecodedAcceptsExactly(Loads, Encode(v), Canon(v));
    }
  }

  datatype Status = Unknown | Degraded | Healthy

  datatype TimeQuality = TimeQuality(
    epoch: string,
    status: Status,
    offset: Option<int>,
    uncertainty: Option<int>,
    age: Option<int>)

  datatype ClockSample = ClockSample(wall: int, monotonic: int, session: string, quality: TimeQuality)

  datatype InstrumentId = InstrumentId(venue: string, category: string, symbol: string)

  datatype IngestionId = IngestionId(producer: string, epoch: string, offset: int)

  function Abs(n: int): nat { if n < 0 then -n else n }

  function Max(a: int, b: int): int { if a < b then b else a }

  function StatusText(s: Status): string {
    match s
    case Unknown => "unknown"
    case Degraded => "degraded"
    case Healthy => "healthy"
  }

  function QualityJson(q: TimeQuality): Json {
    Obj([
      Member("epoch", Str(q.epoch)),
      Member("status", Str(StatusText(q.status))),
      Member("offset_ns", OptionalInt(q.offset)),
      Member("uncertainty_ns", OptionalInt(q.uncertainty)),
      Member("evidence_age_ns", OptionalInt(q.age))])
  }

  function SampleJson(s: ClockSample): Json {
    Obj([
      Member("wall_time_ns", Int(s.wall)),
      Member("monotonic_ns", Int(s.monotonic)),
      Member("session_id", Str(s.session)),
      Member("quality", QualityJson(s.quality))])
  }
}
