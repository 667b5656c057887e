/** The framed archive: a header, then one bounded compressed frame for each raw record. */
module RawFramed {
  import opened Wrappers
  import opened Canonical
  import opened Domain
  import opened RawRecords

  const MAGIC: Bytes := "SCRAWZ1\n"
  const HEADER_SIZE := 24
  const FRAME_SIZE := 8

  datatype Limits = Limits(maxRecords: nat, maxEncoded: nat, maxDecoded: nat)

  /** The compressor and the record text, as far as the format depends on them. */
  datatype Format = Format(
    compress: Bytes -> Bytes,
    inflate: Bytes -> Option<Bytes>,          // of exactly one complete stream
    encode: RawRecord -> Option<Bytes>,
    decode: (Bytes, nat) -> Option<RawRecord>)

  ghost predicate Inverse(f: Format) {
    forall d :: f.inflate(f.compress(d)) == Some(d) && f.compress(d) != ""
  }

  ghost predicate Readable(f: Format) {
    && (forall r, limit: nat | f.encode(r).Some? && |f.encode(r).value| <= limit ::
          f.decode(f.encode(r).value, limit) == Some(r))
    && (forall d, limit: nat | f.decode(d, limit).Some? :: f.encode(f.decode(d, limit).value) == Some(d))
    && (forall r | f.encode(r).Some? :: f.encode(r).value != "")
  }

  ghost predicate Lawful(f: Format) { Inverse(f) && Readable(f) }

  function RecordFormat(
      hash: Bytes -> Digest, compress: Bytes -> Bytes, inflate: Bytes -> Option<Bytes>): Format
  {
    Format(compress, inflate, r => EncodeRecord(hash, r), (d, limit: nat) => DecodeRecord(hash, d, limit))
  }

  /** Raw records in their canonical text meet the demands, with any lossless compressor. */
  lemma {:induction false} RecordFormatLawful(
      hash: Bytes -> Digest, compress: Bytes -> Bytes, inflate: Bytes -> Option<Bytes>)
    requires forall d :: inflate(compress(d)) == Some(d) && compress(d) != ""
    ensures Lawful(RecordFormat(hash, compress, inflate))
  {
    hide EncodeRecord, DecodeRecord;
    var f := RecordFormat(hash, compress, inflate);
    forall r, limit: nat | f.encode(r).Some? && |f.encode(r).value| <= limit
      ensures f.decode(f.encode(r).value, limit) == Some(r)
    {
      PayloadFits(hash, r);
      DecodesExactly(hash, f.encode(r).value, limit, r);
    }
    forall d, limit: nat | f.decode(d, limit).Some? ensures f.encode(f.decode(d, limit).value) == Some(d) {
      DecodesExactly(hash, d, limit, f.decode(d, limit).value);
    }
    forall r | f.encode(r).Some? ensures f.encode(r).value != "" {
      PayloadFits(hash, r);
    }
  }

  // ----- big-endian numbers

  function Power256(w: nat): nat { if w == 0 then 1 else 256 * Power256(w - 1) }

  function BigEndian(n: nat, w: nat): (r: Bytes)
    ensures |r| == w
  {
    if w == 0 then "" else BigEndian(n / 256, w - 1) + [(n % 256) as char]
  }

  function FromBigEndian(s: Bytes): nat {
    if s == "" then 0 else FromBigEndian(s[..|s| - 1]) * 256 + s[|s| - 1] as int % 256
  }

  lemma {:induction false} BigEndianReads(n: nat, w: nat)
    requires n < Power256(w)
    ensures FromBigEndian(BigEndian(n, w)) == n
  {
    if w > 0 {
      var s := BigEndian(n, w);
      assert s[..w - 1] == BigEndian(n / 256, w - 1);
      BigEndianReads(n / 256, w - 1);
    }
  }

  // ----- the format

  function Frame(f: Format, data: Bytes): Bytes {
    BigEndian(|data|, 4) + BigEndian(|f.compress(data)|, 4) + f.compress(data)
  }

  function Text(f: Format, r: RawRecord): Bytes { f.encode(r).GetOr("") }

  function Frames(f: Format, records: seq<RawRecord>): Bytes {
    if records == [] then "" else Frame(f, Text(f, records[0])) + Frames(f, records[1..])
  }

  function LogicalBytes(f: Format, records: seq<RawRecord>): nat {
    if records == [] then 0 else |Text(f, records[0])| + LogicalBytes(f, records[1..])
  }

  function Header(count: nat, logical: nat): Bytes {
    MAGIC + BigEndian(count, 8) + BigEndian(logical, 8)
  }

  function FileOf(f: Format, records: seq<RawRecord>): Bytes {
    Header(|records|, LogicalBytes(f, records)) + Frames(f, records)
  }

  /** One producer, offsets strictly increasing after the given one. */
  predicate Ordered(records: seq<RawRecord>, producer: Option<string>, previous: int) {
    records != [] ==>
      && (producer.Some? ==> records[0].identity.producer == producer.value)
      && records[0].identity.offset > previous
      && Ordered(records[1..], Some(records[0].identity.producer), records[0].identity.offset)
  }

  predicate Encodable(f: Format, records: seq<RawRecord>) {
    forall r | r in records :: f.encode(r).Some?
  }

  /** What sealing demands of its records. */
  predicate Sealable(f: Format, limits: Limits, records: seq<RawRecord>) {
    && 0 < |records| <= limits.maxRecords
    && Ordered(records, None, 0)
    && Encodable(f, records)
    && LogicalBytes(f, records) <= limits.maxDecoded
  }

  predicate FrameFits(f: Format, r: RawRecord) {
    f.encode(r).Some? && |Text(f, r)| < Power256(4) && |f.compress(Text(f, r))| < Power256(4)
  }

  /** Every length fits the field it is written in. */
  predicate FieldsFit(f: Format, records: seq<RawRecord>) {
    && |records| < Power256(8) && LogicalBytes(f, records) < Power256(8)
    && forall r | r in records :: FrameFits(f, r)
  }

  // ----- the parser

  function ParseFrame(f: Format, s: Bytes, remaining: nat, limit: nat): Option<(RawRecord, nat, Bytes)> {
    if |s| < FRAME_SIZE then None
    else
      var decodedSize, encodedSize, body := FromBigEndian(s[..4]), FromBigEndian(s[4..8]), s[8..];
      if !(0 < decodedSize <= remaining) || !(0 < encodedSize <= |body|) then None
      else
        match f.inflate(body[..encodedSize])
        case None => None
        case Some(data) =>
          if |data| != decodedSize then None
          else
            match f.decode(data, limit)
            case None => None
            case Some(r) => Some((r, decodedSize, body[encodedSize..]))
  }

  /** The frames, exactly: no record too many, no byte left over, no logical byte missing. */
  function ParseFrames(
      f: Format, s: Bytes, count: nat, remaining: nat, producer: Option<string>, previous: int, limit: nat):
      Option<seq<RawRecord>>
  {
    if count == 0 then if remaining == 0 && s == "" then Some([]) else None
    else
      match ParseFrame(f, s, remaining, limit)
      case None => None
      case Some((r, size, rest)) =>
        if || (producer.Some? && r.identity.producer != producer.value)
           || r.identity.offset <= previous || size > remaining
        then None
        else
          match ParseFrames(f, rest, count - 1, remaining - size, Some(r.identity.producer), r.identity.offset, limit)
          case None => None
          case Some(more) => Some([r] + more)
  }

  function Parse(f: Format, limits: Limits, file: Bytes): Option<seq<RawRecord>> {
    if |file| > limits.maxEncoded || |file| < HEADER_SIZE || file[..8] != MAGIC then None
    else
      var count, logical := FromBigEndian(file[8..16]), FromBigEndian(file[16..24]);
      if !(0 < count <= limits.maxRecords) || !(0 < logical <= limits.maxDecoded) then None
      else ParseFrames(f, file[24..], count, logical, None, 0, limits.maxDecoded)
  }

  // ----- round trip

  lemma {:induction false} FrameReads(f: Format, r: RawRecord, rest: Bytes, remaining: nat, limit: nat)
    requires Lawful(f) && FrameFits(f, r)
    requires |Text(f, r)| <= remaining && |Text(f, r)| <= limit
    ensures ParseFrame(f, Frame(f, Text(f, r)) + rest, remaining, limit) == Some((r, |Text(f, r)|, rest))
  {
    hide BigEndian, FromBigEndian, Power256;
    var data := Text(f, r);
    var zip := f.compress(data);
    var s := Frame(f, data) + rest;
    BigEndianReads(|data|, 4);
    BigEndianReads(|zip|, 4);
    assert f.inflate(zip) == Some(data);
    assert s[..4] == BigEndian(|data|, 4) && s[4..8] == BigEndian(|zip|, 4);
    assert s[8..] == zip + rest;
    assert (zip + rest)[..|zip|] == zip && (zip + rest)[|zip|..] == rest;
  }

  lemma {:induction false} FramesCons(f: Format, records: seq<RawRecord>)
    requires records != []
    ensures LogicalBytes(f, records) == |Text(f, records[0])| + LogicalBytes(f, records[1..])
    ensures Frames(f, records) == Frame(f, Text(f, records[0])) + Frames(f, records[1..])
    ensures records == [records[0]] + records[1..] && records[0] in records
    ensures forall x | x in records[1..] :: x in records
  {
    hide Text, Frame;
  }

  lemma {:induction false} FramesRead(
      f: Format, records: seq<RawRecord>, producer: Option<string>, previous: int, limit: nat)
    requires Lawful(f) && Ordered(records, producer, previous)
    requires LogicalBytes(f, records) <= limit && forall r | r in records :: FrameFits(f, r)
    ensures ParseFrames(f, Frames(f, records), |records|, LogicalBytes(f, records), producer, previous, limit)
            == Some(records)
  {
    if records != [] {
      hide ParseFrame, ParseFrames, Lawful, FrameFits, Text, Frame, LogicalBytes, Frames;
      var r, rest := records[0], records[1..];
      FramesCons(f, records);
      var size, id := |Text(f, r)|, r.identity;
      FrameReads(f, r, Frames(f, rest), LogicalBytes(f, records), limit);
      FramesRead(f, rest, Some(id.producer), id.offset, limit);
    }
  }

  lemma {:induction false} HeaderReads(count: nat, logical: nat, rest: Bytes)
    requires count < Power256(8) && logical < Power256(8)
    ensures var s := Header(count, logical) + rest;
            && |s| >= HEADER_SIZE && s[..8] == MAGIC && s[24..] == rest
            && FromBigEndian(s[8..16]) == count && FromBigEndian(s[16..24]) == logical
  {
    hide BigEndian, FromBigEndian, Power256;
    var s := Header(count, logical) + rest;
    BigEndianReads(count, 8);
    BigEndianReads(logical, 8);
    assert s[8..16] == BigEndian(count, 8) && s[16..24] == BigEndian(logical, 8);
  }

  lemma {:induction false} SomethingLogical(f: Format, records: seq<RawRecord>)
    requires Lawful(f) && Encodable(f, records) && records != []
    ensures LogicalBytes(f, records) > 0
  {
    assert records[0] in records;
  }

  /** Main result: what sealing admits is parsed back, exactly and whole. */
  lemma {:induction false} SealedParses(f: Format, limits: Limits, records: seq<RawRecord>)
    requires Lawful(f) && Sealable(f, limits, records) && FieldsFit(f, records)
    requires |FileOf(f, records)| <= limits.maxEncoded
    ensures Parse(f, limits, FileOf(f, records)) == Some(records)
  {
    hide Lawful, Power256, Header, Frames, ParseFrames, Text, Ordered, Encodable;
    HeaderReads(|records|, LogicalBytes(f, records), Frames(f, records));
    FramesRead(f, records, None, 0, limits.maxDecoded);
    SomethingLogical(f, records);
  }

  // ----- whatever is accepted

  lemma {:induction false} ParsedFrame(f: Format, s: Bytes, remaining: nat, limit: nat)
    requires Lawful(f) && ParseFrame(f, s, remaining, limit).Some?
    ensures var (r, size, rest) := ParseFrame(f, s, remaining, limit).value;
            f.encode(r).Some? && size == |Text(f, r)| && size <= remaining
  {
  }

  lemma {:induction false} ParsedFrames(
      f: Format, s: Bytes, count: nat, remaining: nat, producer: Option<string>, previous: int, limit: nat)
    requires Lawful(f) && ParseFrames(f, s, count, remaining, producer, previous, limit).Some?
    ensures var records := ParseFrames(f, s, count, remaining, producer, previous, limit).value;
            |records| == count && Encodable(f, records) && Ordered(records, producer, previous)
            && LogicalBytes(f, records) == remaining
    decreases count
  {
    hide ParseFrame, Lawful, Text;
    if count > 0 {
      var (r, size, rest) := ParseFrame(f, s, remaining, limit).value;
      ParsedFrame(f, s, remaining, limit);
      ParsedFrames(f, rest, count - 1, remaining - size, Some(r.identity.producer), r.identity.offset, limit);
      var (producer', offset) := (Some(r.identity.producer), r.identity.offset);
      var more := ParseFrames(f, rest, count - 1, remaining - size, producer', offset, limit).value;
      assert ([r] + more)[1..] == more;
    }
  }

  /** An accepted file holds sealable records, and its header tells their size truly. */
  lemma {:induction false} ParsedIsSealable(f: Format, limits: Limits, file: Bytes)
    requires Lawful(f) && Parse(f, limits, file).Some?
    ensures var records := Parse(f, limits, file).value;
            && Sealable(f, limits, records)
            && |records| == FromBigEndian(file[8..16])
            && LogicalBytes(f, records) == FromBigEndian(file[16..24])
  {
    hide Lawful, ParseFrames, FromBigEndian, Ordered, Encodable;
    ParsedFrames(
      f, file[24..], FromBigEndian(file[8..16]), FromBigEndian(file[16..24]), None, 0, limits.maxDecoded);
  }

  lemma {:induction false} FrameExtended(f: Format, s: Bytes, x: Bytes, remaining: nat, limit: nat)
    requires ParseFrame(f, s, remaining, limit).Some?
    ensures var (r, size, rest) := ParseFrame(f, s, remaining, limit).value;
            ParseFrame(f, s + x, remaining, limit) == Some((r, size, rest + x))
  {
    hide FromBigEndian;
    var n := FromBigEndian(s[4..8]);
    assert (s + x)[..4] == s[..4] && (s + x)[4..8] == s[4..8] && (s + x)[8..] == s[8..] + x;
    assert (s[8..] + x)[..n] == s[8..][..n] && (s[8..] + x)[n..] == s[8..][n..] + x;
  }

  lemma {:induction false} FramesExtended(
      f: Format, s: Bytes, x: Bytes, count: nat, remaining: nat, producer: Option<string>, previous: int, limit: nat)
    requires ParseFrames(f, s, count, remaining, producer, previous, limit).Some? && x != ""
    ensures ParseFrames(f, s + x, count, remaining, producer, previous, limit).None?
    decreases count
  {
    hide ParseFrame;
    if count > 0 {
      var (r, size, rest) := ParseFrame(f, s, remaining, limit).value;
      FrameExtended(f, s, x, remaining, limit);
      FramesExtended(f, rest, x, count - 1, remaining - size, Some(r.identity.producer), r.identity.offset, limit);
    }
  }

  /**
   * Main result: of an accepted file no strict extension is accepted, and so no strict
   * prefix either, whatever digest it is stored under.
   */
  lemma {:induction false} PrefixFree(f: Format, limits: Limits, file: Bytes, x: Bytes)
    requires x != ""
    ensures !(Parse(f, limits, file).Some? && Parse(f, limits, file + x).Some?)
  {
    hide ParseFrames, FromBigEndian;
    if Parse(f, limits, file).Some? {
      var s := file + x;
      assert s[..8] == file[..8] && s[8..16] == file[8..16] && s[16..24] == file[16..24] && s[24..] == file[24..] + x;
      FramesExtended(
        f, file[24..], x, FromBigEndian(file[8..16]), FromBigEndian(file[16..24]), None, 0, limits.maxDecoded);
    }
  }

  // ----- sealing and reading

  lemma {:induction false} LogicalPrefix(f: Format, records: seq<RawRecord>, n: nat)
    requires n < |records|
    ensures LogicalBytes(f, records[..n + 1]) == LogicalBytes(f, records[..n]) + |Text(f, records[n])|
    ensures Frames(f, records[..n + 1]) == Frames(f, records[..n]) + Frame(f, Text(f, records[n]))
  {
    hide Text, Frame;
    if n == 0 {
      assert records[..1][1..] == [] && records[..0] == [];
    } else {
      assert records[..n + 1][1..] == records[1..][..n] && records[..n][1..] == records[1..][..n - 1];
      LogicalPrefix(f, records[1..], n - 1);
    }
  }

  lemma {:induction false} LogicalGrows(f: Format, records: seq<RawRecord>, n: nat)
    requires n <= |records|
    ensures LogicalBytes(f, records[..n]) <= LogicalBytes(f, records)
    decreases |records| - n
  {
    hide Text;
    if n < |records| {
      LogicalPrefix(f, records, n);
      LogicalGrows(f, records, n + 1);
    } else {
      assert records[..n] == records;
    }
  }

  lemma {:induction false} OrderedFollows(records: seq<RawRecord>, producer: Option<string>, previous: int, i: nat)
    requires Ordered(records, producer, previous) && i < |records|
    ensures FollowsAt(records, i, producer, previous)
  {
    if i > 0 { OrderedFollows(records[1..], Some(records[0].identity.producer), records[0].identity.offset, i - 1); }
  }

  lemma {:induction false} FollowsOrdered(records: seq<RawRecord>, producer: Option<string>, previous: int)
    requires forall i | 0 <= i < |records| :: FollowsAt(records, i, producer, previous)
    ensures Ordered(records, producer, previous)
  {
    if records != [] {
      var rest, id := records[1..], records[0].identity;
      assert FollowsAt(records, 0, producer, previous);
      forall i | 0 <= i < |rest| ensures FollowsAt(rest, i, Some(id.producer), id.offset) {
        assert FollowsAt(records, i + 1, producer, previous);
      }
      FollowsOrdered(rest, Some(id.producer), id.offset);
    }
  }

  /** The i-th record follows the one before it, or the given start. */
  predicate FollowsAt(records: seq<RawRecord>, i: nat, producer: Option<string>, previous: int)
    requires i < |records|
  {
    if i == 0 then
      (producer.Some? ==> records[0].identity.producer == producer.value) && records[0].identity.offset > previous
    else
      records[i].identity.producer == records[i - 1].identity.producer &&
      records[i].identity.offset > records[i - 1].identity.offset
  }

  /** Check the order of the records and add up their text, stopping at the limit. */
  method ValidatedLogicalBytes(f: Format, limits: Limits, records: seq<RawRecord>) returns (r: Option<nat>)
    ensures r.Some? <==> Sealable(f, limits, records)
    ensures r.Some? ==> r.value == LogicalBytes(f, records)
  {
    hide Text, Ordered;
    if records == [] || |records| > limits.maxRecords { return None; }
    var logical, previous := 0, 0;
    var producer := records[0].identity.producer;
    var i := 0;
    while i < |records|
      invariant 0 <= i <= |records|
      invariant i > 0 ==> producer == records[i - 1].identity.producer && previous == records[i - 1].identity.offset
      invariant i == 0 ==> producer == records[0].identity.producer && previous == 0
      invariant forall j | 0 <= j < i :: FollowsAt(records, j, None, 0) && f.encode(records[j]).Some?
      invariant logical == LogicalBytes(f, records[..i]) <= limits.maxDecoded
    {
      var id := records[i].identity;
      if id.producer != producer || id.offset <= previous {
        if Ordered(records, None, 0) { OrderedFollows(records, None, 0, i); }
        return None;
      }
      previous := id.offset;
      var data := f.encode(records[i]);
      if data.None? {
        assert records[i] in records;
        return None;
      }
      TextOf(f, records[i]);
      LogicalPrefix(f, records, i);
      LogicalGrows(f, records, i + 1);
      logical := logical + |data.value|;
      if logical > limits.maxDecoded { return None; }
      i := i + 1;
    }
    assert records[..i] == records;
    FollowsOrdered(records, None, 0);
    r := Some(logical);
  }

  lemma {:induction false} TextOf(f: Format, r: RawRecord)
    requires f.encode(r).Some?
    ensures Text(f, r) == f.encode(r).value
  {
  }

  /** Read the whole file, frame by frame. */
  method Walk(f: Format, limits: Limits, hash: Bytes -> Digest, file: Bytes, expected: Digest)
    returns (r: Option<seq<RawRecord>>)
    ensures r == if hash(file) == expected then Parse(f, limits, file) else None
  {
    hide ParseFrame;
    if |file| > limits.maxEncoded || |file| < HEADER_SIZE { return None; }
    if hash(file) != expected { return None; }
    var count, logical := FromBigEndian(file[8..16]), FromBigEndian(file[16..24]);
    if file[..8] != MAGIC || !(0 < count <= limits.maxRecords) || !(0 < logical <= limits.maxDecoded) { return None; }
    var rest, observed, previous := file[24..], 0, 0;
    var producer: Option<string> := None;
    var records: seq<RawRecord> := [];
    assert Parse(f, limits, file) == ParseFrames(f, rest, count, logical, None, 0, limits.maxDecoded);
    hide Parse;
    ContinuesFrom(Parse(f, limits, file));
    while |records| < count
      invariant |records| <= count && 0 <= observed <= logical
      invariant Continues(Parse(f, limits, file), records,
                          ParseFrames(
                            f, rest, count - |records|, logical - observed, producer, previous, limits.maxDecoded))
      decreases count - |records|
    {
      var frame := ParseFrame(f, rest, logical - observed, limits.maxDecoded);
      if frame.None? { return None; }
      var (record, size, after) := frame.value;
      if (producer.Some? && record.identity.producer != producer.value) || record.identity.offset <= previous ||
         size > logical - observed
      {
        return None;
      }
      producer, previous := Some(record.identity.producer), record.identity.offset;
      observed := observed + size;
      ContinuesWith(
        Parse(f, limits, file), records, record,
        ParseFrames(f, after, count - |records| - 1, logical - observed, producer, previous, limits.maxDecoded));
      rest, records := after, records + [record];
    }
    assert records + [] == records;
    r := if observed == logical && rest == "" then Some(records) else None;
  }

  /** The whole result, given the records so far and what the rest of the file gives. */
  predicate Continues(whole: Option<seq<RawRecord>>, sofar: seq<RawRecord>, more: Option<seq<RawRecord>>) {
    whole == if more.Some? then Some(sofar + more.value) else None
  }

  lemma {:induction false} ContinuesFrom(more: Option<seq<RawRecord>>)
    ensures Continues(more, [], more)
  {
    if more.Some? { assert [] + more.value == more.value; }
  }

  lemma {:induction false} ContinuesWith(
      whole: Option<seq<RawRecord>>, sofar: seq<RawRecord>, r: RawRecord, more: Option<seq<RawRecord>>)
    ensures Continues(whole, sofar, if more.Some? then Some([r] + more.value) else None)
            <==> Continues(whole, sofar + [r], more)
  {
    if more.Some? { assert sofar + ([r] + more.value) == sofar + [r] + more.value; }
  }

  /** One record by its position; the whole file is read and checked all the same. */
  method Read(
      f: Format, limits: Limits, hash: Bytes -> Digest, file: Bytes, segment: Digest, index: nat, identity: IngestionId)
    returns (r: Option<RawRecord>)
    ensures var all := Parse(f, limits, file);
            if hash(file) == segment && all.Some? && index < |all.value| && all.value[index].identity == identity
            then r == Some(all.value[index]) else r.None?
  {
    hide Parse;
    var all := Walk(f, limits, hash, file, segment);
    if all.None? { return None; }
    var selected: Option<RawRecord> := None;
    var i := 0;
    while i < |all.value|
      invariant 0 <= i <= |all.value|
      invariant selected == if index < i then Some(all.value[index]) else None
    {
      if i == index { selected := Some(all.value[i]); }
      i := i + 1;
    }
    if selected.None? || selected.value.identity != identity { return None; }
    r := selected;
  }

  /** Write one more frame, if its lengths fit their fields and the file stays within its limit. */
  method AddFrame(f: Format, limits: Limits, record: RawRecord, out: Bytes) returns (more: Option<Bytes>)
    requires f.encode(record).Some?
    ensures more.Some? <==> FrameFits(f, record) && |out| + |Frame(f, Text(f, record))| <= limits.maxEncoded
    ensures more.Some? ==> more.value == out + Frame(f, Text(f, record))
  {
    hide Power256, BigEndian;
    var data := f.encode(record).value;
    var zip := f.compress(data);
    if |out| + FRAME_SIZE + |zip| > limits.maxEncoded { return None; }
    if |data| >= Power256(4) || |zip| >= Power256(4) { return None; }
    more := Some(out + Frame(f, data));
  }

  /**
   * Main operation: validate, write header and frames, and read the result back. The
   * read-back is never what makes sealing fail.
   */
  method Seal(f: Format, limits: Limits, hash: Bytes -> Digest, records: seq<RawRecord>) returns (file: Option<Bytes>)
    requires Lawful(f)
    ensures file.Some? <==>
              Sealable(f, limits, records) && FieldsFit(f, records) && |FileOf(f, records)| <= limits.maxEncoded
    ensures file.Some? ==> file.value == FileOf(f, records) && Parse(f, limits, file.value) == Some(records)
  {
    hide Lawful, Parse, Sealable, Power256, Frame, Text, FrameFits;
    var logical := ValidatedLogicalBytes(f, limits, records);
    if logical.None? { return None; }
    AllEncodable(f, limits, records);
    if |records| >= Power256(8) || logical.value >= Power256(8) { return None; }
    var out := Header(|records|, logical.value);
    var i := 0;
    while i < |records|
      invariant 0 <= i <= |records| && forall j | 0 <= j < i :: FrameFits(f, records[j])
      invariant out == Header(|records|, logical.value) + Frames(f, records[..i])
      invariant i > 0 ==> |out| <= limits.maxEncoded
    {
      assert records[i] in records;
      LogicalPrefix(f, records, i);
      FramesGrow(f, records, i + 1);
      var more := AddFrame(f, limits, records[i], out);
      if more.None? { return None; }
      out := more.value;
      i := i + 1;
    }
    assert records[..i] == records;
    if |out| > limits.maxEncoded { return None; }
    SealedParses(f, limits, records);
    var back := Walk(f, limits, hash, out, hash(out));
    assert back == Some(records);
    file := Some(out);
  }

  lemma {:induction false} AllEncodable(f: Format, limits: Limits, records: seq<RawRecord>)
    requires Sealable(f, limits, records)
    ensures forall r | r in records :: f.encode(r).Some?
  {
  }

  lemma {:induction false} FramesGrow(f: Format, records: seq<RawRecord>, n: nat)
    requires n <= |records|
    ensures |Frames(f, records[..n])| <= |Frames(f, records)|
    decreases |records| - n
  {
    hide Text, Frame;
    if n < |records| {
      LogicalPrefix(f, records, n);
      FramesGrow(f, records, n + 1);
    } else {
      assert records[..n] == records;
    }
  }
}
