/**
 * canonical-json-v1: the encoding every hash in the system is taken over.
 *
 * A Python dict is an insertion-ordered list of members with distinct keys, so `Json`
 * keeps insertion order and `Meaning` forgets it. The printer sorts keys, escapes every
 * character outside printable ASCII and writes no white space; the grammar is that of
 * sections 4 to 7 of RFC 8259.
 */
module Canonical {
  import opened Wrappers

  /** Encoded text: one ASCII character a byte. */
  type Bytes = string

  const INT64_MIN := -0x8000_0000_0000_0000
  const INT64_MAX := 0x7fff_ffff_ffff_ffff
  const MAX_PAYLOAD := 65536

  datatype Member = Member(key: string, value: Json)

  datatype Json =
    | Null
    | Bool(flag: bool)
    | Int(number: int)
    | Str(text: string)
    | List(items: seq<Json>)
    | Obj(members: seq<Member>)

  /** What a JSON value denotes once the order of object members is forgotten. */
  datatype Value =
    | NullValue
    | BoolValue(flag: bool)
    | IntValue(number: int)
    | StrValue(text: string)
    | ListValue(items: seq<Value>)
    | ObjValue(members: map<string, Value>)

  function Meaning(v: Json): Value
    decreases v, 1
  {
    match v
    case Null => NullValue
    case Bool(b) => BoolValue(b)
    case Int(n) => IntValue(n)
    case Str(s) => StrValue(s)
    case List(items) => ListValue(ItemMeanings(items))
    case Obj(members) => ObjValue(MemberMeanings(members))
  }

  function ItemMeanings(items: seq<Json>): seq<Value>
    decreases items, 0
  {
    if items == [] then [] else [Meaning(items[0])] + ItemMeanings(items[1..])
  }

  function MemberMeanings(members: seq<Member>): map<string, Value>
    decreases members, 0
  {
    if members == [] then map[]
    else MemberMeanings(members[1..])[members[0].key := Meaning(members[0].value)]
  }

  // ----- the closed value domain

  predicate Valid(v: Json)
    decreases v, 1
  {
    match v
    case Int(n) => INT64_MIN <= n <= INT64_MAX
    case List(items) => ValidItems(items)
    case Obj(members) => Distinct(members) && ValidMembers(members)
    case _ => true
  }

  predicate ValidItems(items: seq<Json>)
    decreases items, 0
  {
    items == [] || (Valid(items[0]) && ValidItems(items[1..]))
  }

  predicate ValidMembers(members: seq<Member>)
    decreases members, 0
  {
    members == [] || (Valid(members[0].value) && ValidMembers(members[1..]))
  }

  predicate Distinct(members: seq<Member>) {
    members == [] ||
    (members[0].key !in Keys(members[1..]) && Distinct(members[1..]))
  }

  function Keys(members: seq<Member>): set<string> {
    set m | m in members :: m.key
  }

  // ----- sorting members by key, in code point order

  predicate Less(a: string, b: string) {
    if b == "" then false
    else if a == "" then true
    else a[0] < b[0] || (a[0] == b[0] && Less(a[1..], b[1..]))
  }

  lemma {:induction false} LessIrreflexive(a: string)
    ensures !Less(a, a)
  {
    if a != "" { LessIrreflexive(a[1..]); }
  }

  lemma {:induction false} LessIsStrictOrder(a: string, b: string, c: string)
    ensures a == b || Less(a, b) || Less(b, a)
    ensures !(Less(a, b) && Less(b, a))
    ensures Less(a, b) && Less(b, c) ==> Less(a, c)
    decreases |a| + |b| + |c|
  {
    if a != "" && b != "" {
      if a[0] == b[0] && a[1..] == b[1..] {
        assert a == [a[0]] + a[1..] && b == [b[0]] + b[1..];
      }
      LessIsStrictOrder(a[1..], b[1..], if c == "" then "" else c[1..]);
    }
  }

  ghost predicate Sorted(members: seq<Member>) {
    members == [] ||
    ((forall k | k in Keys(members[1..]) :: Less(members[0].key, k)) && Sorted(members[1..]))
  }

  function Insert(m: Member, members: seq<Member>): seq<Member> {
    if members == [] || Less(m.key, members[0].key) then [m] + members
    else [members[0]] + Insert(m, members[1..])
  }

  function SortMembers(members: seq<Member>): seq<Member> {
    if members == [] then [] else Insert(members[0], SortMembers(members[1..]))
  }

  /** The value as its encoding orders it: every object's members sorted by key. */
  function Canon(v: Json): Json
    decreases v, 1
  {
    match v
    case List(items) => List(CanonItems(items))
    case Obj(members) => Obj(SortMembers(CanonMembers(members)))
    case _ => v
  }

  function CanonItems(items: seq<Json>): seq<Json>
    decreases items, 0
  {
    if items == [] then [] else [Canon(items[0])] + CanonItems(items[1..])
  }

  function CanonMembers(members: seq<Member>): seq<Member>
    decreases members, 0
  {
    if members == [] then []
    else [Member(members[0].key, Canon(members[0].value))] + CanonMembers(members[1..])
  }

  ghost predicate Normal(v: Json)
    decreases v, 1
  {
    match v
    case List(items) => NormalItems(items)
    case Obj(members) => Sorted(members) && NormalMembers(members)
    case _ => true
  }

  ghost predicate NormalItems(items: seq<Json>)
    decreases items, 0
  {
    items == [] || (Normal(items[0]) && NormalItems(items[1..]))
  }

  ghost predicate NormalMembers(members: seq<Member>)
    decreases members, 0
  {
    members == [] || (Normal(members[0].value) && NormalMembers(members[1..]))
  }

  lemma {:induction false} ConsKeys(m: Member, members: seq<Member>)
    ensures Keys([m] + members) == {m.key} + Keys(members)
    ensures ([m] + members)[1..] == members
  {
  }

  lemma {:induction false} InsertKeys(m: Member, members: seq<Member>)
    ensures Keys(Insert(m, members)) == Keys(members) + {m.key}
  {
    ConsKeys(m, members);
    if members != [] && !Less(m.key, members[0].key) {
      var head, rest := members[0], members[1..];
      assert members == [head] + rest;
      ConsKeys(head, rest);
      InsertKeys(m, rest);
      ConsKeys(head, Insert(m, rest));
    }
  }

  lemma {:induction false} ConsMeaning(m: Member, members: seq<Member>)
    ensures MemberMeanings([m] + members) == MemberMeanings(members)[m.key := Meaning(m.value)]
  {
    assert ([m] + members)[1..] == members;
  }

  lemma {:induction false} InsertMeaning(m: Member, members: seq<Member>)
    requires m.key !in Keys(members)
    ensures MemberMeanings(Insert(m, members)) == MemberMeanings(members)[m.key := Meaning(m.value)]
  {
    hide Meaning, Less, MemberMeanings;
    if members == [] || Less(m.key, members[0].key) {
      ConsMeaning(m, members);
    } else {
      var head, rest := members[0], members[1..];
      assert members == [head] + rest;
      ConsKeys(head, rest);
      InsertMeaning(m, rest);
      ConsMeaning(head, Insert(m, rest));
      ConsMeaning(head, rest);
    }
  }

  lemma {:induction false} InsertShape(m: Member, members: seq<Member>)
    ensures ValidMembers(members) && Valid(m.value) ==> ValidMembers(Insert(m, members))
    ensures NormalMembers(members) && Normal(m.value) ==> NormalMembers(Insert(m, members))
  {
    if members == [] || Less(m.key, members[0].key) {
      assert ([m] + members)[1..] == members;
    } else {
      InsertShape(m, members[1..]);
      assert Insert(m, members)[1..] == Insert(m, members[1..]);
    }
  }

  lemma {:induction false} InsertSorts(m: Member, members: seq<Member>)
    requires Sorted(members) && m.key !in Keys(members)
    ensures Sorted(Insert(m, members))
  {
    ConsKeys(m, members);
    if members != [] {
      var head, rest := members[0], members[1..];
      assert members == [head] + rest;
      ConsKeys(head, rest);
      if Less(m.key, head.key) {
        forall k | k in Keys(members) ensures Less(m.key, k) {
          LessIsStrictOrder(m.key, head.key, k);
        }
      } else {
        LessIsStrictOrder(m.key, head.key, "");
        InsertSorts(m, rest);
        InsertKeys(m, rest);
        ConsKeys(head, Insert(m, rest));
      }
    }
  }

  lemma {:induction false} SortedDistinct(members: seq<Member>)
    requires Sorted(members)
    ensures Distinct(members)
  {
    if members != [] {
      LessIrreflexive(members[0].key);
      SortedDistinct(members[1..]);
    }
  }

  lemma {:induction false} SortKeeps(members: seq<Member>)
    requires Distinct(members)
    ensures Sorted(SortMembers(members)) && Keys(SortMembers(members)) == Keys(members)
    ensures MemberMeanings(SortMembers(members)) == MemberMeanings(members)
    ensures ValidMembers(members) ==> ValidMembers(SortMembers(members))
    ensures NormalMembers(members) ==> NormalMembers(SortMembers(members))
  {
    if members != [] {
      assert members == [members[0]] + members[1..];
      ConsKeys(members[0], members[1..]);
      SortKeeps(members[1..]);
      InsertKeys(members[0], SortMembers(members[1..]));
      InsertMeaning(members[0], SortMembers(members[1..]));
      InsertShape(members[0], SortMembers(members[1..]));
      InsertSorts(members[0], SortMembers(members[1..]));
    }
  }

  /** Reordering for the encoder changes neither validity nor meaning, and normalizes. */
  lemma {:induction false} CanonKeeps(v: Json)
    requires Valid(v)
    ensures Valid(Canon(v)) && Normal(Canon(v)) && Meaning(Canon(v)) == Meaning(v)
    decreases v, 1
  {
    match v
    case List(items) => CanonItemsKeep(items);
    case Obj(members) =>
      CanonMembersKeep(members);
      SortKeeps(CanonMembers(members));
      SortedDistinct(SortMembers(CanonMembers(members)));
    case _ =>
  }

  lemma {:induction false} CanonItemsKeep(items: seq<Json>)
    requires ValidItems(items)
    ensures ValidItems(CanonItems(items)) && NormalItems(CanonItems(items))
    ensures ItemMeanings(CanonItems(items)) == ItemMeanings(items)
    decreases items, 0
  {
    if items != [] {
      CanonKeeps(items[0]);
      CanonItemsKeep(items[1..]);
      assert CanonItems(items)[1..] == CanonItems(items[1..]);
    }
  }

  lemma {:induction false} CanonMembersKeep(members: seq<Member>)
    requires Distinct(members) && ValidMembers(members)
    ensures Distinct(CanonMembers(members)) && Keys(CanonMembers(members)) == Keys(members)
    ensures ValidMembers(CanonMembers(members)) && NormalMembers(CanonMembers(members))
    ensures MemberMeanings(CanonMembers(members)) == MemberMeanings(members)
    decreases members, 0
  {
    if members != [] {
      assert members == [members[0]] + members[1..];
      ConsKeys(members[0], members[1..]);
      CanonKeeps(members[0].value);
      CanonMembersKeep(members[1..]);
      ConsKeys(Member(members[0].key, Canon(members[0].value)), CanonMembers(members[1..]));
    }
  }

  // ----- a normal value is determined by its meaning

  lemma {:induction false} MeaningKeys(members: seq<Member>)
    ensures MemberMeanings(members).Keys == Keys(members)
  {
    if members != [] {
      assert members == [members[0]] + members[1..];
      ConsKeys(members[0], members[1..]);
      MeaningKeys(members[1..]);
    }
  }

  lemma {:induction false} NormalUnique(a: Json, b: Json)
    requires Normal(a) && Normal(b) && Meaning(a) == Meaning(b)
    ensures a == b
    decreases a, 1
  {
    match a
    case List(items) => NormalItemsUnique(items, b.items);
    case Obj(members) => NormalMembersUnique(members, b.members);
    case _ =>
  }

  lemma {:induction false} NormalItemsUnique(a: seq<Json>, b: seq<Json>)
    requires NormalItems(a) && NormalItems(b) && ItemMeanings(a) == ItemMeanings(b)
    ensures a == b
    decreases a, 0
  {
    if a != [] && b != [] {
      assert ItemMeanings(a)[0] == Meaning(a[0]) && ItemMeanings(b)[0] == Meaning(b[0]);
      assert ItemMeanings(a)[1..] == ItemMeanings(a[1..]) && ItemMeanings(b)[1..] == ItemMeanings(b[1..]);
      NormalUnique(a[0], b[0]);
      NormalItemsUnique(a[1..], b[1..]);
      assert a == [a[0]] + a[1..] && b == [b[0]] + b[1..];
    }
  }

  /** The least key of a sorted object is its first; dropping it drops that binding. */
  lemma {:induction false} HeadOfSorted(members: seq<Member>)
    requires Sorted(members) && members != []
    ensures members[0].key in Keys(members)
    ensures forall k | k in Keys(members) :: k == members[0].key || Less(members[0].key, k)
    ensures MemberMeanings(members[1..]) == MemberMeanings(members) - {members[0].key}
  {
    var head, rest := members[0], members[1..];
    assert members == [head] + rest;
    ConsKeys(head, rest);
    MeaningKeys(rest);
    LessIrreflexive(head.key);
  }

  lemma {:induction false} NormalMembersUnique(a: seq<Member>, b: seq<Member>)
    requires Sorted(a) && Sorted(b) && NormalMembers(a) && NormalMembers(b)
    requires MemberMeanings(a) == MemberMeanings(b)
    ensures a == b
    decreases a, 0
  {
    MeaningKeys(a);
    MeaningKeys(b);
    if a == [] {
      if b != [] { HeadOfSorted(b); }
    } else if b == [] {
      HeadOfSorted(a);
    } else {
      HeadOfSorted(a);
      HeadOfSorted(b);
      LessIsStrictOrder(a[0].key, b[0].key, "");
      assert a[0].key == b[0].key;
      assert MemberMeanings(a)[a[0].key] == Meaning(a[0].value);
      assert MemberMeanings(b)[b[0].key] == Meaning(b[0].value);
      NormalUnique(a[0].value, b[0].value);
      NormalMembersUnique(a[1..], b[1..]);
      assert a == [a[0]] + a[1..] && b == [b[0]] + b[1..];
    }
  }

  // ----- printing

  function Digit(n: int): char
    requires 0 <= n < 10
  {
    n as char + '0'
  }

  function Decimal(n: nat): (s: Bytes) {
    if n < 10 then [Digit(n)] else Decimal(n / 10) + [Digit(n % 10)]
  }

  function PrintInt(n: int): Bytes {
    if n < 0 then "-" + Decimal(-n) else Decimal(n)
  }

  function HexDigit(n: int): char
    requires 0 <= n < 16
  {
    if n < 10 then n as char + '0' else (n - 10) as char + 'a'
  }

  function Unicode(n: int): (r: Bytes)
    requires 0 <= n < 0x10000
    ensures |r| == 6 && r[0] == '\\' && r[1] == 'u'
  {
    ['\\', 'u', HexDigit(n / 4096), HexDigit(n / 256 % 16), HexDigit(n / 16 % 16), HexDigit(n % 16)]
  }

  function EscapeChar(c: char): Bytes {
    if c == '\"' then ['\\', '\"']
    else if c == '\\' then ['\\', '\\']
    else if c == '\n' then ['\\', 'n']
    else if c == '\r' then ['\\', 'r']
    else if c == '\t' then ['\\', 't']
    else if c == '\U{8}' then ['\\', 'b']
    else if c == '\U{c}' then ['\\', 'f']
    else if ' ' <= c <= '~' then [c]
    else if c as int < 0x10000 then Unicode(c as int)
    else
      var n := c as int - 0x10000;
      Unicode(0xd800 + n / 1024) + Unicode(0xdc00 + n % 1024)
  }

  function Escape(s: string): Bytes {
    if s == "" then "" else EscapeChar(s[0]) + Escape(s[1..])
  }

  function Quote(s: string): Bytes {
    ['\"'] + Escape(s) + ['\"']
  }

  function Print(v: Json): Bytes
    decreases v, 1
  {
    match v
    case Null => "null"
    case Bool(b) => if b then "true" else "false"
    case Int(n) => PrintInt(n)
    case Str(s) => Quote(s)
    case List(items) => "[" + PrintItems(items) + "]"
    case Obj(members) => "{" + PrintMembers(members) + "}"
  }

  function PrintItems(items: seq<Json>): Bytes
    decreases items, 0
  {
    if items == [] then ""
    else if |items| == 1 then Print(items[0])
    else Print(items[0]) + "," + PrintItems(items[1..])
  }

  function PrintMembers(members: seq<Member>): Bytes
    decreases members, 0
  {
    if members == [] then ""
    else
      var first := Quote(members[0].key) + ":" + Print(members[0].value);
      if |members| == 1 then first else first + "," + PrintMembers(members[1..])
  }

  /** The canonical bytes of a value; a value outside the closed domain has none. */
  function Encode(v: Json): Bytes {
    Print(Canon(v))
  }

  // ----- parsing

  predicate IsDigit(c: char) { '0' <= c <= '9' }

  function DigitRun(s: Bytes): (n: nat)
    ensures n <= |s|
  {
    if s == "" || !IsDigit(s[0]) then 0 else 1 + DigitRun(s[1..])
  }

  function ToNat(s: Bytes): nat
    requires forall c | c in s :: IsDigit(c)
  {
    if s == "" then 0
    else
      var last := s[|s| - 1];
      assert IsDigit(last);
      ToNat(s[..|s| - 1]) * 10 + (last as int - '0' as int)
  }

  lemma {:induction false} DigitRunIsDigits(s: Bytes)
    ensures forall c | c in s[..DigitRun(s)] :: IsDigit(c)
  {
    if s != "" && IsDigit(s[0]) {
      DigitRunIsDigits(s[1..]);
      assert s[..DigitRun(s)] == [s[0]] + s[1..][..DigitRun(s[1..])];
    }
  }

  function ParseNat(s: Bytes): (r: Option<(nat, Bytes)>)
    ensures r.Some? ==> |r.value.1| < |s|
  {
    var k := DigitRun(s);
    DigitRunIsDigits(s);
    if k == 0 || (s[0] == '0' && k > 1) then None else Some((ToNat(s[..k]), s[k..]))
  }

  function ParseInt(s: Bytes): (r: Option<(int, Bytes)>)
    ensures r.Some? ==> |r.value.1| < |s|
  {
    if s != "" && s[0] == '-' then
      match ParseNat(s[1..])
      case None => None
      case Some((n, rest)) => Some((0 - n as int, rest))
    else
      match ParseNat(s)
      case None => None
      case Some((n, rest)) => Some((n, rest))
  }

  function FromHex(c: char): Option<int> {
    if '0' <= c <= '9' then Some(c as int - '0' as int)
    else if 'a' <= c <= 'f' then Some(c as int - 'a' as int + 10)
    else if 'A' <= c <= 'F' then Some(c as int - 'A' as int + 10)
    else None
  }

  /** The code unit of a leading `\uXXXX`. */
  function ParseUnicode(s: Bytes): (r: Option<int>)
    ensures r.Some? ==> |s| >= 6 && 0 <= r.value < 0x10000
  {
    if |s| < 6 || s[0] != '\\' || s[1] != 'u' then None
    else
      var a, b, c, d := FromHex(s[2]), FromHex(s[3]), FromHex(s[4]), FromHex(s[5]);
      if a.None? || b.None? || c.None? || d.None? then None
      else Some(a.value * 4096 + b.value * 256 + c.value * 16 + d.value)
  }

  function ParseChar(s: Bytes): (r: Option<(char, Bytes)>)
    requires s != ""
    ensures r.Some? ==> |r.value.1| < |s|
  {
    if s[0] != '\\' then
      if s[0] < ' ' then None else Some((s[0], s[1..]))
    else if |s| < 2 then None
    else if s[1] == '\"' || s[1] == '\\' || s[1] == '/' then Some((s[1], s[2..]))
    else if s[1] == 'n' then Some(('\n', s[2..]))
    else if s[1] == 'r' then Some(('\r', s[2..]))
    else if s[1] == 't' then Some(('\t', s[2..]))
    else if s[1] == 'b' then Some(('\U{8}', s[2..]))
    else if s[1] == 'f' then Some(('\U{c}', s[2..]))
    else
      var unit := ParseUnicode(s);
      if unit.None? then None
      else if unit.value < 0xd800 || 0xe000 <= unit.value then Some((unit.value as char, s[6..]))
      else
        var low := ParseUnicode(s[6..]);
        if unit.value < 0xdc00 && low.Some? && 0xdc00 <= low.value < 0xe000 then
          Some(((0x10000 + (unit.value - 0xd800) * 1024 + (low.value - 0xdc00)) as char, s[12..]))
        else None
  }

  /** The text up to the closing quote, and what follows it. */
  function ParseText(s: Bytes): (r: Option<(string, Bytes)>)
    ensures r.Some? ==> |r.value.1| < |s|
    decreases |s|
  {
    if s == "" then None
    else if s[0] == '\"' then Some(("", s[1..]))
    else
      match ParseChar(s)
      case None => None
      case Some((c, rest)) =>
        match ParseText(rest)
        case None => None
        case Some((text, after)) => Some(([c] + text, after))
  }

  function ParseValue(s: Bytes): (r: Option<(Json, Bytes)>)
    ensures r.Some? ==> |r.value.1| < |s|
    decreases |s|, 0
  {
    if s == "" then None
    else if s[0] == '\"' then
      match ParseText(s[1..])
      case None => None
      case Some((text, rest)) => Some((Str(text), rest))
    else if s[0] == '[' then
      if |s| > 1 && s[1] == ']' then Some((List([]), s[2..]))
      else
        match ParseItems(s[1..])
        case None => None
        case Some((items, rest)) => Some((List(items), rest))
    else if s[0] == '{' then
      if |s| > 1 && s[1] == '}' then Some((Obj([]), s[2..]))
      else
        match ParseMembers(s[1..])
        case None => None
        case Some((members, rest)) => if Distinct(members) then Some((Obj(members), rest)) else None
    else if "null" <= s then Some((Null, s[4..]))
    else if "true" <= s then Some((Bool(true), s[4..]))
    else if "false" <= s then Some((Bool(false), s[5..]))
    else
      match ParseInt(s)
      case None => None
      case Some((n, rest)) => Some((Int(n), rest))
  }

  function ParseItems(s: Bytes): (r: Option<(seq<Json>, Bytes)>)
    ensures r.Some? ==> |r.value.1| < |s|
    decreases |s|, 1
  {
    match ParseValue(s)
    case None => None
    case Some((v, rest)) =>
      if rest == "" then None
      else if rest[0] == ']' then Some(([v], rest[1..]))
      else if rest[0] != ',' then None
      else
        match ParseItems(rest[1..])
        case None => None
        case Some((items, after)) => Some(([v] + items, after))
  }

  function ParseMembers(s: Bytes): (r: Option<(seq<Member>, Bytes)>)
    ensures r.Some? ==> |r.value.1| < |s|
    decreases |s|, 1
  {
    if s == "" || s[0] != '\"' then None
    else
      match ParseText(s[1..])
      case None => None
      case Some((key, colon)) =>
        if colon == "" || colon[0] != ':' then None
        else
          match ParseValue(colon[1..])
          case None => None
          case Some((v, rest)) =>
            if rest == "" then None
            else if rest[0] == '}' then Some(([Member(key, v)], rest[1..]))
            else if rest[0] != ',' then None
            else
              match ParseMembers(rest[1..])
              case None => None
              case Some((members, after)) => Some(([Member(key, v)] + members, after))
  }

  function Loads(data: Bytes): Option<Json> {
    match ParseValue(data)
    case None => None
    case Some((v, rest)) => if rest == "" then Some(v) else None
  }

  // ----- round trips

  lemma {:induction false} DecimalDigits(n: nat)
    ensures Decimal(n) != "" && (forall c | c in Decimal(n) :: IsDigit(c))
    ensures ToNat(Decimal(n)) == n
    ensures Decimal(n)[0] == '0' ==> |Decimal(n)| == 1
  {
    if n >= 10 {
      DecimalDigits(n / 10);
      var d := Decimal(n);
      assert d[..|d| - 1] == Decimal(n / 10);
    }
  }

  lemma {:induction false} DigitRunOf(digits: Bytes, rest: Bytes)
    requires forall c | c in digits :: IsDigit(c)
    requires rest == "" || !IsDigit(rest[0])
    ensures DigitRun(digits + rest) == |digits|
  {
    if digits == "" {
      assert digits + rest == rest;
    } else {
      assert (digits + rest)[1..] == digits[1..] + rest;
      DigitRunOf(digits[1..], rest);
    }
  }

  lemma {:induction false} NatRoundTrip(n: nat, rest: Bytes)
    requires rest == "" || !IsDigit(rest[0])
    ensures ParseNat(Decimal(n) + rest) == Some((n, rest))
  {
    var d := Decimal(n);
    DecimalDigits(n);
    DigitRunOf(d, rest);
    assert (d + rest)[..|d|] == d && (d + rest)[|d|..] == rest;
    assert (d + rest)[0] == d[0];
  }

  lemma {:induction false} IntRoundTrip(n: int, rest: Bytes)
    requires rest == "" || !IsDigit(rest[0])
    ensures ParseInt(PrintInt(n) + rest) == Some((n, rest))
    ensures PrintInt(n) != "" && (PrintInt(n)[0] == '-' || IsDigit(PrintInt(n)[0]))
  {
    hide ParseNat, Decimal;
    var a := if n < 0 then -n else n;
    DecimalDigits(a);
    assert Decimal(a)[0] in Decimal(a);
    NatRoundTrip(a, rest);
    if n < 0 {
      assert (PrintInt(n) + rest)[1..] == Decimal(a) + rest;
    } else {
      assert (PrintInt(n) + rest)[0] == Decimal(a)[0];
    }
  }

  lemma {:induction false} HexRoundTrip(n: int)
    requires 0 <= n < 16
    ensures FromHex(HexDigit(n)) == Some(n)
  {
  }

  lemma {:induction false} FourDigits(n: int)
    requires 0 <= n < 0x10000
    ensures n == n / 4096 * 4096 + n / 256 % 16 * 256 + n / 16 % 16 * 16 + n % 16
    ensures n / 4096 < 16
  {
    var p := n / 16;
    var q := p / 16;
    assert q == n / 256 && q / 16 == n / 4096;
  }

  lemma {:induction false} ParseHexDigits(s: Bytes, a: int, b: int, c: int, d: int)
    requires 0 <= a < 16 && 0 <= b < 16 && 0 <= c < 16 && 0 <= d < 16
    requires |s| >= 6 && s[0] == '\\' && s[1] == 'u'
    requires s[2] == HexDigit(a) && s[3] == HexDigit(b) && s[4] == HexDigit(c) && s[5] == HexDigit(d)
    ensures ParseUnicode(s) == Some(a * 4096 + b * 256 + c * 16 + d)
  {
    HexRoundTrip(a);
    HexRoundTrip(b);
    HexRoundTrip(c);
    HexRoundTrip(d);
  }

  lemma {:induction false} UnicodeRoundTrip(n: int, rest: Bytes)
    requires 0 <= n < 0x10000
    ensures ParseUnicode(Unicode(n) + rest) == Some(n)
    ensures (Unicode(n) + rest)[6..] == rest
  {
    hide ParseUnicode, HexDigit, FromHex;
    FourDigits(n);
    ParseHexDigits(Unicode(n) + rest, n / 4096, n / 256 % 16, n / 16 % 16, n % 16);
  }

  lemma {:induction false} ShortEscapeRoundTrip(c: char, rest: Bytes)
    requires |EscapeChar(c)| <= 2
    ensures ParseChar(EscapeChar(c) + rest) == Some((c, rest))
  {
    var s := EscapeChar(c) + rest;
    if |EscapeChar(c)| == 2 {
      assert s[2..] == rest;
    } else {
      assert s[1..] == rest;
    }
  }

  lemma {:induction false} LongEscapeRoundTrip(c: char, rest: Bytes)
    requires c as int < 0x10000 && EscapeChar(c) == Unicode(c as int)
    ensures ParseChar(EscapeChar(c) + rest) == Some((c, rest))
  {
    hide EscapeChar, ParseUnicode, Unicode;
    var s := EscapeChar(c) + rest;
    UnicodeRoundTrip(c as int, rest);
    assert s[0] == '\\' && s[1] == 'u';
  }

  lemma {:induction false} PairRoundTrip(c: char, rest: Bytes)
    requires c as int >= 0x10000
    ensures ParseChar(EscapeChar(c) + rest) == Some((c, rest))
  {
    hide ParseUnicode, Unicode;
    var n := c as int - 0x10000;
    var high, low := 0xd800 + n / 1024, 0xdc00 + n % 1024;
    var s := EscapeChar(c) + rest;
    assert EscapeChar(c) == Unicode(high) + Unicode(low);
    assert s == Unicode(high) + (Unicode(low) + rest);
    UnicodeRoundTrip(high, Unicode(low) + rest);
    UnicodeRoundTrip(low, rest);
    assert s[0] == '\\' && s[1] == 'u';
    assert s[6..] == Unicode(low) + rest;
    assert s[12..] == s[6..][6..];
    assert 0x10000 + (high - 0xd800) * 1024 + (low - 0xdc00) == c as int;
  }

  lemma {:induction false} EscapeForms(c: char)
    ensures EscapeChar(c) != "" && EscapeChar(c)[0] != '\"'
    ensures c as int < 0x10000 && |EscapeChar(c)| > 2 ==> EscapeChar(c) == Unicode(c as int)
  {
    hide Unicode;
  }

  lemma {:induction false} CharRoundTrip(c: char, rest: Bytes)
    ensures EscapeChar(c) != "" && EscapeChar(c)[0] != '\"'
    ensures ParseChar(EscapeChar(c) + rest) == Some((c, rest))
  {
    hide EscapeChar, ParseChar, Unicode;
    EscapeForms(c);
    if c as int >= 0x10000 {
      PairRoundTrip(c, rest);
    } else if |EscapeChar(c)| <= 2 {
      ShortEscapeRoundTrip(c, rest);
    } else {
      LongEscapeRoundTrip(c, rest);
    }
  }

  lemma {:induction false} ParseTextStep(s: Bytes, c: char, rest: Bytes, text: string, after: Bytes)
    requires s != "" && s[0] != '\"' && ParseChar(s) == Some((c, rest))
    requires ParseText(rest) == Some((text, after))
    ensures ParseText(s) == Some(([c] + text, after))
  {
  }

  lemma {:induction false} EscapeStep(text: string, tail: Bytes)
    requires text != ""
    ensures Escape(text) + tail == EscapeChar(text[0]) + (Escape(text[1..]) + tail)
  {
    hide EscapeChar;
  }

  lemma {:induction false} ParseTextEnd(rest: Bytes)
    ensures ParseText(Escape("") + (['\"'] + rest)) == Some(("", rest))
  {
    assert Escape("") + (['\"'] + rest) == ['\"'] + rest;
  }

  lemma {:induction false} TextRoundTrip(text: string, rest: Bytes)
    ensures ParseText(Escape(text) + (['\"'] + rest)) == Some((text, rest))
  {
    hide EscapeChar, ParseChar, Escape, ParseText;
    if text == "" {
      ParseTextEnd(rest);
    } else {
      var tail := ['\"'] + rest;
      var after := Escape(text[1..]) + tail;
      EscapeStep(text, tail);
      CharRoundTrip(text[0], after);
      TextRoundTrip(text[1..], rest);
      ParseTextStep(EscapeChar(text[0]) + after, text[0], after, text[1..], rest);
      assert text == [text[0]] + text[1..];
    }
  }

  /** Text in lower-case letters and digits needs no escapes. */
  lemma {:induction false} PlainText(s: string)
    requires forall c | c in s :: ' ' <= c <= '~' && c != '\"' && c != '\\'
    ensures |Escape(s)| == |s|
  {
    if s != "" {
      assert s[0] in s;
      forall c | c in s[1..] ensures c in s {
      }
      PlainText(s[1..]);
    }
  }

  lemma {:induction false} EscapeSize(s: string)
    ensures |Escape(s)| <= 12 * |s|
  {
    if s != "" { EscapeSize(s[1..]); }
  }

  lemma {:induction false} QuoteRoundTrip(text: string, rest: Bytes)
    ensures (Quote(text) + rest)[0] == '\"'
    ensures ParseText((Quote(text) + rest)[1..]) == Some((text, rest))
  {
    assert (Quote(text) + rest)[1..] == Escape(text) + (['\"'] + rest);
    TextRoundTrip(text, rest);
  }

  /** What may follow a value in a larger text: anything that cannot extend a number. */
  predicate Delimited(rest: Bytes) {
    rest == "" || !IsDigit(rest[0])
  }

  lemma {:induction false} PrintHead(v: Json)
    ensures Print(v) != "" && Print(v)[0] != ']' && Print(v)[0] != '}'
  {
    if v.Int? { IntRoundTrip(v.number, ""); }
  }

  lemma {:induction false} ScalarRoundTrip(v: Json, rest: Bytes)
    requires Delimited(rest) && !v.List? && !v.Obj?
    ensures ParseValue(Print(v) + rest) == Some((v, rest))
  {
    var s := Print(v) + rest;
    match v
    case Null => assert s[4..] == rest;
    case Bool(b) => assert s[0] == Print(v)[0] && s[(if b then 4 else 5)..] == rest;
    case Int(n) =>
      IntRoundTrip(n, rest);
      assert s[0] == PrintInt(n)[0];
    case Str(text) => QuoteRoundTrip(text, rest);
  }

  lemma {:induction false} ParseList(items: seq<Json>, body: Bytes, rest: Bytes)
    requires body != "" && body[0] != ']' && ParseItems(body) == Some((items, rest))
    ensures ParseValue("[" + body) == Some((List(items), rest))
  {
    assert ("[" + body)[1..] == body;
  }

  lemma {:induction false} ParseObject(members: seq<Member>, body: Bytes, rest: Bytes)
    requires body != "" && body[0] != '}' && ParseMembers(body) == Some((members, rest)) && Distinct(members)
    ensures ParseValue("{" + body) == Some((Obj(members), rest))
  {
    assert ("{" + body)[1..] == body;
  }

  lemma {:induction false} ValueRoundTrip(v: Json, rest: Bytes)
    requires Valid(v) && Delimited(rest)
    ensures ParseValue(Print(v) + rest) == Some((v, rest))
    decreases v, 1
  {
    if v.List? {
      ListRoundTrip(v.items, rest);
    } else if v.Obj? {
      ObjectRoundTrip(v.members, rest);
    } else {
      ScalarRoundTrip(v, rest);
    }
  }

  lemma {:induction false} ListText(items: seq<Json>, rest: Bytes)
    ensures Print(List(items)) + rest == "[" + (PrintItems(items) + ("]" + rest))
    ensures items == [] ==> ParseValue(Print(List(items)) + rest) == Some((List(items), rest))
  {
    hide PrintItems, ParseItems, ParseMembers, ParseInt, ParseText;
    if items == [] {
      assert PrintItems(items) == "" by { EmptyText(); }
      assert Print(List(items)) + rest == "[]" + rest;
      assert ("[]" + rest)[2..] == rest;
    }
  }

  lemma {:induction false} EmptyText()
    ensures PrintItems([]) == "" && PrintMembers([]) == ""
  {
  }

  lemma {:induction false} ListRoundTrip(items: seq<Json>, rest: Bytes)
    requires ValidItems(items)
    ensures ParseValue(Print(List(items)) + rest) == Some((List(items), rest))
    decreases items, 1
  {
    hide ParseValue, ParseItems, PrintItems, Print;
    ListText(items, rest);
    if items != [] {
      var body := PrintItems(items) + ("]" + rest);
      ItemsRoundTrip(items, rest);
      PrintHead(items[0]);
      ItemsText(items, rest);
      assert body[0] == Print(items[0])[0];
      ParseList(items, body, rest);
    }
  }

  lemma {:induction false} ObjectText(members: seq<Member>, rest: Bytes)
    ensures Print(Obj(members)) + rest == "{" + (PrintMembers(members) + ("}" + rest))
    ensures members == [] ==> ParseValue(Print(Obj(members)) + rest) == Some((Obj(members), rest))
  {
    hide PrintMembers, ParseItems, ParseMembers, ParseInt, ParseText;
    if members == [] {
      assert PrintMembers(members) == "" by { EmptyText(); }
      assert Print(Obj(members)) + rest == "{}" + rest;
      assert ("{}" + rest)[2..] == rest;
    }
  }

  lemma {:induction false} ObjectRoundTrip(members: seq<Member>, rest: Bytes)
    requires Distinct(members) && ValidMembers(members)
    ensures ParseValue(Print(Obj(members)) + rest) == Some((Obj(members), rest))
    decreases members, 1
  {
    hide ParseValue, ParseMembers, PrintMembers, Print, Distinct;
    ObjectText(members, rest);
    if members != [] {
      var body := PrintMembers(members) + ("}" + rest);
      MembersRoundTrip(members, rest);
      MembersText(members, rest);
      assert body[0] == '\"';
      ParseObject(members, body, rest);
    }
  }

  lemma {:induction false} ParseItemsStep(s: Bytes, v: Json, after: Bytes)
    requires ParseValue(s) == Some((v, after)) && after != ""
    ensures after[0] == ']' ==> ParseItems(s) == Some(([v], after[1..]))
    ensures after[0] == ',' && ParseItems(after[1..]).Some? ==>
            ParseItems(s) == Some(([v] + ParseItems(after[1..]).value.0, ParseItems(after[1..]).value.1))
  {
  }

  lemma {:induction false} ItemsText(items: seq<Json>, rest: Bytes)
    requires items != []
    ensures var more := if |items| == 1 then rest else PrintItems(items[1..]) + ("]" + rest);
            PrintItems(items) + ("]" + rest) == Print(items[0]) + ((if |items| == 1 then "]" else ",") + more)
  {
  }

  lemma {:induction false} ItemsRoundTrip(items: seq<Json>, rest: Bytes)
    requires items != [] && ValidItems(items)
    ensures ParseItems(PrintItems(items) + ("]" + rest)) == Some((items, rest))
    decreases items, 0
  {
    hide Print, PrintItems, ParseItems, ParseValue;
    var more := if |items| == 1 then rest else PrintItems(items[1..]) + ("]" + rest);
    var after := (if |items| == 1 then "]" else ",") + more;
    ItemsText(items, rest);
    ValueRoundTrip(items[0], after);
    ParseItemsStep(Print(items[0]) + after, items[0], after);
    assert after[1..] == more;
    if |items| == 1 {
      assert items == [items[0]];
    } else {
      ItemsRoundTrip(items[1..], rest);
      assert items == [items[0]] + items[1..];
    }
  }

  /** One member read off the front of an object's text. */
  lemma {:induction false} ParseMember(m: Member, after: Bytes, s: Bytes)
    requires ParseValue(Print(m.value) + after) == Some((m.value, after))
    requires s == Quote(m.key) + (":" + (Print(m.value) + after))
    ensures s != "" && s[0] == '\"' && ParseText(s[1..]) == Some((m.key, ":" + (Print(m.value) + after)))
  {
    QuoteRoundTrip(m.key, ":" + (Print(m.value) + after));
  }

  lemma {:induction false} ParseMembersStep(s: Bytes, key: string, text: Bytes, v: Json, after: Bytes)
    requires s != "" && s[0] == '\"' && ParseText(s[1..]) == Some((key, ":" + text))
    requires ParseValue(text) == Some((v, after)) && after != ""
    ensures after[0] == '}' ==> ParseMembers(s) == Some(([Member(key, v)], after[1..]))
    ensures after[0] == ',' && ParseMembers(after[1..]).Some? ==>
            ParseMembers(s) == Some(([Member(key, v)] + ParseMembers(after[1..]).value.0,
                                     ParseMembers(after[1..]).value.1))
  {
    assert (":" + text)[1..] == text;
  }

  lemma {:induction false} MembersRoundTrip(members: seq<Member>, rest: Bytes)
    requires members != [] && ValidMembers(members)
    ensures ParseMembers(PrintMembers(members) + ("}" + rest)) == Some((members, rest))
    decreases members, 0
  {
    hide Print, PrintMembers, ParseMembers, ParseValue;
    var m := members[0];
    var more := if |members| == 1 then rest else PrintMembers(members[1..]) + ("}" + rest);
    var after := (if |members| == 1 then "}" else ",") + more;
    var s := PrintMembers(members) + ("}" + rest);
    MembersText(members, rest);
    ValueRoundTrip(m.value, after);
    ParseMember(m, after, s);
    assert after[1..] == more;
    ParseMembersStep(s, m.key, Print(m.value) + after, m.value, after);
    assert Member(m.key, m.value) == m;
    if |members| == 1 {
      assert members == [m];
    } else {
      MembersRoundTrip(members[1..], rest);
      assert members == [m] + members[1..];
    }
  }

  lemma {:induction false} MembersText(members: seq<Member>, rest: Bytes)
    requires members != []
    ensures var m := members[0];
            var more := if |members| == 1 then rest else PrintMembers(members[1..]) + ("}" + rest);
            var after := (if |members| == 1 then "}" else ",") + more;
            PrintMembers(members) + ("}" + rest) == Quote(m.key) + (":" + (Print(m.value) + after))
  {
  }

  lemma {:induction false} LoadsPrint(v: Json)
    requires Valid(v)
    ensures Loads(Print(v)) == Some(v)
  {
    ValueRoundTrip(v, "");
    assert Print(v) + "" == Print(v);
  }

  /** Main result: two values share canonical bytes exactly when they mean the same. */
  lemma {:induction false} EncodeInjective(a: Json, b: Json)
    requires Valid(a) && Valid(b)
    ensures Encode(a) == Encode(b) <==> Meaning(a) == Meaning(b)
  {
    CanonKeeps(a);
    CanonKeeps(b);
    if Meaning(a) == Meaning(b) {
      NormalUnique(Canon(a), Canon(b));
    }
    if Encode(a) == Encode(b) {
      LoadsPrint(Canon(a));
      LoadsPrint(Canon(b));
    }
  }

  /** The encoding can be read back: what is read means what was written. */
  lemma {:induction false} EncodeInvertible(v: Json)
    requires Valid(v)
    ensures Loads(Encode(v)) == Some(Canon(v)) && Meaning(Canon(v)) == Meaning(v)
  {
    CanonKeeps(v);
    LoadsPrint(Canon(v));
  }

  lemma {:induction false} CanonIdempotent(v: Json)
    requires Valid(v)
    ensures Canon(Canon(v)) == Canon(v)
  {
    CanonKeeps(v);
    CanonKeeps(Canon(v));
    NormalUnique(Canon(Canon(v)), Canon(v));
  }

  // ----- the strict reader

  /** A JSON reader that is right on canonical texts; elsewhere it may do anything. */
  ghost predicate Faithful(loads: Bytes -> Option<Json>) {
    forall v | Valid(v) && Normal(v) :: loads(Print(v)) == Some(v)
  }

  /** Read, then insist that re-encoding gives the same bytes. */
  function DecodedBy(loads: Bytes -> Option<Json>, data: Bytes): Option<Json> {
    if !(0 < |data| <= MAX_PAYLOAD) then None
    else
      match loads(data)
      case None => None
      case Some(v) => if v.Obj? && Valid(v) && Encode(v) == data then Some(v) else None
  }

  function Decoded(data: Bytes): Option<Json> {
    DecodedBy(Loads, data)
  }

  /**
   * Whatever reader is used, exactly the bounded canonical texts of objects are accepted,
   * each as the one normal object it encodes.
   */
  lemma {:induction false} DecodedAcceptsExactly(loads: Bytes -> Option<Json>, data: Bytes, v: Json)
    requires Faithful(loads)
    ensures DecodedBy(loads, data) == Some(v) <==>
            (0 < |data| <= MAX_PAYLOAD && v.Obj? && Valid(v) && Normal(v) && data == Print(v))
  {
    if DecodedBy(loads, data) == Some(v) {
      CanonKeeps(v);
      assert loads(Print(Canon(v))) == Some(Canon(v));
    }
    if v.Obj? && Valid(v) && Normal(v) && data == Print(v) {
      CanonKeeps(v);
      NormalUnique(Canon(v), v);
    }
  }

  lemma {:induction false} LoadsIsFaithful()
    ensures Faithful(Loads)
  {
    forall v | Valid(v) && Normal(v) ensures Loads(Print(v)) == Some(v) {
      LoadsPrint(v);
    }
  }

  /** A byte string is accepted if and only if it is the encoding of some object. */
  lemma {:induction false} DecodedIffEncoding(data: Bytes)
    ensures Decoded(data).Some? <==>
            (0 < |data| <= MAX_PAYLOAD && exists v: Json :: v.Obj? && Valid(v) && data == Encode(v))
  {
    LoadsIsFaithful();
    if Decoded(data).Some? {
      DecodedAcceptsExactly(Loads, data, Decoded(data).value);
    }
    if exists v: Json :: v.Obj? && Valid(v) && data == Encode(v) {
      var v: Json :| v.Obj? && Valid(v) && data == Encode(v);
      CanonKeeps(v);
      if 0 < |data| <= MAX_PAYLOAD {
        DecodedAcceptsExactly(Loads, data, Canon(v));
      }
    }
  }
}
