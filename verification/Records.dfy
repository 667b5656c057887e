/** Looking up members of JSON objects, in insertion order or in canonical order. */
module Records {
  import opened Wrappers
  import opened Canonical

  function Find(members: seq<Member>, key: string): Option<Json> {
    if members == [] then None
    else if members[0].key == key then Some(members[0].value)
    else Find(members[1..], key)
  }

  function Get(v: Json, key: string): Option<Json> {
    if v.Obj? then Find(v.members, key) else None
  }

  function CanonOption(v: Option<Json>): Option<Json> {
    match v
    case None => None
    case Some(j) => Some(Canon(j))
  }

  /** A literal object whose keys differ pairwise. */
  predicate Apart(members: seq<Member>) {
    forall i, j | 0 <= i < j < |members| :: members[i].key != members[j].key
  }

  lemma {:induction false} ApartIsDistinct(members: seq<Member>)
    requires Apart(members)
    ensures Distinct(members)
  {
    if members != [] {
      forall m | m in members[1..] ensures m.key != members[0].key {
        var j :| 0 <= j < |members[1..]| && members[1..][j] == m;
        assert members[j + 1] == m;
      }
      ApartIsDistinct(members[1..]);
    }
  }

  lemma {:induction false} FindAt(members: seq<Member>, i: nat)
    requires Apart(members) && i < |members|
    ensures Find(members, members[i].key) == Some(members[i].value)
  {
    if i > 0 {
      assert members[1..][i - 1] == members[i];
      FindAt(members[1..], i - 1);
    }
  }

  lemma {:induction false} FindDistinct(members: seq<Member>, i: nat)
    requires Distinct(members) && i < |members|
    ensures Find(members, members[i].key) == Some(members[i].value)
  {
    if i > 0 {
      assert members[1..][i - 1] == members[i];
      FindDistinct(members[1..], i - 1);
    }
  }

  lemma {:induction false} FindInsert(m: Member, members: seq<Member>, key: string)
    requires m.key !in Keys(members)
    ensures Find(Insert(m, members), key) == if key == m.key then Some(m.value) else Find(members, key)
  {
    if members == [] || Less(m.key, members[0].key) {
      assert ([m] + members)[1..] == members;
    } else {
      assert members == [members[0]] + members[1..];
      ConsKeys(members[0], members[1..]);
      FindInsert(m, members[1..], key);
      assert Insert(m, members)[1..] == Insert(m, members[1..]);
    }
  }

  lemma {:induction false} FindSorted(members: seq<Member>, key: string)
    requires Distinct(members)
    ensures Find(SortMembers(members), key) == Find(members, key)
  {
    if members != [] {
      FindSorted(members[1..], key);
      SortKeeps(members[1..]);
      FindInsert(members[0], SortMembers(members[1..]), key);
    }
  }

  lemma {:induction false} FindCanonMembers(members: seq<Member>, key: string)
    ensures Find(CanonMembers(members), key) == CanonOption(Find(members, key))
    ensures Keys(CanonMembers(members)) == Keys(members)
    ensures Distinct(members) ==> Distinct(CanonMembers(members))
  {
    if members != [] {
      assert members == [members[0]] + members[1..];
      FindCanonMembers(members[1..], key);
      ConsKeys(members[0], members[1..]);
      ConsKeys(Member(members[0].key, Canon(members[0].value)), CanonMembers(members[1..]));
    }
  }

  /** Reading a member of an object does not depend on the order its members came in. */
  lemma {:induction false} GetCanon(v: Json, key: string)
    requires v.Obj? ==> Distinct(v.members)
    ensures Get(Canon(v), key) == CanonOption(Get(v, key))
    ensures v.Obj? ==> Keys(Canon(v).members) == Keys(v.members)
  {
    if v.Obj? {
      FindCanonMembers(v.members, key);
      FindSorted(CanonMembers(v.members), key);
      SortKeeps(CanonMembers(v.members));
    }
  }

  lemma {:induction false} FindValid(members: seq<Member>, key: string)
    requires ValidMembers(members)
    ensures Find(members, key).Some? ==> Valid(Find(members, key).value)
  {
    if members != [] { FindValid(members[1..], key); }
  }

  lemma {:induction false} ValidMembersAll(members: seq<Member>)
    requires forall i | 0 <= i < |members| :: Valid(members[i].value)
    ensures ValidMembers(members)
  {
    if members != [] {
      forall i | 0 <= i < |members[1..]| ensures Valid(members[1..][i].value) {
        assert members[1..][i] == members[i + 1];
      }
      ValidMembersAll(members[1..]);
    }
  }

  /** A literal object with pairwise different keys and valid values is in the domain. */
  lemma {:induction false} ApartIsValid(members: seq<Member>)
    requires Apart(members) && forall i | 0 <= i < |members| :: Valid(members[i].value)
    ensures Valid(Obj(members))
  {
    ApartIsDistinct(members);
    ValidMembersAll(members);
  }

  // ----- typed reads

  function TextOf(v: Option<Json>): Option<string> {
    if v.Some? && v.value.Str? then Some(v.value.text) else None
  }

  function IntOf(v: Option<Json>): Option<int> {
    if v.Some? && v.value.Int? then Some(v.value.number) else None
  }

  function GetText(v: Json, key: string): Option<string> {
    TextOf(Get(v, key))
  }

  function GetInt(v: Json, key: string): Option<int> {
    IntOf(Get(v, key))
  }

  function OptionalInt(v: Option<int>): Json {
    if v.Some? then Int(v.value) else Null
  }

  function OptionalText(v: Option<string>): Json {
    if v.Some? then Str(v.value) else Null
  }

  lemma {:induction false} TypedGetCanon(v: Json, key: string)
    requires Valid(v)
    ensures GetText(Canon(v), key) == GetText(v, key)
    ensures GetInt(Canon(v), key) == GetInt(v, key)
  {
    GetCanon(v, key);
  }

  /** The i-th member of a literal object, read from its canonical form. */
  lemma {:induction false} CanonFieldAt(members: seq<Member>, i: nat)
    requires Apart(members) && i < |members|
    ensures Get(Canon(Obj(members)), members[i].key) == Some(Canon(members[i].value))
  {
    ApartIsDistinct(members);
    FindAt(members, i);
    GetCanon(Obj(members), members[i].key);
  }

  /** The same for any valid object. */
  lemma {:induction false} ValidFieldAt(members: seq<Member>, i: nat)
    requires Valid(Obj(members)) && i < |members|
    ensures Get(Canon(Obj(members)), members[i].key) == Some(Canon(members[i].value))
  {
    FindDistinct(members, i);
    GetCanon(Obj(members), members[i].key);
  }

  lemma {:induction false} TextFieldAt(members: seq<Member>, i: nat, key: string, text: string)
    requires Apart(members) && i < |members| && members[i] == Member(key, Str(text))
    ensures GetText(Canon(Obj(members)), key) == Some(text)
  {
    CanonFieldAt(members, i);
  }

  lemma {:induction false} IntFieldAt(members: seq<Member>, i: nat, key: string, n: int)
    requires Apart(members) && i < |members| && members[i] == Member(key, Int(n))
    ensures GetInt(Canon(Obj(members)), key) == Some(n)
  {
    CanonFieldAt(members, i);
  }

  lemma {:induction false} OptionalTextFieldAt(members: seq<Member>, i: nat, key: string, text: Option<string>)
    requires Apart(members) && i < |members| && members[i] == Member(key, OptionalText(text))
    ensures GetText(Canon(Obj(members)), key) == text
  {
    CanonFieldAt(members, i);
  }

  // ----- how long an object's encoding is

  /** The length of a list of members, each with its comma or brace. */
  function PrintedSizes(members: seq<Member>): nat {
    if members == [] then 0
    else |Escape(members[0].key)| + 4 + |Print(members[0].value)| + PrintedSizes(members[1..])
  }

  lemma {:induction false} PrintedSize(members: seq<Member>)
    requires members != []
    ensures |PrintMembers(members)| + 1 == PrintedSizes(members)
  {
    hide Escape, Print;
    if |members| > 1 { PrintedSize(members[1..]); }
  }

  lemma {:induction false} InsertSize(m: Member, members: seq<Member>)
    ensures PrintedSizes(Insert(m, members)) == PrintedSizes([m] + members) && Insert(m, members) != []
  {
    hide Escape, Print, Less;
    assert ([m] + members)[1..] == members;
    if members != [] && !Less(m.key, members[0].key) {
      var head, rest := members[0], members[1..];
      InsertSize(m, rest);
      assert ([m] + rest)[1..] == rest;
      assert ([head] + Insert(m, rest))[1..] == Insert(m, rest);
    }
  }

  /** Sorting does not change how long the text is. */
  lemma {:induction false} SortSize(members: seq<Member>)
    ensures PrintedSizes(SortMembers(members)) == PrintedSizes(members)
    ensures members != [] ==> SortMembers(members) != []
  {
    hide Escape, Print, Insert;
    if members != [] {
      SortSize(members[1..]);
      InsertSize(members[0], SortMembers(members[1..]));
      assert ([members[0]] + SortMembers(members[1..]))[1..] == SortMembers(members[1..]);
    }
  }

  /** No member's own text is longer than this, name, value and punctuation together. */
  predicate MembersWithin(members: seq<Member>, size: nat) {
    forall m | m in members :: |Escape(m.key)| + 4 + |Encode(m.value)| <= size
  }

  lemma {:induction false} SizeOfFirst(m: Member, rest: seq<Member>)
    ensures PrintedSizes([m] + rest) == |Escape(m.key)| + 4 + |Print(m.value)| + PrintedSizes(rest)
  {
    hide Escape, Print;
    assert ([m] + rest)[1..] == rest;
  }

  lemma {:induction false} OneMore(n: nat, size: nat)
    ensures (n + 1) * size == n * size + size
  {
  }

  lemma {:induction false} NoSizes()
    ensures PrintedSizes([]) == 0
  {
  }

  lemma {:induction false} CanonSize(members: seq<Member>, size: nat)
    requires MembersWithin(members, size)
    ensures PrintedSizes(CanonMembers(members)) <= |members| * size
    ensures members != [] ==> CanonMembers(members) != []
  {
    hide Escape, Print, Canon, PrintedSizes;
    if members == [] {
      NoSizes();
    } else {
      var head, rest := members[0], members[1..];
      assert head in members && forall m | m in rest :: m in members;
      CanonSize(rest, size);
      SizeOfFirst(Member(head.key, Canon(head.value)), CanonMembers(rest));
      OneMore(|rest|, size);
    }
  }

  lemma {:induction false} ObjectSize(members: seq<Member>, size: nat)
    requires members != [] && MembersWithin(members, size)
    ensures 0 < |Encode(Obj(members))| <= |members| * size + 1
  {
    hide Escape, CanonMembers, SortMembers, MembersWithin;
    CanonSize(members, size);
    SortSize(CanonMembers(members));
    PrintedSize(SortMembers(CanonMembers(members)));
  }

  lemma {:induction false} ShortSize(s: string)
    ensures |Encode(Str(s))| <= 12 * |s| + 2
  {
    hide Escape;
    EscapeSize(s);
  }

  /** Printable text without quotes or backslashes is encoded as it is. */
  lemma {:induction false} TextSize(s: string)
    requires forall c | c in s :: ' ' <= c <= '~' && c != '\"' && c != '\\'
    ensures |Encode(Str(s))| == |s| + 2
  {
    hide Escape;
    PlainText(s);
  }
}
