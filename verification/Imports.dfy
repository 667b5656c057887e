/** The import catalog: objects are installed first, then one transaction records the import. */
module Imports {
  import opened Wrappers
  import opened Canonical
  import opened Domain
  import Storage

  /** A name in the one objects directory. */
  datatype Name = Object(digest: Digest) | Pending(id: nat)

  datatype Store = Store(files: seq<Storage.File>, entries: map<Name, nat>, durable: map<Name, nat>)

  // ----- the objects directory

  predicate Indexed(s: Store, name: Name) {
    && (name in s.entries ==> s.entries[name] < |s.files|)
    && (name in s.durable ==> s.durable[name] < |s.files|)
  }

  /** An object's name stands for a sealed file of its digest, and for no other ever. */
  predicate Held(hash: Bytes -> Digest, s: Store, digest: Digest) {
    var name := Object(digest);
    && (name in s.durable ==> name in s.entries && s.entries[name] == s.durable[name])
    && (name in s.entries ==>
          && s.entries[name] < |s.files| && Storage.Sealed(s.files[s.entries[name]])
          && hash(s.files[s.entries[name]].content) == digest)
  }

  predicate ApartOnDisk(s: Store, a: Name, b: Name) {
    a != b && a.Object? == b.Object? && (a in s.entries || a in s.durable) && (b in s.entries || b in s.durable) ==>
      Inode(s, a) != Inode(s, b)
  }

  function Inode(s: Store, name: Name): nat {
    if name in s.entries then s.entries[name] else if name in s.durable then s.durable[name] else 0
  }

  /** Names agree on disk and in memory where both have them. */
  predicate Agrees(s: Store, name: Name) {
    name in s.entries && name in s.durable ==> s.entries[name] == s.durable[name]
  }

  ghost predicate Sound(hash: Bytes -> Digest, s: Store) {
    && (forall name :: Indexed(s, name) && Agrees(s, name))
    && (forall digest :: Held(hash, s, digest))
    && (forall a, b :: ApartOnDisk(s, a, b))
  }

  /** No other name for the same file: what reading and counting demand. */
  predicate SingleLinked(s: Store, name: Name) {
    name in s.entries && forall other | other in s.entries && other != name :: s.entries[other] != s.entries[name]
  }

  /** Every name a digest, every file singly linked and read-only. */
  predicate Countable(s: Store) {
    forall name | name in s.entries :: name.Object? && SingleLinked(s, name)
  }

  /** What a power loss may leave: each name as on disk or as in memory, each durable file. */
  ghost predicate Survives(s: Store, after: Store) {
    && |after.files| == |s.files|
    && (forall i | 0 <= i < |s.files| :: Storage.Kept(s.files[i], after.files[i]))
    && (forall name :: SurvivesName(s, after, name))
    && after.durable == after.entries
  }

  predicate SurvivesName(s: Store, after: Store, name: Name) {
    || (name in after.entries && name in s.durable && after.entries[name] == s.durable[name])
    || (name in after.entries && name in s.entries && after.entries[name] == s.entries[name])
    || (name !in after.entries && (name !in s.durable || name !in s.entries))
  }

  lemma {:induction false} SurvivalSound(hash: Bytes -> Digest, s: Store, after: Store)
    requires Sound(hash, s) && Survives(s, after)
    ensures Sound(hash, after)
    ensures forall digest | Object(digest) in s.durable ::
              Object(digest) in after.entries && Object(digest) in after.durable
  {
    forall name ensures Indexed(after, name) && Agrees(after, name) {
      assert SurvivesName(s, after, name) && Indexed(s, name);
    }
    forall digest
      ensures Held(hash, after, digest)
      ensures Object(digest) in s.durable ==> Object(digest) in after.entries
    {
      assert SurvivesName(s, after, Object(digest)) && Held(hash, s, digest) && Indexed(s, Object(digest));
      if Object(digest) in s.entries {
        assert Storage.Kept(s.files[s.entries[Object(digest)]], after.files[s.entries[Object(digest)]]);
      }
    }
    forall a, b ensures ApartOnDisk(after, a, b) {
      assert SurvivesName(s, after, a) && SurvivesName(s, after, b);
      assert ApartOnDisk(s, a, b) && Agrees(s, a) && Agrees(s, b);
    }
  }

  // ----- opening

  function ObjectsOnly(entries: map<Name, nat>): map<Name, nat> {
    map name | name in entries && name.Object? :: entries[name]
  }

  /** After opening, whatever happened before, everything is countable and durable. */
  function Reopened(s: Store): Store {
    s.(entries := ObjectsOnly(s.entries), durable := ObjectsOnly(s.entries))
  }

  lemma {:induction false} ReopenedSound(hash: Bytes -> Digest, s: Store)
    requires Sound(hash, s)
    ensures Sound(hash, Reopened(s)) && Countable(Reopened(s))
    ensures forall digest :: Object(digest) in s.entries <==> Object(digest) in Reopened(s).entries
    ensures forall digest | Object(digest) in s.entries ::
              Reopened(s).durable[Object(digest)] == s.entries[Object(digest)]
    ensures forall digest | Object(digest) in s.durable :: Object(digest) in Reopened(s).durable
  {
    var r := Reopened(s);
    forall name ensures Indexed(r, name) && Agrees(r, name) { assert Indexed(s, name); }
    forall digest
      ensures Held(hash, r, digest) && (Object(digest) in s.durable ==> Object(digest) in r.durable)
    {
      assert Held(hash, s, digest);
    }
    forall a, b ensures ApartOnDisk(r, a, b) { assert ApartOnDisk(s, a, b); }
    forall name | name in r.entries ensures SingleLinked(r, name) {
      forall other | other in r.entries && other != name ensures r.entries[other] != r.entries[name] {
        assert ApartOnDisk(s, other, name);
      }
    }
  }

  // ----- installing one object

  /** Which system calls of an installation succeed. */
  datatype Calls = Calls(
    create: bool, write: bool, seal: bool, link: bool, syncEntry: bool, unlink: bool, syncUnlink: bool)

  const ALL_WORK := Calls(true, true, true, true, true, true, true)

  predicate AllWork(a: Calls, b: Calls) { a == ALL_WORK && b == ALL_WORK }

  /** The object is there under its name alone, with the expected size. */
  predicate Readable(s: Store, digest: Digest, size: nat) {
    var name := Object(digest);
    && SingleLinked(s, name)
    && s.entries[name] < |s.files| && s.files[s.entries[name]].readonly && |s.files[s.entries[name]].content| == size
  }

  function WithPending(s: Store, id: nat, file: Storage.File): Store {
    s.(files := s.files + [file], entries := s.entries[Pending(id) := |s.files|])
  }

  /** The `finally` block: drop the pending name, then make the directory durable. */
  function Cleanup(s: Store, id: nat, calls: Calls): (Store, bool) {
    var dropped := s.(entries := s.entries - {Pending(id)});
    if !calls.unlink then (s, false)
    else if !calls.syncUnlink then (dropped, false)
    else (dropped.(durable := dropped.entries), true)
  }

  function Link(s: Store, digest: Digest, inode: nat): Store {
    s.(entries := s.entries[Object(digest) := inode])
  }

  /** Copy, seal, link, sync; an object already there is left alone. */
  function Install(s: Store, digest: Digest, content: Bytes, id: nat, calls: Calls): (Store, bool) {
    if Object(digest) in s.entries then (s, Readable(s, digest, |content|))
    else if !calls.create then (s, false)
    else if !calls.write then (Cleanup(WithPending(s, id, Storage.File("", None, false, false)), id, calls).0, false)
    else if !calls.seal then (Cleanup(WithPending(s, id, Storage.File(content, None, true, false)), id, calls).0, false)
    else
      var staged := WithPending(s, id, Storage.File(content, Some(content), true, true));
      if !calls.link then (Cleanup(staged, id, calls).0, false)
      else
        var linked := Link(staged, digest, |s.files|);
        var synced := if calls.syncEntry then linked.(durable := linked.entries) else linked;
        var (done, ok) := Cleanup(synced, id, calls);
        (done, ok && calls.syncEntry)
  }

  predicate Fresh(s: Store, id: nat) { Pending(id) !in s.entries && Pending(id) !in s.durable }

  lemma {:induction false} PendingSound(hash: Bytes -> Digest, s: Store, id: nat, file: Storage.File)
    requires Sound(hash, s) && Fresh(s, id)
    ensures Sound(hash, WithPending(s, id, file))
  {
    var n := WithPending(s, id, file);
    forall name ensures Indexed(n, name) && Agrees(n, name) { assert Indexed(s, name) && Agrees(s, name); }
    forall digest ensures Held(hash, n, digest) { assert Held(hash, s, digest); }
    forall a, b ensures ApartOnDisk(n, a, b) {
      assert ApartOnDisk(s, a, b) && Indexed(s, a) && Indexed(s, b);
    }
  }

  lemma {:induction false} LinkSound(hash: Bytes -> Digest, s: Store, digest: Digest, id: nat)
    requires Sound(hash, s) && Object(digest) !in s.entries && Pending(id) in s.entries
    requires s.entries[Pending(id)] == |s.files| - 1 && Storage.Sealed(s.files[|s.files| - 1])
    requires hash(s.files[|s.files| - 1].content) == digest
    requires forall name | name in s.entries && name.Object? :: s.entries[name] != |s.files| - 1
    requires forall name | name in s.durable :: s.durable[name] != |s.files| - 1
    ensures Sound(hash, Link(s, digest, |s.files| - 1))
  {
    var n := Link(s, digest, |s.files| - 1);
    assert Held(hash, s, digest);
    forall name ensures Indexed(n, name) && Agrees(n, name) { assert Indexed(s, name) && Agrees(s, name); }
    forall d ensures Held(hash, n, d) { assert Held(hash, s, d); }
    forall a, b ensures ApartOnDisk(n, a, b) {
      assert ApartOnDisk(s, a, b) && Indexed(s, a) && Indexed(s, b);
    }
  }

  lemma {:induction false} SyncSound(hash: Bytes -> Digest, s: Store)
    requires Sound(hash, s)
    ensures Sound(hash, s.(durable := s.entries))
  {
    var n := s.(durable := s.entries);
    forall name ensures Indexed(n, name) && Agrees(n, name) { assert Indexed(s, name); }
    forall d ensures Held(hash, n, d) { assert Held(hash, s, d); }
    forall a, b ensures ApartOnDisk(n, a, b) { assert ApartOnDisk(s, a, b); }
  }

  lemma {:induction false} DropSound(hash: Bytes -> Digest, s: Store, id: nat)
    requires Sound(hash, s)
    ensures Sound(hash, s.(entries := s.entries - {Pending(id)}))
  {
    var n := s.(entries := s.entries - {Pending(id)});
    forall name ensures Indexed(n, name) && Agrees(n, name) { assert Indexed(s, name) && Agrees(s, name); }
    forall d ensures Held(hash, n, d) { assert Held(hash, s, d); }
    forall a, b ensures ApartOnDisk(n, a, b) {
      assert ApartOnDisk(s, a, b) && Agrees(s, a) && Agrees(s, b);
    }
  }

  lemma {:induction false} CleanupSound(hash: Bytes -> Digest, s: Store, id: nat, calls: Calls)
    requires Sound(hash, s)
    ensures Sound(hash, Cleanup(s, id, calls).0)
  {
    hide Sound;
    DropSound(hash, s, id);
    SyncSound(hash, s.(entries := s.entries - {Pending(id)}));
  }

  lemma {:induction false} StagedFacts(hash: Bytes -> Digest, s: Store, id: nat, file: Storage.File)
    requires Sound(hash, s) && Fresh(s, id)
    ensures var n := WithPending(s, id, file);
            && (forall name | name in n.entries && name.Object? :: n.entries[name] != |n.files| - 1)
            && (forall name | name in n.durable :: n.durable[name] != |n.files| - 1)
  {
    var n := WithPending(s, id, file);
    forall name | name in n.entries && name.Object? ensures n.entries[name] != |n.files| - 1 {
      assert Indexed(s, name);
    }
    forall name | name in n.durable ensures n.durable[name] != |n.files| - 1 { assert Indexed(s, name); }
  }

  /** Wherever an installation stops, what carries a digest's name is a sealed file of that digest. */
  lemma {:induction false} InstallSound(
      hash: Bytes -> Digest, s: Store, digest: Digest, content: Bytes, id: nat, calls: Calls)
    requires Sound(hash, s) && Fresh(s, id) && hash(content) == digest
    ensures Sound(hash, Install(s, digest, content, id, calls).0)
  {
    hide Sound, Cleanup;
    if Object(digest) !in s.entries && calls.create {
      var file := if !calls.write then Storage.File("", None, false, false)
                  else if !calls.seal then Storage.File(content, None, true, false)
                  else Storage.File(content, Some(content), true, true);
      var staged := WithPending(s, id, file);
      PendingSound(hash, s, id, file);
      StagedFacts(hash, s, id, file);
      if calls.write && calls.seal && calls.link {
        LinkSound(hash, staged, digest, id);
        var linked := Link(staged, digest, |s.files|);
        SyncSound(hash, linked);
        CleanupSound(hash, if calls.syncEntry then linked.(durable := linked.entries) else linked, id, calls);
      } else {
        CleanupSound(hash, staged, id, calls);
      }
    }
  }

  /** Success leaves the object in place, and every object durable if it was not there before. */
  lemma {:induction false} InstallInstalls(s: Store, digest: Digest, content: Bytes, id: nat, calls: Calls)
    requires Install(s, digest, content, id, calls).1
    ensures var n := Install(s, digest, content, id, calls).0;
            && Object(digest) in n.entries
            && (forall d | Object(d) in s.entries ::
                  Object(d) in n.entries && n.entries[Object(d)] == s.entries[Object(d)])
            && (if Object(digest) in s.entries then n == s else n.durable == n.entries)
  {
  }

  // ----- what an installation leaves alone

  /** Objects and durable entries stay what they are. */
  ghost predicate Stands(s: Store, n: Store) {
    && (forall d | Object(d) in s.entries :: Object(d) in n.entries && n.entries[Object(d)] == s.entries[Object(d)])
    && (forall d | Object(d) in s.durable :: Object(d) in n.durable && n.durable[Object(d)] == s.durable[Object(d)])
  }

  /** Nothing in place is in doubt. */
  ghost predicate AllDurable(s: Store) {
    forall d | Object(d) in s.entries :: Object(d) in s.durable
  }

  /** The object was linked and neither directory sync after it worked. */
  predicate Slips(s: Store, digest: Digest, calls: Calls) {
    && Object(digest) !in s.entries && calls.create && calls.write && calls.seal && calls.link
    && !calls.syncEntry && !(calls.unlink && calls.syncUnlink)
  }

  /** Whatever the calls do, an installation takes nothing back that was in place or durable. */
  lemma {:induction false} InstallStands(
      hash: Bytes -> Digest, s: Store, digest: Digest, content: Bytes, id: nat, calls: Calls)
    requires Sound(hash, s)
    ensures Stands(s, Install(s, digest, content, id, calls).0)
  {
    hide Readable;
    forall d | Object(d) in s.durable
      ensures Object(d) in s.entries && s.entries[Object(d)] == s.durable[Object(d)]
    {
      assert Held(hash, s, d);
    }
  }

  /** An installation leaves something in doubt exactly when it slips. */
  lemma {:induction false} SlipsExactly(
      hash: Bytes -> Digest, s: Store, digest: Digest, content: Bytes, id: nat, calls: Calls)
    requires Sound(hash, s) && AllDurable(s)
    ensures AllDurable(Install(s, digest, content, id, calls).0) <==> !Slips(s, digest, calls)
    ensures Install(s, digest, content, id, calls).1 ==> !Slips(s, digest, calls)
  {
    hide Readable;
    assert Held(hash, s, digest);
    if Slips(s, digest, calls) {
      assert Object(digest) in Install(s, digest, content, id, calls).0.entries;
    }
  }

  /**
   * After a slip the same installation, tried again, is content with what it finds exactly
   * when the pending name is gone; the object is then in place and in doubt.
   */
  lemma {:induction false} RetryAfterSlip(
      hash: Bytes -> Digest, s: Store, digest: Digest, content: Bytes, id: nat, calls: Calls, again: nat, retry: Calls)
    requires Sound(hash, s) && Slips(s, digest, calls)
    ensures var n := Install(s, digest, content, id, calls).0;
            && Install(n, digest, content, again, retry) == (n, calls.unlink)
            && Object(digest) in n.entries && Object(digest) !in n.durable
  {
    var n, name := Install(s, digest, content, id, calls).0, Object(digest);
    assert Held(hash, s, digest);
    forall other | other in n.entries && other != name && other != Pending(id)
      ensures n.entries[other] != n.entries[name]
    {
      assert Indexed(s, other);
    }
    assert !calls.unlink ==> n.entries[Pending(id)] == n.entries[name];
  }

  // ----- the two objects of an import

  predicate Durable(s: Store, digest: Digest) { Object(digest) in s.durable }

  /** Install two objects one after the other, as an import does; the second only if the first worked. */
  function InstallBoth(
      s: Store, a: Digest, b: Digest, contentA: Bytes, contentB: Bytes, idA: nat, idB: nat, callsA: Calls,
      callsB: Calls):
      (Store, bool)
  {
    var (first, ok) := Install(s, a, contentA, idA, callsA);
    if !ok then (first, false) else Install(first, b, contentB, idB, callsB)
  }

  /**
   * Main result. Both objects are durable when the import goes on to commit exactly when at
   * least one of them was not there before, or both were durable already. Finding both in
   * place proves nothing about the disk: their entries may never have been made durable.
   */
  lemma {:induction false} DurableBeforeCommit(
      s: Store, a: Digest, b: Digest, contentA: Bytes, contentB: Bytes, idA: nat, idB: nat, callsA: Calls,
      callsB: Calls)
    requires InstallBoth(s, a, b, contentA, contentB, idA, idB, callsA, callsB).1
    ensures var n := InstallBoth(s, a, b, contentA, contentB, idA, idB, callsA, callsB).0;
            && Object(a) in n.entries && Object(b) in n.entries
            && (Durable(n, a) && Durable(n, b)
                <==> Object(a) !in s.entries || Object(b) !in s.entries || (Durable(s, a) && Durable(s, b)))
  {
    hide Install, Readable;
    InstallInstalls(s, a, contentA, idA, callsA);
    InstallInstalls(Install(s, a, contentA, idA, callsA).0, b, contentB, idB, callsB);
  }

  /** One of an import's two installations slipped. */
  predicate SlipsEither(
      s: Store, a: Digest, b: Digest, contentA: Bytes, idA: nat, callsA: Calls, callsB: Calls)
  {
    var (first, ok) := Install(s, a, contentA, idA, callsA);
    Slips(s, a, callsA) || (ok && Slips(first, b, callsB))
  }

  /** With nothing in doubt before, nothing is after, unless an installation slips; then something is. */
  lemma {:induction false} BothStand(
      hash: Bytes -> Digest, s: Store, a: Digest, b: Digest, contentA: Bytes, contentB: Bytes, idA: nat, idB: nat,
      callsA: Calls, callsB: Calls)
    requires Sound(hash, s) && Fresh(s, idA) && hash(contentA) == a
    ensures var (n, ok) := InstallBoth(s, a, b, contentA, contentB, idA, idB, callsA, callsB);
            && Stands(s, n)
            && (AllDurable(s) ==>
                  && (AllDurable(n) <==> !SlipsEither(s, a, b, contentA, idA, callsA, callsB))
                  && (ok ==> AllDurable(n)))
  {
    hide Sound, Install, Slips, AllDurable;
    var (first, ok) := Install(s, a, contentA, idA, callsA);
    InstallStands(hash, s, a, contentA, idA, callsA);
    InstallSound(hash, s, a, contentA, idA, callsA);
    InstallStands(hash, first, b, contentB, idB, callsB);
    if AllDurable(s) {
      SlipsExactly(hash, s, a, contentA, idA, callsA);
      if ok { SlipsExactly(hash, first, b, contentB, idB, callsB); }
    }
  }

  const EMPTY := Store([], map[], map[])

  /** The link works, and then neither attempt to make it durable does. */
  const UNSYNCED := ALL_WORK.(syncEntry := false, syncUnlink := false)

  /**
   * The other case is real: the first attempt fails after linking its second object, the
   * retry finds both in place and goes on, and a power loss then takes the object away.
   */
  lemma {:induction false} CommittedObjectLost(a: Digest, b: Digest, contentA: Bytes, contentB: Bytes)
      returns (after: Store)
    requires a != b
    ensures var (first, ok) := InstallBoth(EMPTY, a, b, contentA, contentB, 0, 1, ALL_WORK, UNSYNCED);
            && !ok
            && var (second, retried) := InstallBoth(first, a, b, contentA, contentB, 2, 3, ALL_WORK, ALL_WORK);
               retried && !Durable(second, b) && Survives(second, after) && Object(b) !in after.entries
  {
    var fileA, fileB := SealedFile(contentA), SealedFile(contentB);
    var two := Store([fileA, fileB], map[Object(a) := 0, Object(b) := 1], map[Object(a) := 0]);
    FirstInstalled(a, contentA);
    SecondUnsynced(a, b, contentA, contentB);
    hide Install;
    after := two.(entries := two.durable);
    forall name ensures SurvivesName(two, after, name) {
    }
  }

  function SealedFile(content: Bytes): Storage.File { Storage.File(content, Some(content), true, true) }

  lemma {:induction false} FirstInstalled(a: Digest, contentA: Bytes)
    ensures Install(EMPTY, a, contentA, 0, ALL_WORK)
            == (Store([SealedFile(contentA)], map[Object(a) := 0], map[Object(a) := 0]), true)
  {
    var file := SealedFile(contentA);
    var linked := Link(WithPending(EMPTY, 0, file), a, 0);
    assert linked.entries - {Pending(0)} == map[Object(a) := 0];
    assert EMPTY.files + [file] == [file];
  }

  lemma {:induction false} SecondUnsynced(a: Digest, b: Digest, contentA: Bytes, contentB: Bytes)
    requires a != b
    ensures var fileA, fileB := SealedFile(contentA), SealedFile(contentB);
            var one := Store([fileA], map[Object(a) := 0], map[Object(a) := 0]);
            var two := Store([fileA, fileB], map[Object(a) := 0, Object(b) := 1], map[Object(a) := 0]);
            && Install(one, b, contentB, 1, UNSYNCED) == (two, false)
            && Install(two, a, contentA, 2, ALL_WORK) == (two, true)
            && Install(two, b, contentB, 3, ALL_WORK) == (two, true)
  {
    var fileA, fileB := SealedFile(contentA), SealedFile(contentB);
    var one := Store([fileA], map[Object(a) := 0], map[Object(a) := 0]);
    var two := Store([fileA, fileB], map[Object(a) := 0, Object(b) := 1], map[Object(a) := 0]);
    var linked := Link(WithPending(one, 1, fileB), b, 1);
    assert linked.entries - {Pending(1)} == two.entries;
    assert one.files + [fileB] == two.files;
    assert SingleLinked(two, Object(a)) && SingleLinked(two, Object(b));
  }

  // ----- the catalog

  datatype Item = Item(digest: Digest, size: nat)

  /** A parsed manifest: its own digest, its identity, and its two objects. */
  datatype Document = Document(
    manifestHash: Digest, producer: string, epoch: string, sequence: int, raw: Item, normalized: Item)

  datatype Row = Row(
    manifestHash: Digest, producer: string, epoch: string, sequence: int, manifest: Bytes, receipt: Bytes)

  predicate SameIdentity(r: Row, d: Document) {
    r.producer == d.producer && r.epoch == d.epoch && r.sequence == d.sequence
  }

  /** The table's two uniqueness constraints. */
  predicate UniqueRows(rows: seq<Row>) {
    forall i, j | 0 <= i < j < |rows| ::
      && rows[i].manifestHash != rows[j].manifestHash
      && (rows[i].producer, rows[i].epoch, rows[i].sequence) != (rows[j].producer, rows[j].epoch, rows[j].sequence)
  }

  predicate Known(rows: seq<Row>, d: Document) {
    exists r | r in rows :: SameIdentity(r, d)
  }

  function RowOf(d: Document, manifest: Bytes, receipt: Bytes): Row {
    Row(d.manifestHash, d.producer, d.epoch, d.sequence, manifest, receipt)
  }

  predicate Listed(rows: seq<Row>, d: Document, manifest: Bytes) {
    exists r | r in rows :: r.manifestHash == d.manifestHash && r.manifest == manifest
  }

  predicate Clashes(rows: seq<Row>, d: Document) {
    exists r | r in rows :: r.manifestHash == d.manifestHash || SameIdentity(r, d)
  }

  function FindRow(rows: seq<Row>, d: Document): (r: Option<Row>)
    ensures r.Some? ==> r.value in rows && SameIdentity(r.value, d) && Clashes(rows, d)
    ensures r.None? <==> !Known(rows, d)
  {
    if rows == [] then None
    else if SameIdentity(rows[0], d) then Some(rows[0])
    else
      assert rows == [rows[0]] + rows[1..];
      FindRow(rows[1..], d)
  }

  /** What is stored under the item's digest, if anything, has the item's size. */
  predicate SizeAgrees(s: Store, item: Item) {
    Object(item.digest) in s.entries ==>
      s.entries[Object(item.digest)] < |s.files| && |s.files[s.entries[Object(item.digest)]].content| == item.size
  }

  /** With every call working, installing into a countable store succeeds and keeps it countable. */
  lemma {:induction false} InstallWorks(
      hash: Bytes -> Digest, s: Store, item: Item, content: Bytes, id: nat, other: Item)
    requires Sound(hash, s) && Countable(s) && SizeAgrees(s, item) && SizeAgrees(s, other) && Fresh(s, id)
    requires |content| == item.size && other.digest != item.digest
    ensures Install(s, item.digest, content, id, ALL_WORK).1
    ensures Countable(Install(s, item.digest, content, id, ALL_WORK).0)
    ensures SizeAgrees(Install(s, item.digest, content, id, ALL_WORK).0, other)
    ensures SizeAgrees(Install(s, item.digest, content, id, ALL_WORK).0, item)
  {
    var name := Object(item.digest);
    assert Held(hash, s, item.digest);
    var n := Install(s, item.digest, content, id, ALL_WORK).0;
    if name !in s.entries {
      assert n.entries == s.entries[name := |s.files|];
      forall x | x in n.entries ensures x.Object? && SingleLinked(n, x) {
        assert Indexed(s, x);
        assert x != name ==> SingleLinked(s, x);
        forall y | y in n.entries && y != x ensures n.entries[y] != n.entries[x] { assert Indexed(s, y); }
      }
    }
  }

  lemma {:induction false} FreshAfter(s: Store, digest: Digest, content: Bytes, id: nat, calls: Calls, other: nat)
    requires Fresh(s, other) && other != id
    ensures Fresh(Install(s, digest, content, id, calls).0, other)
  {
    hide Readable;
  }

  lemma {:induction false} AddUnique(rows: seq<Row>, d: Document, manifest: Bytes, receipt: Bytes)
    requires UniqueRows(rows) && !Clashes(rows, d)
    ensures UniqueRows(rows + [RowOf(d, manifest, receipt)])
  {
    assert forall i | 0 <= i < |rows| :: rows[i] in rows;
  }

  /** Two different objects to store, and nothing in their way. */
  predicate Uncluttered(s: Store, d: Document) {
    && Countable(s) && d.raw.digest != d.normalized.digest
    && SizeAgrees(s, d.raw) && SizeAgrees(s, d.normalized)
  }

  /** Both objects are durable when the row is committed. */
  predicate Backed(s: Store, d: Document) {
    Durable(s, d.raw.digest) && Durable(s, d.normalized.digest)
  }

  /** What decides it: something was new, or nothing was in doubt. */
  predicate WillBeBacked(s: Store, d: Document) {
    Object(d.raw.digest) !in s.entries || Object(d.normalized.digest) !in s.entries || Backed(s, d)
  }

  // ----- every run of the catalog

  /** The objects and the imports committed so far, oldest first. */
  datatype Catalog = Catalog(store: Store, documents: seq<Document>)

  predicate InPlace(s: Store, d: Document) {
    Object(d.raw.digest) in s.entries && Object(d.normalized.digest) in s.entries
  }

  /** Being backed is exactly what lets both objects survive every power loss. */
  lemma {:induction false} BackedExactly(hash: Bytes -> Digest, s: Store, d: Document)
    requires Sound(hash, s) && InPlace(s, d)
    ensures Backed(s, d) <==> forall after | Survives(s, after) :: InPlace(after, d)
  {
    if Backed(s, d) {
      forall after | Survives(s, after) ensures InPlace(after, d) { SurvivalSound(hash, s, after); }
    }
    var settled := seq(|s.files|, i requires 0 <= i < |s.files| => SettledFile(s.files[i]));
    var after := Store(settled, s.durable, s.durable);
    forall name ensures SurvivesName(s, after, name) {}
    assert Survives(s, after);
  }

  function SettledFile(f: Storage.File): Storage.File {
    var content, readonly := f.durable.GetOr(f.content), f.readonly || f.durablyReadonly;
    Storage.File(content, Some(content), readonly, readonly)
  }

  /** One more import, its objects in place, and backed exactly under the condition. */
  ghost predicate Commits(c: Catalog, n: Catalog) {
    && |n.documents| == |c.documents| + 1 && n.documents[..|c.documents|] == c.documents
    && var d := n.documents[|c.documents|];
       InPlace(n.store, d) && (Backed(n.store, d) <==> WillBeBacked(c.store, d))
  }

  /** One attempt at an import, or an opening that failed. */
  ghost predicate Continues(c: Catalog, n: Catalog, slipped: bool) {
    && Stands(c.store, n.store)
    && (AllDurable(c.store) && !slipped ==> AllDurable(n.store))
    && (n.documents == c.documents || Commits(c, n))
  }

  /** What happened, as a caller can tell: `slipped` if an installation failed after its link. */
  datatype Event = Opened | PowerLost | Tried(slipped: bool)

  ghost predicate Follows(c: Catalog, event: Event, n: Catalog) {
    match event
    case Opened => n == Catalog(Reopened(c.store), c.documents)
    case PowerLost => Survives(c.store, n.store) && n.documents == c.documents
    case Tried(slipped) => Continues(c, n, slipped)
  }

  lemma {:induction false} NothingTried(c: Catalog, slipped: bool)
    ensures Follows(c, Tried(slipped), c)
  {
  }

  lemma {:induction false} AttemptContinues(c: Catalog, n: Catalog, slipped: bool, d: Document)
    requires Stands(c.store, n.store) && (AllDurable(c.store) && !slipped ==> AllDurable(n.store))
    requires n.documents == c.documents ||
             (n.documents == c.documents + [d] && InPlace(n.store, d) &&
              (Backed(n.store, d) <==> WillBeBacked(c.store, d)))
    ensures Follows(c, Tried(slipped), n)
  {
  }

  ghost predicate History(hash: Bytes -> Digest, run: seq<Catalog>, events: seq<Event>) {
    && |run| == |events| + 1 && AllDurable(run[0].store)
    && (forall i | 0 <= i < |run| :: Sound(hash, run[i].store))
    && (forall i | 0 <= i < |events| :: Follows(run[i], events[i], run[i + 1]))
  }

  /** An installation has failed after its link since the catalog was last opened. */
  predicate InDoubt(events: seq<Event>) {
    events != [] &&
    var last := events[|events| - 1];
    last.Tried? && (last.slipped || InDoubt(events[..|events| - 1]))
  }

  lemma {:induction false} CertainIsDurable(hash: Bytes -> Digest, run: seq<Catalog>, events: seq<Event>, i: nat)
    requires History(hash, run, events) && i < |run| && !InDoubt(events[..i])
    ensures AllDurable(run[i].store)
  {
    hide Sound, Stands, Commits;
    if i > 0 {
      assert events[..i][..i - 1] == events[..i - 1];
      assert Follows(run[i - 1], events[i - 1], run[i]);
      if events[i - 1].Tried? { CertainIsDurable(hash, run, events, i - 1); }
    }
  }

  lemma {:induction false} BackedStays(
      hash: Bytes -> Digest, run: seq<Catalog>, events: seq<Event>, i: nat, j: nat, k: nat)
    requires History(hash, run, events) && i <= j < |run| && k < |run[i].documents|
    requires Backed(run[i].store, run[i].documents[k])
    ensures k < |run[j].documents| && run[j].documents[k] == run[i].documents[k]
    ensures Backed(run[j].store, run[j].documents[k])
    decreases j
  {
    hide Sound, Survives, AllDurable;
    if i < j {
      BackedStays(hash, run, events, i, j - 1, k);
      assert Follows(run[j - 1], events[j - 1], run[j]);
      if events[j - 1].PowerLost? { SurvivalSound(hash, run[j - 1].store, run[j].store); }
      if events[j - 1].Opened? { ReopenedSound(hash, run[j - 1].store); }
    }
  }

  /**
   * Main result: over every run of openings, attempts and power losses, an import committed
   * while nothing was in doubt keeps its row and both its objects, durably, for ever.
   */
  lemma {:induction false} CommittedStaysBacked(
      hash: Bytes -> Digest, run: seq<Catalog>, events: seq<Event>, i: nat, j: nat)
    requires History(hash, run, events) && i < j < |run|
    requires run[i + 1].documents != run[i].documents && !InDoubt(events[..i])
    ensures var k := |run[i].documents|;
            && k < |run[i + 1].documents| && k < |run[j].documents|
            && run[j].documents[k] == run[i + 1].documents[k]
            && Backed(run[j].store, run[j].documents[k])
  {
    hide Sound, Survives, Stands;
    assert Follows(run[i], events[i], run[i + 1]);
    CertainIsDurable(hash, run, events, i);
    BackedStays(hash, run, events, i + 1, j, |run[i].documents|);
  }

  predicate Describe(documents: seq<Document>, rows: seq<Row>) {
    && |documents| == |rows|
    && forall i | 0 <= i < |rows| ::
         rows[i].manifestHash == documents[i].manifestHash && SameIdentity(rows[i], documents[i])
  }

  class ImportCatalog {
    const hash: Bytes -> Digest
    const maxEntries: nat

    /** True in an environment where no system call fails. */
    const faultless: bool

    var files: seq<Storage.File>
    var entries: map<Name, nat>
    var durable: map<Name, nat>
    var rows: seq<Row>

    /** The document of each row. */
    ghost var documents: seq<Document>

    constructor (hash: Bytes -> Digest, maxEntries: nat, faultless: bool)
      ensures this.hash == hash && this.maxEntries == maxEntries && this.faultless == faultless
      ensures Valid() && Now() == Catalog(EMPTY, []) && rows == []
    {
      this.hash, this.maxEntries, this.faultless := hash, maxEntries, faultless;
      files, entries, durable, rows, documents := [], map[], map[], [], [];
    }

    function Objects(): Store
      reads this
    {
      Store(files, entries, durable)
    }

    ghost function Now(): Catalog
      reads this
    {
      Catalog(Objects(), documents)
    }

    ghost predicate Valid()
      reads this
    {
      Sound(hash, Objects()) && UniqueRows(rows) && Describe(documents, rows)
    }

    /** Drop every pending name, then make the directory durable. */
    method Open() returns (ok: bool)
      requires Valid()
      modifies this`entries, this`durable
      ensures Valid() && (ok ==> Countable(Objects()) && AllDurable(Objects()))
      ensures Follows(old(Now()), if ok then Opened else Tried(false), Now())
      ensures faultless ==> ok
    {
      ReopenedSound(hash, Objects());
      ghost var was := Objects();
      var names := entries.Keys;
      while exists name :: name in names && name.Pending?
        invariant names <= entries.Keys && files == was.files && durable == was.durable && rows == old(rows)
        invariant forall name | name in was.entries && name.Object? :: name in entries && name in names
        invariant forall name | name in entries :: name in was.entries && entries[name] == was.entries[name]
        invariant forall name | name in entries && name.Pending? :: name in names
        invariant Valid()
        decreases names
      {
        var name: Name :| name in names && name.Pending?;
        DropSound(hash, Objects(), name.id);
        ok := *;
        if !ok && !faultless { return; }
        entries := entries - {name};
        names := names - {name};
      }
      ok := *;
      ok := ok || faultless;
      if !ok { return; }
      durable := entries;
      assert entries == ObjectsOnly(was.entries);
    }

    /** The source's own steps; `calls` says which of them the system lets succeed. */
    method InstallObject(digest: Digest, content: Bytes, id: nat, calls: Calls) returns (ok: bool)
      requires Valid() && Fresh(Objects(), id) && hash(content) == digest
      modifies this`files, this`entries, this`durable
      ensures (Objects(), ok) == Install(old(Objects()), digest, content, id, calls)
      ensures Valid()
    {
      hide Sound, UniqueRows;
      InstallSound(hash, Objects(), digest, content, id, calls);
      if Object(digest) in entries {
        ok := ReadableNow(digest, |content|);
        return;
      }
      if !calls.create { return false; }
      var inode := |files|;
      files := files + [Storage.File("", None, false, false)];
      entries := entries[Pending(id) := inode];
      ok := calls.write;
      if calls.write {
        files := files[inode := Storage.File(content, None, true, false)];
        assert files == old(files) + [Storage.File(content, None, true, false)];
        ok := calls.seal;
      }
      if ok {
        files := files[inode := Storage.File(content, Some(content), true, true)];
        assert files == old(files) + [Storage.File(content, Some(content), true, true)];
        ok := calls.link;
      }
      if ok {
        entries := entries[Object(digest) := inode];
        ok := calls.syncEntry;
        if ok { durable := entries; }
      }
      if calls.unlink {
        entries := entries - {Pending(id)};
        if calls.syncUnlink { durable := entries; } else { ok := false; }
      } else {
        ok := false;
      }
    }

    /** Look at the entry's own link count, mode and size. */
    method ReadableNow(digest: Digest, size: nat) returns (ok: bool)
      requires Sound(hash, Objects()) && Object(digest) in entries
      ensures ok == Readable(Objects(), digest, size)
    {
      assert Indexed(Objects(), Object(digest));
      var file := files[entries[Object(digest)]];
      ok := SingleLinked(Objects(), Object(digest)) && file.readonly && |file.content| == size;
    }

    predicate IsSnapshot(incoming: Option<Bytes>, item: Item) {
      incoming.Some? && hash(incoming.value) == item.digest && |incoming.value| == item.size
    }

    /** A new import with its two objects intact, and room for it. */
    predicate Welcome(parsed: Option<Document>, rawIn: Option<Bytes>, normalizedIn: Option<Bytes>)
      reads this
    {
      && parsed.Some?
      && var d := parsed.value;
      && IsSnapshot(rawIn, d.raw) && IsSnapshot(normalizedIn, d.normalized)
      && !Clashes(rows, d) && |rows| < maxEntries && |entries| <= 2 * maxEntries
      && Uncluttered(Objects(), d)
    }

    /** Copy an incoming object, checking its length and its digest. */
    method Snapshot(incoming: Option<Bytes>, item: Item) returns (r: Option<Bytes>)
      ensures r == if IsSnapshot(incoming, item) then incoming else None
      ensures r.Some? ==> hash(r.value) == item.digest && |r.value| == item.size
    {
      if incoming.None? || |incoming.value| != item.size || hash(incoming.value) != item.digest { return None; }
      r := incoming;
    }

    predicate Fitting(d: Document, raw: Bytes, normalized: Bytes)
      reads this
    {
      && |raw| == d.raw.size && |normalized| == d.normalized.size
      && |entries| <= 2 * maxEntries && Uncluttered(Objects(), d)
    }

    /** Whether installing the two objects now leaves one of them in doubt. */
    predicate SlipsImport(d: Document, raw: Bytes, idA: nat, callsA: Calls, callsB: Calls)
      reads this
    {
      SlipsEither(Objects(), d.raw.digest, d.normalized.digest, raw, idA, callsA, callsB)
    }

    method InstallObjects(
        d: Document, raw: Bytes, normalized: Bytes, idA: nat, idB: nat, callsA: Calls, callsB: Calls)
      returns (ok: bool)
      requires Valid() && idA != idB && Fresh(Objects(), idA) && Fresh(Objects(), idB)
      requires hash(raw) == d.raw.digest && hash(normalized) == d.normalized.digest
      modifies this`files, this`entries, this`durable
      ensures Valid()
      ensures ok ==> InPlace(Objects(), d) && (Backed(Objects(), d) <==> old(WillBeBacked(Objects(), d)))
      ensures Stands(old(Objects()), Objects())
      ensures old(AllDurable(Objects())) ==>
                (AllDurable(Objects()) <==> !old(SlipsImport(d, raw, idA, callsA, callsB)))
      ensures old(Fitting(d, raw, normalized)) && AllWork(callsA, callsB) ==> ok
    {
      hide Sound, Install, UniqueRows, Countable, SizeAgrees, Describe, Stands, AllDurable, Slips;
      BothStand(
        hash, Objects(), d.raw.digest, d.normalized.digest, raw, normalized, idA, idB, callsA, callsB);
      if Fitting(d, raw, normalized) && AllWork(callsA, callsB) {
        InstallWorks(hash, Objects(), d.raw, raw, idA, d.normalized);
        FreshAfter(Objects(), d.raw.digest, raw, idA, callsA, idB);
        InstallSound(hash, Objects(), d.raw.digest, raw, idA, callsA);
        InstallWorks(
          hash, Install(Objects(), d.raw.digest, raw, idA, callsA).0, d.normalized, normalized, idB, d.raw);
      }
      FreshAfter(Objects(), d.raw.digest, raw, idA, callsA, idB);
      ok := InstallObject(d.raw.digest, raw, idA, callsA);
      if !ok { return; }
      ok := InstallObject(d.normalized.digest, normalized, idB, callsB);
      if ok {
        DurableBeforeCommit(
          old(Objects()), d.raw.digest, d.normalized.digest, raw, normalized, idA, idB, callsA, callsB);
      }
    }

    /** Check what an accepted import's row refers to. */
    method Inspect(d: Document, approved: bool) returns (ok: bool)
      requires Valid()
      ensures ok ==> Readable(Objects(), d.raw.digest, d.raw.size)
      ensures ok ==> Readable(Objects(), d.normalized.digest, d.normalized.size)
    {
      hide UniqueRows;
      if !approved || Object(d.raw.digest) !in entries || Object(d.normalized.digest) !in entries { return false; }
      ok := ReadableNow(d.raw.digest, d.raw.size);
      if ok { ok := ReadableNow(d.normalized.digest, d.normalized.size); }
    }

    /** See that an import's objects are in place: inspect what a row refers to, or install. */
    method Provide(
        d: Document, known: bool, raw: Bytes, normalized: Bytes, roomy: bool, idA: nat, idB: nat, callsA: Calls,
        callsB: Calls)
      returns (ok: bool)
      requires Valid() && idA != idB && Fresh(Objects(), idA) && Fresh(Objects(), idB)
      requires hash(raw) == d.raw.digest && hash(normalized) == d.normalized.digest
      modifies this`files, this`entries, this`durable
      ensures Valid() && (known ==> Objects() == old(Objects()))
      ensures ok ==> InPlace(Objects(), d)
      ensures ok && !known ==> (Backed(Objects(), d) <==> old(WillBeBacked(Objects(), d)))
      ensures Stands(old(Objects()), Objects())
      ensures old(AllDurable(Objects()) && !SlipsImport(d, raw, idA, callsA, callsB)) ==> AllDurable(Objects())
      ensures !known && roomy && old(Fitting(d, raw, normalized)) && AllWork(callsA, callsB) ==> ok
    {
      hide Sound, UniqueRows, Describe, SizeAgrees, WillBeBacked, Backed, SlipsEither;
      if known {
        ok := Inspect(d, true);
        return;
      }
      if !roomy || !Countable(Objects()) || |entries| > 2 * maxEntries { return false; }
      ok := InstallObjects(d, raw, normalized, idA, idB, callsA, callsB);
    }

    /** The transaction: one more row unless one like it is there, and the manifest read back. */
    method Register(d: Document, manifest: Bytes, receipt: Bytes, commits: bool) returns (ok: bool)
      requires Valid()
      modifies this`rows, this`documents
      ensures Valid()
      ensures if commits && !old(Clashes(rows, d))
              then rows == old(rows) + [RowOf(d, manifest, receipt)] && documents == old(documents) + [d]
              else rows == old(rows) && documents == old(documents)
      ensures ok <==> commits && Listed(rows, d, manifest)
      ensures commits && !old(Clashes(rows, d)) ==> ok
    {
      hide Sound;
      if !commits { return false; }
      assert !Clashes(rows, d) ==> Listed(rows + [RowOf(d, manifest, receipt)], d, manifest) by {
        assert RowOf(d, manifest, receipt) in rows + [RowOf(d, manifest, receipt)];
      }
      if !Clashes(rows, d) {
        AddUnique(rows, d, manifest, receipt);
        rows := rows + [RowOf(d, manifest, receipt)];
        documents := documents + [d];
      }
      ok := Listed(rows, d, manifest);
    }

    /** The checks before anything is stored, and private copies of the incoming objects. */
    method Screen(d: Document, rawIn: Option<Bytes>, normalizedIn: Option<Bytes>, approved: bool)
      returns (known: bool, r: Option<(Bytes, Bytes)>)
      ensures known ==> Clashes(rows, d)
      ensures r.Some? ==>
                && known == Known(rows, d) && (known || |rows| < maxEntries)
                && rawIn == Some(r.value.0) && hash(r.value.0) == d.raw.digest && |r.value.0| == d.raw.size
                && hash(r.value.1) == d.normalized.digest && |r.value.1| == d.normalized.size
      ensures Welcome(Some(d), rawIn, normalizedIn) && approved ==> r.Some? && !known
    {
      hide UniqueRows, Uncluttered;
      var previous := FindRow(rows, d);
      known := previous.Some?;
      if known && previous.value.manifestHash != d.manifestHash { return known, None; }
      if !known && |rows| >= maxEntries { return known, None; }
      var raw := Snapshot(rawIn, d.raw);
      var normalized := Snapshot(normalizedIn, d.normalized);
      if raw.None? || normalized.None? || !approved { return known, None; }
      r := Some((raw.value, normalized.value));
    }

    /**
     * Accept an import: install its objects, then commit its row. `approved` is the
     * decoder's verdict, `roomy` the disk's, `commits` whether the transaction succeeds.
     */
    method Accept(
        manifest: Bytes, parsed: Option<Document>, receipt: Bytes, rawIn: Option<Bytes>, normalizedIn: Option<Bytes>,
        approved: bool, roomy: bool, commits: bool, idA: nat, idB: nat, callsA: Calls, callsB: Calls)
      returns (ok: bool)
      requires Valid() && idA != idB && Fresh(Objects(), idA) && Fresh(Objects(), idB)
      modifies this
      ensures Valid()
      ensures || (rows == old(rows) && documents == old(documents))
              || (parsed.Some? && !Known(old(rows), parsed.value) && |old(rows)| < maxEntries &&
                  rows == old(rows) + [RowOf(parsed.value, manifest, receipt)] &&
                  documents == old(documents) + [parsed.value])
      ensures parsed.Some? && Known(old(rows), parsed.value) ==> rows == old(rows) && Objects() == old(Objects())
      ensures ok ==> parsed.Some? && Listed(rows, parsed.value, manifest)
      ensures var slipped := parsed.Some? && old(SlipsImport(parsed.value, rawIn.GetOr(""), idA, callsA, callsB));
              Follows(old(Now()), Tried(slipped), Now())
      ensures old(Welcome(parsed, rawIn, normalizedIn)) && approved && roomy && commits && AllWork(callsA, callsB) ==>
                ok && rows != old(rows)
    {
      hide Sound, UniqueRows, Describe, Countable, SizeAgrees, WillBeBacked, Backed, Fresh, SlipsEither, AllDurable;
      hide Known, Clashes, Listed, Stands, InPlace, Uncluttered, SlipsImport, AllWork;
      hide Follows;
      ghost var was := Now();
      NothingTried(was, parsed.Some? && SlipsImport(parsed.value, rawIn.GetOr(""), idA, callsA, callsB));
      if parsed.None? { return false; }
      var d := parsed.value;
      ghost var slipped := SlipsImport(d, rawIn.GetOr(""), idA, callsA, callsB);
      var known, copies := Screen(d, rawIn, normalizedIn, approved);
      if copies.None? { return false; }
      ok := Provide(d, known, copies.value.0, copies.value.1, roomy, idA, idB, callsA, callsB);
      if !ok {
        AttemptContinues(was, Now(), slipped, d);
        return;
      }
      ok := Register(d, manifest, receipt, commits);
      AttemptContinues(was, Now(), slipped, d);
    }

    /** Power is lost; the rows stand, and some state that may survive is found. */
    method LosePower(after: Store)
      requires Valid() && Survives(Objects(), after)
      modifies this`files, this`entries, this`durable
      ensures Objects() == after && Valid() && Follows(old(Now()), PowerLost, Now())
      ensures forall d: Document | old(Backed(Objects(), d)) :: Backed(Objects(), d)
    {
      SurvivalSound(hash, Objects(), after);
      files, entries, durable := after.files, after.entries, after.durable;
    }
  }
}
