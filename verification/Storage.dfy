/**
 * Immutable local storage: a file is made durable and read-only, then linked under its
 * digest without replacing anything, and only then is the link made durable.
 *
 * The volatile state is what the running system sees; a power loss keeps the durable part
 * and any subset of the rest. Every system call may fail, and a method that fails leaves
 * whatever its earlier calls did, so the failures are also the crash points.
 */
module Storage {
  import opened Wrappers
  import opened Canonical
  import opened Domain

  /** A file's contents and mode now, and what of them is known to be on disk. */
  datatype File = File(content: Bytes, durable: Option<Bytes>, readonly: bool, durablyReadonly: bool)

  datatype Disk = Disk(
    files: seq<File>,
    staging: map<string, nat>,
    shards: set<string>,
    durableShards: set<string>,
    objects: map<Digest, nat>,
    durableObjects: map<Digest, nat>)

  /** The directory an object is filed under: the first two characters of its digest. */
  function Shard(digest: Digest): string {
    if |digest| < 2 then digest else digest[..2]
  }

  /** The file is on disk as it is, and cannot be written any more. */
  predicate Sealed(f: File) { f.readonly && f.durablyReadonly && f.durable == Some(f.content) }

  predicate Filed(hash: Bytes -> Digest, d: Disk, digest: Digest)
    requires digest in d.objects
  {
    && d.objects[digest] < |d.files|
    && Sealed(d.files[d.objects[digest]])
    && hash(d.files[d.objects[digest]].content) == digest
    && Shard(digest) in d.durableShards
  }

  /** Nothing is ever visible under a digest but a sealed file of that digest. */
  predicate Sound(hash: Bytes -> Digest, d: Disk) {
    && (forall digest | digest in d.objects :: Filed(hash, d, digest))
    && (forall digest | digest in d.durableObjects ::
          digest in d.objects && d.objects[digest] == d.durableObjects[digest])
    && (forall name | name in d.staging :: d.staging[name] < |d.files|)
    && d.durableShards <= d.shards
  }

  predicate Kept(f: File, after: File) {
    && (f.durable.Some? ==> after.content == f.durable.value)
    && (f.durablyReadonly ==> after.readonly)
    && after.durable == Some(after.content) && after.durablyReadonly == after.readonly
  }

  /** What a power loss may leave: durable files and entries stand, the rest is up to chance. */
  ghost predicate Survives(d: Disk, after: Disk) {
    && |after.files| == |d.files|
    && (forall i | 0 <= i < |d.files| :: Kept(d.files[i], after.files[i]))
    && d.durableShards <= after.shards <= d.shards && after.durableShards == after.shards
    && (forall digest | digest in d.durableObjects && Shard(digest) in d.durableShards ::
          digest in after.objects && after.objects[digest] == d.durableObjects[digest])
    && (forall digest | digest in after.objects :: digest in d.objects && after.objects[digest] == d.objects[digest])
    && after.durableObjects == after.objects
    && (forall name | name in after.staging :: name in d.staging && after.staging[name] == d.staging[name])
  }

  /** Main result: at whatever point power is lost, what stands under a digest has that digest. */
  lemma {:induction false} CrashSafe(hash: Bytes -> Digest, d: Disk, after: Disk)
    requires Sound(hash, d) && Survives(d, after)
    ensures Sound(hash, after)
    ensures forall digest | digest in after.objects ::
              after.files[after.objects[digest]].content == d.files[d.objects[digest]].content
    ensures forall digest | digest in d.durableObjects ::
              digest in after.objects && after.objects[digest] == d.durableObjects[digest]
  {
    forall digest | digest in after.objects
      ensures Filed(hash, after, digest)
      ensures after.files[after.objects[digest]].content == d.files[d.objects[digest]].content
    {
      assert Filed(hash, d, digest);
    }
    forall digest | digest in d.durableObjects
      ensures digest in after.objects && after.objects[digest] == d.durableObjects[digest]
    {
      assert Filed(hash, d, digest);
    }
  }

  /** Entries are added, never rebound or taken away, and the files behind them stay as they are. */
  predicate Grows(d: Disk, n: Disk) {
    && |d.files| <= |n.files|
    && (forall digest | digest in d.objects :: digest in n.objects && n.objects[digest] == d.objects[digest])
    && (forall digest | digest in d.durableObjects ::
          digest in n.durableObjects && n.durableObjects[digest] == d.durableObjects[digest])
    && (forall i | 0 <= i < |d.files| && Sealed(d.files[i]) :: n.files[i] == d.files[i])
  }

  lemma {:induction false} GrowsTwice(a: Disk, b: Disk, c: Disk)
    requires Grows(a, b) && Grows(b, c)
    ensures Grows(a, c)
  {
  }

  /** One step of any history: the storage works on, or power is lost. */
  ghost predicate Onward(hash: Bytes -> Digest, d: Disk, n: Disk) {
    Sound(hash, d) && Sound(hash, n) && (Grows(d, n) || Survives(d, n))
  }

  ghost predicate History(hash: Bytes -> Digest, run: seq<Disk>) {
    forall i, j | 0 <= i && j == i + 1 < |run| :: Onward(hash, run[i], run[j])
  }

  lemma {:induction false} OnwardKeeps(hash: Bytes -> Digest, d: Disk, n: Disk, digest: Digest)
    requires Onward(hash, d, n) && digest in d.durableObjects
    ensures digest in n.durableObjects && n.durableObjects[digest] == d.durableObjects[digest]
    ensures n.files[n.durableObjects[digest]].content == d.files[d.durableObjects[digest]].content
  {
    assert Filed(hash, d, digest) && Filed(hash, n, digest) by {
      if Survives(d, n) { CrashSafe(hash, d, n); }
    }
    if Survives(d, n) { assert Kept(d.files[d.objects[digest]], n.files[d.objects[digest]]); }
  }

  /** Main result: over any history with power losses a durable entry stays, with its contents. */
  lemma {:induction false} NeverRebinds(hash: Bytes -> Digest, run: seq<Disk>, i: nat, j: nat, digest: Digest)
    requires History(hash, run) && i <= j < |run| && digest in run[i].durableObjects
    requires Sound(hash, run[i])
    ensures digest in run[j].durableObjects && run[j].durableObjects[digest] == run[i].durableObjects[digest]
    ensures Filed(hash, run[i], digest) && Sound(hash, run[j]) && Filed(hash, run[j], digest)
    ensures run[j].files[run[j].durableObjects[digest]].content == run[i].files[run[i].durableObjects[digest]].content
    decreases j
  {
    hide Survives, Grows, Filed;
    if i < j {
      NeverRebinds(hash, run, i, j - 1, digest);
      assert Onward(hash, run[j - 1], run[j]);
      OnwardKeeps(hash, run[j - 1], run[j], digest);
    }
  }

  class ArchiveStorage {
    const hash: Bytes -> Digest

    /** True in an environment where no system call fails. */
    const faultless: bool

    var files: seq<File>
    var staging: map<string, nat>
    var shards: set<string>
    var durableShards: set<string>
    var objects: map<Digest, nat>
    var durableObjects: map<Digest, nat>

    function State(): Disk
      reads this
    {
      Disk(files, staging, shards, durableShards, objects, durableObjects)
    }

    predicate Valid()
      reads this
    {
      Sound(hash, State())
    }

    constructor (hash: Bytes -> Digest, faultless: bool)
      ensures this.hash == hash && this.faultless == faultless && Valid() && objects == map[] && staging == map[]
    {
      this.hash, this.faultless := hash, faultless;
      files, staging, objects, durableObjects := [], map[], map[], map[];
      shards, durableShards := {}, {};
    }

    /** Whether one system call succeeds. */
    method Call() returns (ok: bool)
      ensures faultless ==> ok
    {
      ok := *;
      ok := ok || faultless;
    }

    /** Make or find a directory, and make its own entry durable before anything goes into it. */
    method EnsureShard(shard: string) returns (ok: bool)
      requires Valid()
      modifies this`shards, this`durableShards
      ensures Valid() && Grows(old(State()), State())
      ensures ok ==> shard in durableShards
      ensures faultless ==> ok
    {
      ok := Call();
      if !ok { return; }
      shards := shards + {shard};
      ok := Call();
      if ok { durableShards := durableShards + {shard}; }
    }

    /** A new private file with some contents, none of it durable yet. */
    method CreateStaging(name: string, content: Bytes) returns (ok: bool)
      requires Valid()
      modifies this`files, this`staging
      ensures Valid() && Grows(old(State()), State())
      ensures ok ==> name in staging && staging[name] == |old(files)| && |files| == |old(files)| + 1
      ensures ok ==> files[staging[name]] == File(content, None, false, false)
      ensures faultless ==> (ok <==> name !in old(staging))
    {
      if name in staging { return false; }
      ok := Call();
      if !ok { return; }
      files := files + [File(content, None, false, false)];
      staging := staging[name := |files| - 1];
    }

    /** The staged file is complete on disk and read-only. */
    predicate Prepared(name: string)
      reads this
    {
      name in staging && staging[name] < |files| && Sealed(files[staging[name]])
    }

    /** Sync the bytes, drop write permission, sync that too, and hash what is there. */
    method PrepareStaging(name: string) returns (r: Option<(nat, Digest)>)
      requires Valid() && name in staging && !files[staging[name]].readonly
      modifies this`files
      ensures Valid() && Grows(old(State()), State()) && |files| == |old(files)|
      ensures r.Some? ==> Prepared(name) && r.value.1 == hash(files[staging[name]].content)
      ensures r.Some? ==> files[staging[name]].content == old(files[staging[name]]).content
      ensures r.Some? ==> r.value.0 == |files[staging[name]].content|
      ensures faultless ==> r.Some?
    {
      var i := staging[name];
      var synced := Call();
      if !synced { return None; }
      files := files[i := files[i].(durable := Some(files[i].content))];
      var changed := Call();
      if !changed { return None; }
      files := files[i := files[i].(readonly := true)];
      synced := Call();
      if !synced { return None; }
      files := files[i := files[i].(durablyReadonly := true)];
      r := Some((|files[i].content|, hash(files[i].content)));
    }

    /** What is filed under a digest hashes to it. */
    method FileSha256(digest: Digest) returns (r: Option<Digest>)
      requires Valid() && digest in objects
      ensures r == Some(digest)
    {
      assert Filed(hash, State(), digest);
      var file := files[objects[digest]];
      if !file.readonly { return None; }
      r := Some(hash(file.content));
    }

    /** The link itself, or the check that what is there already has this digest. */
    method LinkObject(name: string, digest: Digest) returns (ok: bool)
      requires Valid() && Prepared(name) && hash(files[staging[name]].content) == digest
      requires Shard(digest) in durableShards
      modifies this`objects
      ensures Valid() && Grows(old(State()), State())
      ensures objects == old(objects) || (digest !in old(objects) && objects == old(objects)[digest := staging[name]])
      ensures ok ==> digest in objects
      ensures faultless ==> ok
    {
      if digest in objects {
        var found := FileSha256(digest);
        return found == Some(digest);
      }
      ok := Call();
      if ok { objects := objects[digest := staging[name]]; }
    }

    /** Make the entries of an object's directory durable. */
    method SyncShard(digest: Digest) returns (ok: bool)
      requires Valid() && digest in objects
      modifies this`durableObjects
      ensures Valid() && Grows(old(State()), State())
      ensures ok ==> digest in durableObjects && hash(files[durableObjects[digest]].content) == digest
      ensures !ok ==> durableObjects == old(durableObjects)
      ensures faultless ==> ok
    {
      assert Filed(hash, State(), digest);
      ok := Call();
      if ok {
        durableObjects := durableObjects + map d | d in objects && Shard(d) == Shard(digest) :: objects[d];
      }
    }

    method Forget(name: string) returns (ok: bool)
      requires Valid()
      modifies this`staging
      ensures Valid() && Grows(old(State()), State())
      ensures staging == old(staging) || staging == old(staging) - {name}
      ensures ok ==> name !in staging
      ensures faultless ==> ok
    {
      ok := Call();
      if !ok { return; }
      staging := staging - {name};
      ok := Call();
    }

    /**
     * Link the prepared file under its digest, or find it already there; make the entry
     * durable; only then forget the staged name. Doing it again changes nothing.
     */
    method InstallStaging(name: string, digest: Digest) returns (ok: bool)
      requires Valid() && Prepared(name) && hash(files[staging[name]].content) == digest
      modifies this`shards, this`durableShards, this`objects, this`durableObjects, this`staging
      ensures Valid() && Grows(old(State()), State())
      ensures objects == old(objects) ||
              (digest !in old(objects) && objects == old(objects)[digest := old(staging[name])])
      ensures ok ==> digest in durableObjects && name !in staging
      ensures ok ==> hash(files[durableObjects[digest]].content) == digest
      ensures !ok ==> staging == old(staging) || staging == old(staging) - {name}
      ensures faultless ==> ok
    {
      hide Sound, Sealed;
      ghost var a := State();
      ok := EnsureShard(Shard(digest));
      if !ok { return; }
      ghost var b := State();
      ok := LinkObject(name, digest);
      GrowsTwice(a, b, State());
      if !ok { return; }
      ghost var c := State();
      ok := SyncShard(digest);
      GrowsTwice(a, c, State());
      if !ok { return; }
      ghost var d := State();
      ok := Forget(name);
      GrowsTwice(a, d, State());
    }

    /** Power is lost, and something that may survive is found afterwards. */
    method LosePower(after: Disk)
      requires Valid() && Survives(State(), after)
      modifies this
      ensures State() == after && Valid()
      ensures forall digest | digest in old(durableObjects) :: digest in durableObjects
    {
      CrashSafe(hash, State(), after);
      files, staging := after.files, after.staging;
      shards, durableShards := after.shards, after.durableShards;
      objects, durableObjects := after.objects, after.durableObjects;
    }

    /** Stage, prepare and install one content under its own digest. */
    method Store(name: string, content: Bytes) returns (ok: bool)
      requires Valid()
      modifies this
      ensures Valid() && Grows(old(State()), State())
      ensures ok ==> hash(content) in durableObjects
      ensures hash(content) in old(objects) ==> objects == old(objects)
      ensures faultless ==> (ok <==> name !in old(staging))
    {
      ok := CreateStaging(name, content);
      if !ok { return; }
      ghost var a := State();
      var prepared := PrepareStaging(name);
      if prepared.None? { return false; }
      GrowsTwice(old(State()), a, State());
      ghost var b := State();
      ok := InstallStaging(name, prepared.value.1);
      GrowsTwice(old(State()), b, State());
    }
  }
}
