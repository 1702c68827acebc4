/** src/db/dbManager.ts: the three process-wide collections, the loaders that
    fill them from the snapshot files, and the hook that rewrites a snapshot
    after a mutating array method. Reading and writing the files is I/O: a
    snapshot arrives as a sequence of records, and each rewrite the hook
    would perform is appended to the ghost log `writes`. */
module DbManager {
  import opened Js
  import opened Models

  /** The snapshot files rents.json, bloqs.json and lockers.json. */
  datatype File = RentsFile | BloqsFile | LockersFile

  /** The array methods `listenChangesinArray` replaces. */
  datatype ArrayMethod = Pop | Push | Reverse | Shift | Unshift | Splice | Sort

  /** Which model class a value is an instance of. */
  datatype Kind = BloqKind | LockerKind | RentKind

  function SnapshotOf(k: Kind): File
  {
    match k
    case BloqKind => BloqsFile
    case LockerKind => LockersFile
    case RentKind => RentsFile
  }

  /** The rewrites one wrapped call performs, in order. `firstArg` is the class
      of the call's first argument (None when it is not a Bloq, Locker or
      Rent: a number, a function, or no argument at all); `firstAfter` is the
      class of the array's first element once the call is done (None when the
      array is then empty). */
  function WriteTargets(m: ArrayMethod, firstArg: Option<Kind>, firstAfter: Option<Kind>): (files: seq<File>)
    ensures |files| <= 2
    ensures firstArg.None? && m != Splice ==> files == []
    ensures (m == Push || m == Unshift) && firstArg.Some? ==> files == [SnapshotOf(firstArg.value)]
    ensures m == Splice && firstArg.None? && firstAfter.None? ==> files == []
    ensures m == Splice && firstArg.None? && firstAfter.Some? ==> files == [SnapshotOf(firstAfter.value)]
    ensures forall f :: f in files ==>
      (firstArg.Some? && f == SnapshotOf(firstArg.value)) ||
      (m == Splice && firstAfter.Some? && f == SnapshotOf(firstAfter.value))
  {
    (if firstArg.Some? then [SnapshotOf(firstArg.value)] else []) +
    (if m == Splice && firstAfter.Some? then [SnapshotOf(firstAfter.value)] else [])
  }

  /** Pop, shift, reverse and sort called with their usual arguments (none, or
      a comparison function) never rewrite a snapshot, whatever the array holds. */
  lemma ReorderingNeverWrites(m: ArrayMethod, firstAfter: Option<Kind>)
    requires m in {Pop, Shift, Reverse, Sort}
    ensures WriteTargets(m, None, firstAfter) == []
  {
  }

  /** The class of the first of some items all of one class. */
  function FirstKind<T>(items: seq<T>, k: Kind): (r: Option<Kind>)
    ensures r.Some? <==> |items| > 0
  {
    if |items| > 0 then Some(k) else None
  }

  /** A snapshot file's rents pass only five fields to the constructor. */
  function LoadRent(r: Rent): (loaded: Rent)
    ensures loaded.id == r.id && loaded.lockerId == r.lockerId && loaded.weight == r.weight
    ensures loaded.size == r.size && loaded.status == r.status
    ensures loaded.createdAt.None? && loaded.droppedAt.None? && loaded.pickedUpAt.None?
  {
    NewRent(r.id, r.lockerId, r.weight, r.size, r.status, None, None, None)
  }

  function LoadRents(snapshot: seq<Rent>): (loaded: seq<Rent>)
    ensures |loaded| == |snapshot|
    ensures forall k :: 0 <= k < |loaded| ==> loaded[k] == LoadRent(snapshot[k])
  {
    seq(|snapshot|, k requires 0 <= k < |snapshot| => LoadRent(snapshot[k]))
  }

  function Repeat(f: File, n: nat): (r: seq<File>)
    ensures |r| == n && forall k :: 0 <= k < n ==> r[k] == f
  {
    seq(n, _ => f)
  }

  class Store {
    var bloqCollection: seq<Bloq>
    var lockerCollection: seq<Locker>
    var rentCollection: seq<Rent>
    /** Whether `listenChangesinArray` has wrapped the collections. */
    var listening: bool
    /** The snapshot rewrites performed so far. */
    ghost var writes: seq<File>

    /** All three collections start empty, with no hook attached. */
    constructor ()
      ensures bloqCollection == [] && lockerCollection == [] && rentCollection == []
      ensures !listening && writes == []
    {
      bloqCollection, lockerCollection, rentCollection := [], [], [];
      listening := false;
      writes := [];
    }

    /** What the hook writes for one call: nothing until it is attached. */
    function Hook(m: ArrayMethod, firstArg: Option<Kind>, firstAfter: Option<Kind>): (files: seq<File>)
      reads this
      ensures !listening ==> files == []
      ensures listening && (m == Push || m == Unshift) && firstArg.Some? ==> files == [SnapshotOf(firstArg.value)]
      ensures listening && m == Splice && firstArg.None? ==>
        files == (if firstAfter.Some? then [SnapshotOf(firstAfter.value)] else [])
      ensures listening && firstArg.None? && m != Splice ==> files == []
    {
      if listening then WriteTargets(m, firstArg, firstAfter) else []
    }

    /** `listenChangesinArray` on each collection. */
    method Listen()
      modifies this
      ensures listening
      ensures bloqCollection == old(bloqCollection) && lockerCollection == old(lockerCollection)
      ensures rentCollection == old(rentCollection) && writes == old(writes)
    {
      listening := true;
    }

    /** bloqCollection.push(...items): the plain push, then the hook. A write
        failure is only logged by the hook, so it cannot undo the push. */
    method PushBloqs(items: seq<Bloq>) returns (length: nat)
      modifies this
      ensures bloqCollection == old(bloqCollection) + items && length == |bloqCollection|
      ensures lockerCollection == old(lockerCollection) && rentCollection == old(rentCollection)
      ensures listening == old(listening)
      ensures writes == old(writes) + Hook(Push, FirstKind(items, BloqKind), FirstKind(bloqCollection, BloqKind))
    {
      bloqCollection := bloqCollection + items;
      length := |bloqCollection|;
      writes := writes + Hook(Push, FirstKind(items, BloqKind), FirstKind(bloqCollection, BloqKind));
    }

    method PushLockers(items: seq<Locker>) returns (length: nat)
      modifies this
      ensures lockerCollection == old(lockerCollection) + items && length == |lockerCollection|
      ensures bloqCollection == old(bloqCollection) && rentCollection == old(rentCollection)
      ensures listening == old(listening)
      ensures writes == old(writes) + Hook(Push, FirstKind(items, LockerKind), FirstKind(lockerCollection, LockerKind))
    {
      lockerCollection := lockerCollection + items;
      length := |lockerCollection|;
      writes := writes + Hook(Push, FirstKind(items, LockerKind), FirstKind(lockerCollection, LockerKind));
    }

    method PushRents(items: seq<Rent>) returns (length: nat)
      modifies this
      ensures rentCollection == old(rentCollection) + items && length == |rentCollection|
      ensures bloqCollection == old(bloqCollection) && lockerCollection == old(lockerCollection)
      ensures listening == old(listening)
      ensures writes == old(writes) + Hook(Push, FirstKind(items, RentKind), FirstKind(rentCollection, RentKind))
    {
      rentCollection := rentCollection + items;
      length := |rentCollection|;
      writes := writes + Hook(Push, FirstKind(items, RentKind), FirstKind(rentCollection, RentKind));
    }

    /** bloqCollection.splice(start, deleteCount, ...items): the plain splice,
        then the hook. The first argument is a number, so only the class of
        the array's first element afterwards decides the rewrite. */
    method SpliceBloqs(start: int, deleteCount: int, items: seq<Bloq>) returns (removed: seq<Bloq>)
      modifies this
      ensures (removed, bloqCollection) == Js.Splice(old(bloqCollection), start, deleteCount, items)
      ensures lockerCollection == old(lockerCollection) && rentCollection == old(rentCollection)
      ensures listening == old(listening)
      ensures writes == old(writes) + Hook(Splice, None, FirstKind(bloqCollection, BloqKind))
    {
      var r := Js.Splice(bloqCollection, start, deleteCount, items);
      removed, bloqCollection := r.0, r.1;
      writes := writes + Hook(Splice, None, FirstKind(bloqCollection, BloqKind));
    }

    method SpliceLockers(start: int, deleteCount: int, items: seq<Locker>) returns (removed: seq<Locker>)
      modifies this
      ensures (removed, lockerCollection) == Js.Splice(old(lockerCollection), start, deleteCount, items)
      ensures bloqCollection == old(bloqCollection) && rentCollection == old(rentCollection)
      ensures listening == old(listening)
      ensures writes == old(writes) + Hook(Splice, None, FirstKind(lockerCollection, LockerKind))
    {
      var r := Js.Splice(lockerCollection, start, deleteCount, items);
      removed, lockerCollection := r.0, r.1;
      writes := writes + Hook(Splice, None, FirstKind(lockerCollection, LockerKind));
    }

    method SpliceRents(start: int, deleteCount: int, items: seq<Rent>) returns (removed: seq<Rent>)
      modifies this
      ensures (removed, rentCollection) == Js.Splice(old(rentCollection), start, deleteCount, items)
      ensures bloqCollection == old(bloqCollection) && lockerCollection == old(lockerCollection)
      ensures listening == old(listening)
      ensures writes == old(writes) + Hook(Splice, None, FirstKind(rentCollection, RentKind))
    {
      var r := Js.Splice(rentCollection, start, deleteCount, items);
      removed, rentCollection := r.0, r.1;
      writes := writes + Hook(Splice, None, FirstKind(rentCollection, RentKind));
    }

    /** A field assignment on the record at index i through the reference
        that `find` returned: not an array method, so the hook does not see it. */
    method MutateBloqAt(i: nat, b: Bloq)
      requires i < |bloqCollection|
      modifies this
      ensures bloqCollection == old(bloqCollection)[i := b]
      ensures lockerCollection == old(lockerCollection) && rentCollection == old(rentCollection)
      ensures listening == old(listening) && writes == old(writes)
    {
      bloqCollection := bloqCollection[i := b];
    }

    method MutateLockerAt(i: nat, l: Locker)
      requires i < |lockerCollection|
      modifies this
      ensures lockerCollection == old(lockerCollection)[i := l]
      ensures bloqCollection == old(bloqCollection) && rentCollection == old(rentCollection)
      ensures listening == old(listening) && writes == old(writes)
    {
      lockerCollection := lockerCollection[i := l];
    }

    method MutateRentAt(i: nat, r: Rent)
      requires i < |rentCollection|
      modifies this
      ensures rentCollection == old(rentCollection)[i := r]
      ensures bloqCollection == old(bloqCollection) && lockerCollection == old(lockerCollection)
      ensures listening == old(listening) && writes == old(writes)
    {
      rentCollection := rentCollection[i := r];
    }

    /** `populateBloqs`: push a copy of each snapshot record, in file order,
        after whatever the collection already holds. */
    method PopulateBloqs(snapshot: seq<Bloq>)
      modifies this
      ensures bloqCollection == old(bloqCollection) + snapshot
      ensures lockerCollection == old(lockerCollection) && rentCollection == old(rentCollection)
      ensures listening == old(listening)
      ensures writes == old(writes) + (if listening then Repeat(BloqsFile, |snapshot|) else [])
    {
      for k := 0 to |snapshot|
        invariant bloqCollection == old(bloqCollection) + snapshot[..k]
        invariant lockerCollection == old(lockerCollection) && rentCollection == old(rentCollection)
        invariant listening == old(listening)
        invariant writes == old(writes) + (if listening then Repeat(BloqsFile, k) else [])
      {
        var b := snapshot[k];
        var _ := PushBloqs([Bloq(b.id, b.title, b.address)]);
        assert snapshot[..k + 1] == snapshot[..k] + [b];
        assert listening ==> Repeat(BloqsFile, k + 1) == Repeat(BloqsFile, k) + [BloqsFile];
      }
      assert snapshot[..|snapshot|] == snapshot;
    }

    /** `populateLockers`. */
    method PopulateLockers(snapshot: seq<Locker>)
      modifies this
      ensures lockerCollection == old(lockerCollection) + snapshot
      ensures bloqCollection == old(bloqCollection) && rentCollection == old(rentCollection)
      ensures listening == old(listening)
      ensures writes == old(writes) + (if listening then Repeat(LockersFile, |snapshot|) else [])
    {
      for k := 0 to |snapshot|
        invariant lockerCollection == old(lockerCollection) + snapshot[..k]
        invariant bloqCollection == old(bloqCollection) && rentCollection == old(rentCollection)
        invariant listening == old(listening)
        invariant writes == old(writes) + (if listening then Repeat(LockersFile, k) else [])
      {
        var l := snapshot[k];
        var _ := PushLockers([Locker(l.id, l.bloqId, l.status, l.isOccupied)]);
        assert snapshot[..k + 1] == snapshot[..k] + [l];
        assert listening ==> Repeat(LockersFile, k + 1) == Repeat(LockersFile, k) + [LockersFile];
      }
      assert snapshot[..|snapshot|] == snapshot;
    }

    /** `populateRents`: the snapshot's timestamps are dropped on the way in. */
    method PopulateRents(snapshot: seq<Rent>)
      modifies this
      ensures rentCollection == old(rentCollection) + LoadRents(snapshot)
      ensures bloqCollection == old(bloqCollection) && lockerCollection == old(lockerCollection)
      ensures listening == old(listening)
      ensures writes == old(writes) + (if listening then Repeat(RentsFile, |snapshot|) else [])
    {
      for k := 0 to |snapshot|
        invariant rentCollection == old(rentCollection) + LoadRents(snapshot[..k])
        invariant bloqCollection == old(bloqCollection) && lockerCollection == old(lockerCollection)
        invariant listening == old(listening)
        invariant writes == old(writes) + (if listening then Repeat(RentsFile, k) else [])
      {
        var r := snapshot[k];
        var _ := PushRents([NewRent(r.id, r.lockerId, r.weight, r.size, r.status, None, None, None)]);
        assert LoadRents(snapshot[..k + 1]) == LoadRents(snapshot[..k]) + [LoadRent(r)];
        assert listening ==> Repeat(RentsFile, k + 1) == Repeat(RentsFile, k) + [RentsFile];
      }
      assert snapshot[..|snapshot|] == snapshot;
    }

    /** `initTestDb`: bloqs, then lockers, then rents, appended after whatever
        is already there (nothing is cleared) and no hook is attached. */
    method InitTestDb(bloqs: seq<Bloq>, lockers: seq<Locker>, rents: seq<Rent>)
      modifies this
      ensures bloqCollection == old(bloqCollection) + bloqs
      ensures lockerCollection == old(lockerCollection) + lockers
      ensures rentCollection == old(rentCollection) + LoadRents(rents)
      ensures listening == old(listening)
      ensures writes == old(writes) + (if listening
        then Repeat(BloqsFile, |bloqs|) + Repeat(LockersFile, |lockers|) + Repeat(RentsFile, |rents|)
        else [])
    {
      PopulateBloqs(bloqs);
      PopulateLockers(lockers);
      PopulateRents(rents);
    }

    /** `initDb`: the same loading, after which the hook is attached. */
    method InitDb(bloqs: seq<Bloq>, lockers: seq<Locker>, rents: seq<Rent>)
      modifies this
      ensures bloqCollection == old(bloqCollection) + bloqs
      ensures lockerCollection == old(lockerCollection) + lockers
      ensures rentCollection == old(rentCollection) + LoadRents(rents)
      ensures listening
      ensures writes == old(writes) + (if old(listening)
        then Repeat(BloqsFile, |bloqs|) + Repeat(LockersFile, |lockers|) + Repeat(RentsFile, |rents|)
        else [])
    {
      PopulateBloqs(bloqs);
      PopulateLockers(lockers);
      PopulateRents(rents);
      Listen();
    }
  }
}
