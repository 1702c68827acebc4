/** src/controllers/lockers.controller.ts: the locker resource over
    `lockerCollection`. */
module LockersController {
  import opened Js
  import opened Http
  import opened Models
  import opened DbManager
  import Pagination

  /** Body of a create request. */
  datatype LockerBody = LockerBody(bloqId: Option<string>, status: Option<LockerStatus>, isOccupied: Option<bool>)

  /** Body of an update request; `id` and `bloqId` are read but never used. */
  datatype LockerPatch = LockerPatch(id: Option<string>, bloqId: Option<string>, status: Option<string>,
                                     isOccupied: Option<bool>)

  /** `getIndexById`: `lockerCollection.map(l => l.id).indexOf(id)`, the
      position of the first locker with that id, or -1. */
  function GetIndexById(lockers: seq<Locker>, id: string): (i: int)
    ensures -1 <= i < |lockers|
    ensures i == -1 <==> forall k :: 0 <= k < |lockers| ==> lockers[k].id != id
    ensures 0 <= i ==> lockers[i].id == id && forall k :: 0 <= k < i ==> lockers[k].id != id
  {
    var ids := MapSeq(LockerKey, lockers);
    var i := IndexOf(ids, id);
    assert 0 <= i ==> forall k :: 0 <= k < i ==> ids[..i][k] == lockers[k].id;
    i
  }

  /** `findById`: `lockerCollection.find(l => l.id === id)`; it finds exactly
      the locker at `getIndexById`. */
  function FindById(lockers: seq<Locker>, id: string): (r: Option<Locker>)
    ensures r == (if GetIndexById(lockers, id) < 0 then None else Some(lockers[GetIndexById(lockers, id)]))
  {
    var i := GetIndexById(lockers, id);
    if i < 0 then Find(lockers, LockerKey, id)
    else
      FindIsFirstMatch(lockers, LockerKey, id, i);
      Find(lockers, LockerKey, id)
  }

  /** `findByBloqId`: the lockers whose bloqId is the given one, in collection order. */
  function FindByBloqId(lockers: seq<Locker>, bloqId: string): (r: seq<Locker>)
    ensures |r| <= |lockers|
    ensures forall l :: l in r <==> l in lockers && l.bloqId == Some(bloqId)
  {
    if |lockers| == 0 then []
    else (if lockers[0].bloqId == Some(bloqId) then [lockers[0]] else []) + FindByBloqId(lockers[1..], bloqId)
  }

  /** Filtering a concatenation filters each part. */
  lemma {:induction false} FindByBloqIdAppend(a: seq<Locker>, b: seq<Locker>, bloqId: string)
    ensures FindByBloqId(a + b, bloqId) == FindByBloqId(a, bloqId) + FindByBloqId(b, bloqId)
  {
    if |a| > 0 {
      assert (a + b)[1..] == a[1..] + b;
      FindByBloqIdAppend(a[1..], b, bloqId);
    } else {
      assert a + b == b;
    }
  }

  /** Lockers that all belong to the bloq are all kept. */
  lemma {:induction false} FindByBloqIdKeepsAll(lockers: seq<Locker>, bloqId: string)
    requires forall k :: 0 <= k < |lockers| ==> lockers[k].bloqId == Some(bloqId)
    ensures FindByBloqId(lockers, bloqId) == lockers
  {
    if |lockers| > 0 {
      FindByBloqIdKeepsAll(lockers[1..], bloqId);
    }
  }

  /** `list` over lockerCollection. */
  function List(store: Store, page: Query, perPage: Query): (r: Response<Pagination.Page<Locker>>)
    reads store
    ensures r.BadRequest? <==> page.NaN? || perPage.NaN?
    ensures r.Ok? ==> r.body.total == |store.lockerCollection|
    ensures r.Ok? ==> Pagination.IsWindow(r.body.data, store.lockerCollection)
  {
    Pagination.List(store.lockerCollection, page, perPage)
  }

  /** `getById`: the first locker with the id, or Not Found. */
  function GetById(store: Store, id: string): (r: Response<Locker>)
    reads store
    ensures !r.BadRequest?
    ensures r.NotFound? <==> forall k :: 0 <= k < |store.lockerCollection| ==> store.lockerCollection[k].id != id
    ensures r.Ok? ==> r.body.id == id && r.body in store.lockerCollection
    ensures r.Ok? ==> 0 <= GetIndexById(store.lockerCollection, id) && r.body == store.lockerCollection[GetIndexById(store.lockerCollection, id)]
  {
    match FindById(store.lockerCollection, id)
    case None => NotFound
    case Some(locker) => Ok(locker)
  }

  /** `save`: a new locker with the fresh id and the body's bloqId, status and
      isOccupied, appended and sent back. */
  method Save(store: Store, freshId: string, body: LockerBody) returns (r: Response<Locker>)
    modifies store
    ensures store.lockerCollection == old(store.lockerCollection) + [Locker(freshId, body.bloqId, body.status, body.isOccupied)]
    ensures r == Ok(Locker(freshId, body.bloqId, body.status, body.isOccupied))
    ensures store.bloqCollection == old(store.bloqCollection) && store.rentCollection == old(store.rentCollection)
    ensures store.listening == old(store.listening)
    ensures store.writes == old(store.writes) + store.Hook(Push, Some(LockerKind), Some(LockerKind))
  {
    var locker := Locker(freshId, body.bloqId, body.status, body.isOccupied);
    var index := store.PushLockers([locker]);
    r := Ok(store.lockerCollection[index - 1]);
  }

  /** The locker after update's field assignments: status only when it is
      OPEN or CLOSED, isOccupied only when truthy; id and bloqId never. */
  function Patch(l: Locker, p: LockerPatch): (u: Locker)
    ensures u.id == l.id && u.bloqId == l.bloqId
    ensures u.status == l.status || (p.status.Some? && u.status == LockerStatusValue(p.status.value) && u.status.Some?)
    ensures u.isOccupied == l.isOccupied || (TruthyBool(p.isOccupied) && u.isOccupied == Some(true))
  {
    var u := if p.status.Some? && LockerStatusValue(p.status.value).Some?
             then l.(status := LockerStatusValue(p.status.value)) else l;
    if TruthyBool(p.isOccupied) then u.(isOccupied := p.isOccupied) else u
  }

  /** The update can set the occupancy flag but never clear it: a supplied
      false, like an absent value, leaves it as it was. */
  lemma PatchNeverClearsOccupancy(l: Locker, p: LockerPatch)
    requires !TruthyBool(p.isOccupied)
    ensures Patch(l, p).isOccupied == l.isOccupied
  {
  }

  /** A status other than OPEN or CLOSED is ignored. */
  lemma PatchIgnoresUnknownStatus(l: Locker, p: LockerPatch)
    requires p.status.None? || p.status.value !in {"OPEN", "CLOSED"}
    ensures Patch(l, p).status == l.status
  {
  }

  /** An OPEN or CLOSED status is written as named, and a truthy isOccupied
      is written: with the two lemmas above, each field changes exactly when
      its guard lets the value through. */
  lemma PatchTakesStatusAndOccupancy(l: Locker, p: LockerPatch)
    ensures p.status.Some? && p.status.value in {"OPEN", "CLOSED"} ==>
      Patch(l, p).status.Some? && LockerStatusName(Patch(l, p).status.value) == p.status.value
    ensures TruthyBool(p.isOccupied) ==> Patch(l, p).isOccupied == Some(true)
  {
  }

  /** Repeating an update with the same body changes nothing more. */
  lemma PatchIdempotent(l: Locker, p: LockerPatch)
    ensures Patch(Patch(l, p), p) == Patch(l, p)
  {
  }

  /** The field assignments of `update`, made through the reference `find`
      returned and therefore on the stored record itself. */
  method AssignFields(store: Store, lockerIdx: nat, body: LockerPatch)
    requires lockerIdx < |store.lockerCollection|
    modifies store
    ensures store.lockerCollection == old(store.lockerCollection)[lockerIdx := Patch(old(store.lockerCollection)[lockerIdx], body)]
    ensures store.bloqCollection == old(store.bloqCollection) && store.rentCollection == old(store.rentCollection)
    ensures store.listening == old(store.listening) && store.writes == old(store.writes)
  {
    if body.status.Some? && LockerStatusValue(body.status.value).Some? {
      store.MutateLockerAt(lockerIdx, store.lockerCollection[lockerIdx].(status := LockerStatusValue(body.status.value)));
    }
    if TruthyBool(body.isOccupied) {
      store.MutateLockerAt(lockerIdx, store.lockerCollection[lockerIdx].(isOccupied := body.isOccupied));
    }
  }

  /** `update`: Not Found for an unknown id; otherwise the locker is patched
      where it stands and the response is the one-element list splice hands back. */
  method Update(store: Store, lockerId: string, body: LockerPatch) returns (r: Response<seq<Locker>>)
    modifies store
    ensures old(GetIndexById(store.lockerCollection, lockerId)) < 0 ==>
      r == NotFound && store.lockerCollection == old(store.lockerCollection) && store.writes == old(store.writes)
    ensures old(GetIndexById(store.lockerCollection, lockerId)) >= 0 ==>
      var i := old(GetIndexById(store.lockerCollection, lockerId));
      var u := Patch(old(store.lockerCollection)[i], body);
      && store.lockerCollection == old(store.lockerCollection)[i := u]
      && r == Ok([u])
      && store.writes == old(store.writes) + store.Hook(Splice, None, Some(LockerKind))
    ensures store.bloqCollection == old(store.bloqCollection) && store.rentCollection == old(store.rentCollection)
    ensures store.listening == old(store.listening)
  {
    var locker := FindById(store.lockerCollection, lockerId);
    var lockerIdx := GetIndexById(store.lockerCollection, lockerId);
    if locker.None? || lockerIdx < 0 {
      return NotFound;
    }
    AssignFields(store, lockerIdx, body);
    var updated := store.lockerCollection[lockerIdx];
    SpliceReplacesAt(store.lockerCollection, lockerIdx, updated);
    var result := store.SpliceLockers(lockerIdx, 1, [updated]);
    r := Ok(result);
  }

  /** `delete`: Not Found for an unknown id; otherwise exactly the first
      locker with the id is removed, the rest keep their order, and no other
      collection is touched. */
  method Delete(store: Store, lockerId: string) returns (r: Response<string>)
    modifies store
    ensures old(GetIndexById(store.lockerCollection, lockerId)) < 0 ==>
      r == NotFound && store.lockerCollection == old(store.lockerCollection) && store.writes == old(store.writes)
    ensures old(GetIndexById(store.lockerCollection, lockerId)) >= 0 ==>
      var i := old(GetIndexById(store.lockerCollection, lockerId));
      && store.lockerCollection == old(store.lockerCollection)[..i] + old(store.lockerCollection)[i + 1..]
      && store.lockerCollection == RemoveFirst(old(store.lockerCollection), LockerKey, lockerId)
      && r == Ok("locker has been removed")
      && store.writes == old(store.writes) + store.Hook(Splice, None, FirstKind(store.lockerCollection, LockerKind))
    ensures store.bloqCollection == old(store.bloqCollection) && store.rentCollection == old(store.rentCollection)
    ensures store.listening == old(store.listening)
  {
    var lockerToRemove := FindById(store.lockerCollection, lockerId);
    if lockerToRemove.None? {
      return NotFound;
    }
    var idx := GetIndexById(store.lockerCollection, lockerToRemove.value.id);
    if idx >= -1 {
      SpliceRemovesAt(store.lockerCollection, idx);
      CutAtFirstMatch(store.lockerCollection, LockerKey, lockerId, idx);
      var _ := store.SpliceLockers(idx, 1, []);
    }
    r := Ok("locker has been removed");
  }
}
