/** src/controllers/rents.controller.ts: the rent resource over
    `rentCollection`. The controller imports lockerCollection but never reads
    or writes it: no operation here changes a locker's occupancy. */
module RentsController {
  import opened Js
  import opened Http
  import opened Models
  import opened DbManager
  import Pagination

  /** Body of a create request. */
  datatype RentBody = RentBody(lockerId: Option<string>, weight: Option<int>, size: Option<RentSize>,
                               status: Option<RentStatus>)

  /** Body of an update request; `id` is read but never used, and `status` is
      the raw string the client sent. */
  datatype RentPatch = RentPatch(id: Option<string>, lockerId: Option<string>, weight: Option<int>,
                                 size: Option<RentSize>, status: Option<string>,
                                 createdAt: Option<Timestamp>, droppedAt: Option<Timestamp>,
                                 pickedUpAt: Option<Timestamp>)

  /** `getIndexById`: the position of the first rent with that id, or -1. */
  function GetIndexById(rents: seq<Rent>, id: string): (i: int)
    ensures -1 <= i < |rents|
    ensures i == -1 <==> forall k :: 0 <= k < |rents| ==> rents[k].id != id
    ensures 0 <= i ==> rents[i].id == id && forall k :: 0 <= k < i ==> rents[k].id != id
  {
    var ids := MapSeq(RentKey, rents);
    var i := IndexOf(ids, id);
    assert 0 <= i ==> forall k :: 0 <= k < i ==> ids[..i][k] == rents[k].id;
    i
  }

  /** `findById`: it finds exactly the rent at `getIndexById`. */
  function FindById(rents: seq<Rent>, id: string): (r: Option<Rent>)
    ensures r == (if GetIndexById(rents, id) < 0 then None else Some(rents[GetIndexById(rents, id)]))
  {
    var i := GetIndexById(rents, id);
    if i < 0 then Find(rents, RentKey, id)
    else
      FindIsFirstMatch(rents, RentKey, id, i);
      Find(rents, RentKey, id)
  }

  /** `findByLockerId`: the rents held in one locker, in collection order. */
  function FindByLockerId(rents: seq<Rent>, lockerId: string): (r: seq<Rent>)
    ensures |r| <= |rents|
    ensures forall x :: x in r <==> x in rents && x.lockerId == Some(lockerId)
  {
    if |rents| == 0 then []
    else (if rents[0].lockerId == Some(lockerId) then [rents[0]] else []) + FindByLockerId(rents[1..], lockerId)
  }

  /** The filter keeps collection order: it distributes over concatenation. */
  lemma {:induction false} FindByLockerIdAppend(a: seq<Rent>, b: seq<Rent>, lockerId: string)
    ensures FindByLockerId(a + b, lockerId) == FindByLockerId(a, lockerId) + FindByLockerId(b, lockerId)
  {
    if |a| > 0 {
      assert (a + b)[1..] == a[1..] + b;
      FindByLockerIdAppend(a[1..], b, lockerId);
    } else {
      assert a + b == b;
    }
  }

  /** `list` over rentCollection. */
  function List(store: Store, page: Query, perPage: Query): (r: Response<Pagination.Page<Rent>>)
    reads store
    ensures r.BadRequest? <==> page.NaN? || perPage.NaN?
    ensures r.Ok? ==> r.body.total == |store.rentCollection|
    ensures r.Ok? ==> Pagination.IsWindow(r.body.data, store.rentCollection)
  {
    Pagination.List(store.rentCollection, page, perPage)
  }

  /** `getById`: the first rent with the id, or Not Found. */
  function GetById(store: Store, id: string): (r: Response<Rent>)
    reads store
    ensures !r.BadRequest?
    ensures r.NotFound? <==> forall k :: 0 <= k < |store.rentCollection| ==> store.rentCollection[k].id != id
    ensures r.Ok? ==> r.body.id == id && r.body in store.rentCollection
    ensures r.Ok? ==> 0 <= GetIndexById(store.rentCollection, id) && r.body == store.rentCollection[GetIndexById(store.rentCollection, id)]
  {
    match FindById(store.rentCollection, id)
    case None => NotFound
    case Some(rent) => Ok(rent)
  }

  /** `save`: a new rent with the fresh id and the body's four fields as
      given (no default status, no timestamp), appended; the response is the
      new last element. */
  method Save(store: Store, freshId: string, body: RentBody) returns (r: Response<Rent>)
    modifies store
    ensures var rent := Rent(freshId, body.lockerId, body.weight, body.size, body.status, None, None, None);
      store.rentCollection == old(store.rentCollection) + [rent] && r == Ok(rent)
    ensures store.bloqCollection == old(store.bloqCollection) && store.lockerCollection == old(store.lockerCollection)
    ensures store.listening == old(store.listening)
    ensures store.writes == old(store.writes) + store.Hook(Push, Some(RentKind), Some(RentKind))
  {
    var rent := NewRent(freshId, body.lockerId, body.weight, body.size, body.status, None, None, None);
    var index := store.PushRents([rent]);
    r := Ok(store.rentCollection[index - 1]);
  }

  /** The status an update body sets: its `status`, when `status in
      RentStatus` lets it through. */
  function RequestedStatus(status: Option<string>): (r: Option<RentStatus>)
    ensures r.Some? <==> status.Some? && status.value in {"CREATED", "WAITING_DROPOFF", "WAITING_PICKUP", "DELIVERED"}
    ensures r.Some? ==> r == RentStatusKey(status.value) && RentStatusName(r.value) == status.value
  {
    if status.Some? then RentStatusKey(status.value) else None
  }

  /** The rent after update's field assignments: each field is overwritten
      only by a truthy value, status only by a key of RentStatus; id never. */
  function Patch(rent: Rent, p: RentPatch): (u: Rent)
    ensures u.id == rent.id
    ensures u.lockerId == rent.lockerId || (TruthyString(p.lockerId) && u.lockerId == p.lockerId)
    ensures u.weight == rent.weight || (TruthyNumber(p.weight) && u.weight == p.weight)
    ensures u.size == rent.size || (p.size.Some? && u.size == p.size)
    ensures u.status == rent.status || (RequestedStatus(p.status).Some? && u.status == RequestedStatus(p.status))
    ensures u.createdAt == rent.createdAt || (TruthyNumber(p.createdAt) && u.createdAt == p.createdAt)
    ensures u.droppedAt == rent.droppedAt || (TruthyNumber(p.droppedAt) && u.droppedAt == p.droppedAt)
    ensures u.pickedUpAt == rent.pickedUpAt || (TruthyNumber(p.pickedUpAt) && u.pickedUpAt == p.pickedUpAt)
  {
    Rent(rent.id,
         if TruthyString(p.lockerId) then p.lockerId else rent.lockerId,
         if TruthyNumber(p.weight) then p.weight else rent.weight,
         if p.size.Some? then p.size else rent.size,
         if RequestedStatus(p.status).Some? then RequestedStatus(p.status) else rent.status,
         if TruthyNumber(p.createdAt) then p.createdAt else rent.createdAt,
         if TruthyNumber(p.droppedAt) then p.droppedAt else rent.droppedAt,
         if TruthyNumber(p.pickedUpAt) then p.pickedUpAt else rent.pickedUpAt)
  }

  /** Falsy values keep what was there: a weight of 0, an empty lockerId or
      a zero timestamp is not written. */
  lemma PatchKeepsOnFalsy(rent: Rent, p: RentPatch)
    requires !TruthyString(p.lockerId) && !TruthyNumber(p.weight)
    requires !TruthyNumber(p.createdAt) && !TruthyNumber(p.droppedAt) && !TruthyNumber(p.pickedUpAt)
    ensures var u := Patch(rent, p);
      u.lockerId == rent.lockerId && u.weight == rent.weight
      && u.createdAt == rent.createdAt && u.droppedAt == rent.droppedAt && u.pickedUpAt == rent.pickedUpAt
  {
  }

  /** Every truthy value the body supplies is written: together with
      PatchKeepsOnFalsy, a field changes exactly when its value is truthy. */
  lemma PatchTakesTruthy(rent: Rent, p: RentPatch)
    ensures var u := Patch(rent, p);
      && (TruthyString(p.lockerId) ==> u.lockerId == p.lockerId)
      && (TruthyNumber(p.weight) ==> u.weight == p.weight)
      && (p.size.Some? ==> u.size == p.size)
      && (TruthyNumber(p.createdAt) ==> u.createdAt == p.createdAt)
      && (TruthyNumber(p.droppedAt) ==> u.droppedAt == p.droppedAt)
      && (TruthyNumber(p.pickedUpAt) ==> u.pickedUpAt == p.pickedUpAt)
  {
  }

  /** A status that is not a RentStatus key is ignored without an error,
      and one that is a key is always taken: the stored status is the one
      the body names. */
  lemma PatchStatusRule(rent: Rent, p: RentPatch)
    ensures p.status.None? || p.status.value !in {"CREATED", "WAITING_DROPOFF", "WAITING_PICKUP", "DELIVERED"} ==>
      Patch(rent, p).status == rent.status
    ensures p.status.Some? && p.status.value in {"CREATED", "WAITING_DROPOFF", "WAITING_PICKUP", "DELIVERED"} ==>
      Patch(rent, p).status.Some? && RentStatusName(Patch(rent, p).status.value) == p.status.value
  {
  }

  /** Repeating an update with the same body yields the same record. */
  lemma PatchIdempotent(rent: Rent, p: RentPatch)
    ensures Patch(Patch(rent, p), p) == Patch(rent, p)
  {
  }

  /** The field assignments of `update`, made through the reference `find`
      returned and therefore on the stored record itself. */
  method AssignFields(store: Store, rentIdx: nat, body: RentPatch)
    requires rentIdx < |store.rentCollection|
    modifies store
    ensures store.rentCollection == old(store.rentCollection)[rentIdx := Patch(old(store.rentCollection)[rentIdx], body)]
    ensures store.bloqCollection == old(store.bloqCollection) && store.lockerCollection == old(store.lockerCollection)
    ensures store.listening == old(store.listening) && store.writes == old(store.writes)
  {
    var rent := store.rentCollection[rentIdx];
    if TruthyString(body.lockerId) {
      rent := rent.(lockerId := body.lockerId);
    }
    if TruthyNumber(body.weight) {
      rent := rent.(weight := body.weight);
    }
    if body.size.Some? {
      rent := rent.(size := body.size);
    }
    if RequestedStatus(body.status).Some? {
      rent := rent.(status := RequestedStatus(body.status));
    }
    if TruthyNumber(body.createdAt) {
      rent := rent.(createdAt := body.createdAt);
    }
    if TruthyNumber(body.droppedAt) {
      rent := rent.(droppedAt := body.droppedAt);
    }
    if TruthyNumber(body.pickedUpAt) {
      rent := rent.(pickedUpAt := body.pickedUpAt);
    }
    store.MutateRentAt(rentIdx, rent);
  }

  /** `update`: Not Found for an unknown id; otherwise the rent is patched
      where it stands, nothing else changes (lockerCollection included), and
      the response is the one-element list splice hands back. */
  method Update(store: Store, rentId: string, body: RentPatch) returns (r: Response<seq<Rent>>)
    modifies store
    ensures old(GetIndexById(store.rentCollection, rentId)) < 0 ==>
      r == NotFound && store.rentCollection == old(store.rentCollection) && store.writes == old(store.writes)
    ensures old(GetIndexById(store.rentCollection, rentId)) >= 0 ==>
      var i := old(GetIndexById(store.rentCollection, rentId));
      var u := Patch(old(store.rentCollection)[i], body);
      && store.rentCollection == old(store.rentCollection)[i := u]
      && r == Ok([u])
      && store.writes == old(store.writes) + store.Hook(Splice, None, Some(RentKind))
    ensures store.bloqCollection == old(store.bloqCollection) && store.lockerCollection == old(store.lockerCollection)
    ensures store.listening == old(store.listening)
  {
    var rent := FindById(store.rentCollection, rentId);
    var rentIdx := GetIndexById(store.rentCollection, rentId);
    if rent.None? || rentIdx < 0 {
      return NotFound;
    }
    AssignFields(store, rentIdx, body);
    var updated := store.rentCollection[rentIdx];
    SpliceReplacesAt(store.rentCollection, rentIdx, updated);
    var result := store.SpliceRents(rentIdx, 1, [updated]);
    r := Ok(result);
  }

  /** `delete`: Not Found for an unknown id; otherwise exactly the first rent
      with the id is removed and the rest keep their order. */
  method Delete(store: Store, rentId: string) returns (r: Response<string>)
    modifies store
    ensures old(GetIndexById(store.rentCollection, rentId)) < 0 ==>
      r == NotFound && store.rentCollection == old(store.rentCollection) && store.writes == old(store.writes)
    ensures old(GetIndexById(store.rentCollection, rentId)) >= 0 ==>
      var i := old(GetIndexById(store.rentCollection, rentId));
      && store.rentCollection == old(store.rentCollection)[..i] + old(store.rentCollection)[i + 1..]
      && store.rentCollection == RemoveFirst(old(store.rentCollection), RentKey, rentId)
      && r == Ok("rent has been removed")
      && store.writes == old(store.writes) + store.Hook(Splice, None, FirstKind(store.rentCollection, RentKind))
    ensures store.bloqCollection == old(store.bloqCollection) && store.lockerCollection == old(store.lockerCollection)
    ensures store.listening == old(store.listening)
  {
    var rentToRemove := FindById(store.rentCollection, rentId);
    if rentToRemove.None? {
      return NotFound;
    }
    var idx := GetIndexById(store.rentCollection, rentToRemove.value.id);
    if idx >= -1 {
      SpliceRemovesAt(store.rentCollection, idx);
      CutAtFirstMatch(store.rentCollection, RentKey, rentId, idx);
      var _ := store.SpliceRents(idx, 1, []);
    }
    r := Ok("rent has been removed");
  }

  /** With ids unique, a deleted rent is no longer found afterwards. */
  lemma DeletedUniqueRentIsGone(rents: seq<Rent>, id: string)
    requires forall j, k :: 0 <= j < k < |rents| && rents[j].id == id ==> rents[k].id != id
    ensures GetIndexById(RemoveFirst(rents, RentKey, id), id) == -1
  {
    RemoveFirstOfUniqueIsGone(rents, RentKey, id);
  }
}
