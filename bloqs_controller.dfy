/** src/controllers/bloqs.controller.ts: the bloq resource over
    `bloqCollection`; `save` also creates the bloq's lockers and `getById` can
    embed them. */
module BloqsController {
  import opened Js
  import opened Http
  import opened Models
  import opened DbManager
  import Pagination
  import LockersController

  /** One entry of the `lockers` array of a create request: only its status
      and isOccupied are read. */
  datatype LockerSpec = LockerSpec(status: Option<LockerStatus>, isOccupied: Option<bool>)

  /** Body of a create request. */
  datatype BloqBody = BloqBody(title: Option<string>, address: Option<string>, lockers: Option<seq<LockerSpec>>)

  /** Body of an update request; `id` is read but never used. */
  datatype BloqPatch = BloqPatch(id: Option<string>, title: Option<string>, address: Option<string>)

  /** A bloq as sent back, with its lockers embedded or not. */
  datatype BloqView = BloqView(bloq: Bloq, lockers: Option<seq<Locker>>)

  /** `getIndexById`: `bloqCollection.map(b => b.id).indexOf(id)`, the
      position of the first bloq with that id, or -1. */
  function GetIndexById(bloqs: seq<Bloq>, id: string): (i: int)
    ensures -1 <= i < |bloqs|
    ensures i == -1 <==> forall k :: 0 <= k < |bloqs| ==> bloqs[k].id != id
    ensures 0 <= i ==> bloqs[i].id == id && forall k :: 0 <= k < i ==> bloqs[k].id != id
  {
    var ids := MapSeq(BloqKey, bloqs);
    var i := IndexOf(ids, id);
    assert 0 <= i ==> forall k :: 0 <= k < i ==> ids[..i][k] == bloqs[k].id;
    i
  }

  /** `findById`: `bloqCollection.find(b => b.id === id)`; it finds exactly
      the bloq at `getIndexById`. */
  function FindById(bloqs: seq<Bloq>, id: string): (r: Option<Bloq>)
    ensures r == (if GetIndexById(bloqs, id) < 0 then None else Some(bloqs[GetIndexById(bloqs, id)]))
  {
    var i := GetIndexById(bloqs, id);
    if i < 0 then Find(bloqs, BloqKey, id)
    else
      FindIsFirstMatch(bloqs, BloqKey, id, i);
      Find(bloqs, BloqKey, id)
  }

  /** `findByTitle`: the bloqs whose title contains the given text, in
      collection order; reading `includes` of a missing title throws. */
  function FindByTitle(bloqs: seq<Bloq>, title: string): (r: Completion<seq<Bloq>>)
    ensures r.TypeError? <==> exists k :: 0 <= k < |bloqs| && bloqs[k].title.None?
    ensures r.Normal? ==> |r.value| <= |bloqs|
    ensures r.Normal? ==> forall b :: b in r.value <==> b in bloqs && b.title.Some? && Includes(b.title.value, title)
  {
    if |bloqs| == 0 then Normal([])
    else if bloqs[0].title.None? then TypeError
    else
      match FindByTitle(bloqs[1..], title)
      case TypeError =>
        assert forall k :: 0 <= k < |bloqs| - 1 ==> bloqs[1..][k] == bloqs[k + 1];
        TypeError
      case Normal(rest) =>
        assert bloqs == [bloqs[0]] + bloqs[1..];
        Normal((if Includes(bloqs[0].title.value, title) then [bloqs[0]] else []) + rest)
  }

  /** `save` stores whatever title the body carries, absent included, and one
      such bloq anywhere in the collection makes `findByTitle` throw. */
  lemma UntitledBloqBreaksFindByTitle(bloqs: seq<Bloq>, k: int, title: string)
    requires 0 <= k < |bloqs| && bloqs[k].title.None?
    ensures FindByTitle(bloqs, title).TypeError?
  {
  }

  /** The title search with bloqs that have no title passed over instead of
      throwing. */
  function FindByTitleSkippingUntitled(bloqs: seq<Bloq>, title: string): (r: seq<Bloq>)
    ensures |r| <= |bloqs|
    ensures forall b :: b in r <==> b in bloqs && b.title.Some? && Includes(b.title.value, title)
  {
    if |bloqs| == 0 then []
    else
      (if bloqs[0].title.Some? && Includes(bloqs[0].title.value, title) then [bloqs[0]] else [])
      + FindByTitleSkippingUntitled(bloqs[1..], title)
  }

  /** The search distributes over concatenation, so matches come back in
      collection order, each as often as it is stored. */
  lemma {:induction false} FindByTitleSkippingUntitledAppend(a: seq<Bloq>, b: seq<Bloq>, title: string)
    ensures FindByTitleSkippingUntitled(a + b, title)
         == FindByTitleSkippingUntitled(a, title) + FindByTitleSkippingUntitled(b, title)
  {
    if |a| > 0 {
      assert (a + b)[1..] == a[1..] + b;
      FindByTitleSkippingUntitledAppend(a[1..], b, title);
    } else {
      assert a + b == b;
    }
  }

  /** Bloqs whose titles all contain the text are all kept, in order. */
  lemma {:induction false} FindByTitleSkippingUntitledKeepsAll(bloqs: seq<Bloq>, title: string)
    requires forall k :: 0 <= k < |bloqs| ==> bloqs[k].title.Some? && Includes(bloqs[k].title.value, title)
    ensures FindByTitleSkippingUntitled(bloqs, title) == bloqs
  {
    if |bloqs| > 0 {
      FindByTitleSkippingUntitledKeepsAll(bloqs[1..], title);
    }
  }

  /** Where `findByTitle` returns at all, the corrected search returns the
      same bloqs in the same order. */
  lemma {:induction false} SkippingAgreesWhenAllTitled(bloqs: seq<Bloq>, title: string)
    requires FindByTitle(bloqs, title).Normal?
    ensures FindByTitle(bloqs, title).value == FindByTitleSkippingUntitled(bloqs, title)
  {
    if |bloqs| > 0 {
      SkippingAgreesWhenAllTitled(bloqs[1..], title);
    }
  }

  /** `list` over bloqCollection. */
  function List(store: Store, page: Query, perPage: Query): (r: Response<Pagination.Page<Bloq>>)
    reads store
    ensures r.BadRequest? <==> page.NaN? || perPage.NaN?
    ensures r.Ok? ==> r.body.total == |store.bloqCollection|
    ensures r.Ok? ==> Pagination.IsWindow(r.body.data, store.bloqCollection)
  {
    Pagination.List(store.bloqCollection, page, perPage)
  }

  /** `getById`: the first bloq with the id, or Not Found; a non-empty
      `lockers` query parameter embeds the lockers whose bloqId is this bloq's. */
  function GetById(store: Store, id: string, lockersQuery: Option<string>): (r: Response<BloqView>)
    reads store
    ensures !r.BadRequest?
    ensures r.NotFound? <==> forall k :: 0 <= k < |store.bloqCollection| ==> store.bloqCollection[k].id != id
    ensures r.Ok? ==> r.body.bloq.id == id && r.body.bloq in store.bloqCollection
    ensures r.Ok? ==> 0 <= GetIndexById(store.bloqCollection, id) && r.body.bloq == store.bloqCollection[GetIndexById(store.bloqCollection, id)]
    ensures r.Ok? ==> (r.body.lockers.Some? <==> TruthyString(lockersQuery))
    ensures r.Ok? && r.body.lockers.Some? ==>
      forall l :: l in r.body.lockers.value <==> l in store.lockerCollection && l.bloqId == Some(id)
    ensures r.Ok? && r.body.lockers.Some? ==>
      r.body.lockers.value == LockersController.FindByBloqId(store.lockerCollection, id)
  {
    match FindById(store.bloqCollection, id)
    case None => NotFound
    case Some(bloq) =>
      if TruthyString(lockersQuery)
      then Ok(BloqView(bloq, Some(LockersController.FindByBloqId(store.lockerCollection, bloq.id))))
      else Ok(BloqView(bloq, None))
  }

  /** The lockers of a create request, an absent list being none. */
  function Specs(body: BloqBody): seq<LockerSpec>
  {
    if body.lockers.Some? then body.lockers.value else []
  }

  /** The lockers `save` builds for a new bloq: the k-th takes the id
      `uuid(k + 1)` and the k-th spec's status and isOccupied. */
  function NewLockers(specs: seq<LockerSpec>, bloqId: string, uuid: nat -> string): seq<Locker>
  {
    seq(|specs|, k requires 0 <= k < |specs| => Locker(uuid(k + 1), Some(bloqId), specs[k].status, specs[k].isOccupied))
  }

  /** Every locker built by `save` belongs to the new bloq and carries the
      status and occupancy its request entry asked for. */
  lemma NewLockersBelongToBloq(specs: seq<LockerSpec>, bloqId: string, uuid: nat -> string)
    ensures |NewLockers(specs, bloqId, uuid)| == |specs|
    ensures forall k :: 0 <= k < |specs| ==>
      var l := NewLockers(specs, bloqId, uuid)[k];
      l.id == uuid(k + 1) && l.bloqId == Some(bloqId) && l.status == specs[k].status && l.isOccupied == specs[k].isOccupied
  {
  }

  /** When no stored locker already names the new bloq, the lockers `save`
      sends back are exactly the ones it created, in request order. */
  lemma {:induction false} SavedLockersAreTheNewOnes(stored: seq<Locker>, specs: seq<LockerSpec>, bloqId: string, uuid: nat -> string)
    requires forall k :: 0 <= k < |stored| ==> stored[k].bloqId != Some(bloqId)
    ensures LockersController.FindByBloqId(stored + NewLockers(specs, bloqId, uuid), bloqId) == NewLockers(specs, bloqId, uuid)
  {
    var made := NewLockers(specs, bloqId, uuid);
    LockersController.FindByBloqIdAppend(stored, made, bloqId);
    NoneOfTheBloq(stored, bloqId);
    LockersController.FindByBloqIdKeepsAll(made, bloqId);
    assert [] + made == made;
  }

  /** Lockers none of which belongs to the bloq filter to nothing. */
  lemma {:induction false} NoneOfTheBloq(lockers: seq<Locker>, bloqId: string)
    requires forall k :: 0 <= k < |lockers| ==> lockers[k].bloqId != Some(bloqId)
    ensures LockersController.FindByBloqId(lockers, bloqId) == []
  {
    if |lockers| > 0 {
      NoneOfTheBloq(lockers[1..], bloqId);
    }
  }

  /** The `forEach` of `save`: one new locker per request entry, in order. */
  method BuildLockers(specs: seq<LockerSpec>, bloqId: string, uuid: nat -> string) returns (newLockers: seq<Locker>)
    ensures newLockers == NewLockers(specs, bloqId, uuid)
  {
    newLockers := [];
    for k := 0 to |specs|
      invariant newLockers == NewLockers(specs[..k], bloqId, uuid)
    {
      newLockers := newLockers + [Locker(uuid(k + 1), Some(bloqId), specs[k].status, specs[k].isOccupied)];
      assert newLockers == NewLockers(specs[..k + 1], bloqId, uuid);
    }
    assert specs[..|specs|] == specs;
  }

  /** `save`: the bloq with id `uuid(0)` is appended, then one locker per
      request entry (ids `uuid(1)`, `uuid(2)`, ...), and the response embeds
      every stored locker that names the new bloq. */
  method Save(store: Store, uuid: nat -> string, body: BloqBody) returns (r: Response<BloqView>)
    modifies store
    ensures var bloq := Bloq(uuid(0), body.title, body.address);
      var made := NewLockers(Specs(body), uuid(0), uuid);
      && store.bloqCollection == old(store.bloqCollection) + [bloq]
      && store.lockerCollection == old(store.lockerCollection) + made
      && r == Ok(BloqView(bloq, Some(LockersController.FindByBloqId(store.lockerCollection, uuid(0)))))
      && store.writes == old(store.writes) + store.Hook(Push, Some(BloqKind), Some(BloqKind))
                         + store.Hook(Push, FirstKind(made, LockerKind), FirstKind(store.lockerCollection, LockerKind))
    ensures store.rentCollection == old(store.rentCollection) && store.listening == old(store.listening)
  {
    var bloqId := uuid(0);
    var bloq := Bloq(bloqId, body.title, body.address);
    var result := BloqView(bloq, None);
    var newLockers: seq<Locker> := [];
    if body.lockers.Some? {
      // `lockers && lockers.length >= 0`: any array, the empty one included
      newLockers := BuildLockers(body.lockers.value, bloqId, uuid);
    }
    var index := store.PushBloqs([bloq]);
    if index >= 0 && |newLockers| >= 0 {
      var _ := store.PushLockers(newLockers);
      result := BloqView(bloq, Some(LockersController.FindByBloqId(store.lockerCollection, bloqId)));
    }
    r := Ok(result);
  }

  /** The bloq after update's field assignments: address and title only when
      the body gives a non-empty one; the id never. */
  function Patch(b: Bloq, p: BloqPatch): (u: Bloq)
    ensures u.id == b.id
    ensures u.title == (if TruthyString(p.title) then p.title else b.title)
    ensures u.address == (if TruthyString(p.address) then p.address else b.address)
  {
    Bloq(b.id, if TruthyString(p.title) then p.title else b.title,
         if TruthyString(p.address) then p.address else b.address)
  }

  /** An update with no non-empty title or address leaves the bloq as it was. */
  lemma PatchWithoutFieldsIsIdentity(b: Bloq, p: BloqPatch)
    requires !TruthyString(p.title) && !TruthyString(p.address)
    ensures Patch(b, p) == b
  {
  }

  /** Repeating an update with the same body changes nothing more. */
  lemma PatchIdempotent(b: Bloq, p: BloqPatch)
    ensures Patch(Patch(b, p), p) == Patch(b, p)
  {
  }

  /** The field assignments of `update`, made through the reference `find`
      returned and therefore on the stored record itself. */
  method AssignFields(store: Store, bloqIdx: nat, body: BloqPatch)
    requires bloqIdx < |store.bloqCollection|
    modifies store
    ensures store.bloqCollection == old(store.bloqCollection)[bloqIdx := Patch(old(store.bloqCollection)[bloqIdx], body)]
    ensures store.lockerCollection == old(store.lockerCollection) && store.rentCollection == old(store.rentCollection)
    ensures store.listening == old(store.listening) && store.writes == old(store.writes)
  {
    if TruthyString(body.address) {
      store.MutateBloqAt(bloqIdx, store.bloqCollection[bloqIdx].(address := body.address));
    }
    if TruthyString(body.title) {
      store.MutateBloqAt(bloqIdx, store.bloqCollection[bloqIdx].(title := body.title));
    }
  }

  /** `update`: Not Found for an unknown id; otherwise the bloq is patched
      where it stands and the response is the one-element list splice hands back. */
  method Update(store: Store, bloqId: string, body: BloqPatch) returns (r: Response<seq<Bloq>>)
    modifies store
    ensures old(GetIndexById(store.bloqCollection, bloqId)) < 0 ==>
      r == NotFound && store.bloqCollection == old(store.bloqCollection) && store.writes == old(store.writes)
    ensures old(GetIndexById(store.bloqCollection, bloqId)) >= 0 ==>
      var i := old(GetIndexById(store.bloqCollection, bloqId));
      var u := Patch(old(store.bloqCollection)[i], body);
      && store.bloqCollection == old(store.bloqCollection)[i := u]
      && r == Ok([u])
      && store.writes == old(store.writes) + store.Hook(Splice, None, Some(BloqKind))
    ensures store.lockerCollection == old(store.lockerCollection) && store.rentCollection == old(store.rentCollection)
    ensures store.listening == old(store.listening)
  {
    var bloq := FindById(store.bloqCollection, bloqId);
    var bloqIdx := GetIndexById(store.bloqCollection, bloqId);
    if bloq.None? || bloqIdx < 0 {
      return NotFound;
    }
    AssignFields(store, bloqIdx, body);
    var updated := store.bloqCollection[bloqIdx];
    SpliceReplacesAt(store.bloqCollection, bloqIdx, updated);
    var result := store.SpliceBloqs(bloqIdx, 1, [updated]);
    r := Ok(result);
  }

  /** `delete`: Not Found for an unknown id; otherwise exactly the first bloq
      with the id is removed and the rest keep their order. Its lockers stay
      in lockerCollection: nothing cascades. */
  method Delete(store: Store, bloqId: string) returns (r: Response<string>)
    modifies store
    ensures old(GetIndexById(store.bloqCollection, bloqId)) < 0 ==>
      r == NotFound && store.bloqCollection == old(store.bloqCollection) && store.writes == old(store.writes)
    ensures old(GetIndexById(store.bloqCollection, bloqId)) >= 0 ==>
      var i := old(GetIndexById(store.bloqCollection, bloqId));
      && store.bloqCollection == old(store.bloqCollection)[..i] + old(store.bloqCollection)[i + 1..]
      && store.bloqCollection == RemoveFirst(old(store.bloqCollection), BloqKey, bloqId)
      && r == Ok("bloq has been removed")
      && store.writes == old(store.writes) + store.Hook(Splice, None, FirstKind(store.bloqCollection, BloqKind))
    ensures store.lockerCollection == old(store.lockerCollection) && store.rentCollection == old(store.rentCollection)
    ensures store.listening == old(store.listening)
  {
    var bloqToRemove := FindById(store.bloqCollection, bloqId);
    if bloqToRemove.None? {
      return NotFound;
    }
    var idx := GetIndexById(store.bloqCollection, bloqToRemove.value.id);
    if idx >= -1 {
      SpliceRemovesAt(store.bloqCollection, idx);
      CutAtFirstMatch(store.bloqCollection, BloqKey, bloqId, idx);
      var _ := store.SpliceBloqs(idx, 1, []);
    }
    r := Ok("bloq has been removed");
  }
}
