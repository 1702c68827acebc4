/** The three entity records (src/models/bloq.ts, locker.ts, rent.ts) and the
    enumerations they use. A field the code copies from a request body without
    checking it is an `Option`, because the body may leave it undefined. */
module Models {
  import opened Js

  datatype LockerStatus = OPEN | CLOSED
  datatype RentSize = S | M | L | XL
  datatype RentStatus = CREATED | WAITING_DROPOFF | WAITING_PICKUP | DELIVERED

  /** A Date as it travels in a JSON body: milliseconds since the epoch. */
  type Timestamp = int

  datatype Bloq = Bloq(id: string, title: Option<string>, address: Option<string>)

  datatype Locker = Locker(id: string, bloqId: Option<string>, status: Option<LockerStatus>,
                           isOccupied: Option<bool>)

  datatype Rent = Rent(id: string, lockerId: Option<string>, weight: Option<int>,
                       size: Option<RentSize>, status: Option<RentStatus>,
                       createdAt: Option<Timestamp>, droppedAt: Option<Timestamp>,
                       pickedUpAt: Option<Timestamp>)

  /** The id projections that find, map and filter use. */
  function BloqKey(b: Bloq): string { b.id }
  function LockerKey(l: Locker): string { l.id }
  function RentKey(r: Rent): string { r.id }

  /** `new Rent(id, lockerId, weight, size, status, createdAt?, droppedAt?, pickedUpAt?)`:
      the five required fields are stored as passed, with no validation, and each
      optional timestamp is present only when the value passed is truthy. */
  function NewRent(id: string, lockerId: Option<string>, weight: Option<int>, size: Option<RentSize>,
                   status: Option<RentStatus>, createdAt: Option<Timestamp>,
                   droppedAt: Option<Timestamp>, pickedUpAt: Option<Timestamp>): (r: Rent)
    ensures r.id == id && r.lockerId == lockerId && r.weight == weight
    ensures r.size == size && r.status == status
    ensures r.createdAt.Some? <==> TruthyNumber(createdAt)
    ensures r.droppedAt.Some? <==> TruthyNumber(droppedAt)
    ensures r.pickedUpAt.Some? <==> TruthyNumber(pickedUpAt)
    ensures r.createdAt.Some? ==> r.createdAt == createdAt
    ensures r.droppedAt.Some? ==> r.droppedAt == droppedAt
    ensures r.pickedUpAt.Some? ==> r.pickedUpAt == pickedUpAt
  {
    var r := Rent(id, lockerId, weight, size, status, None, None, None);
    var r := if TruthyNumber(createdAt) then r.(createdAt := createdAt) else r;
    var r := if TruthyNumber(droppedAt) then r.(droppedAt := droppedAt) else r;
    if TruthyNumber(pickedUpAt) then r.(pickedUpAt := pickedUpAt) else r
  }

  /** The wire name of a rent status (a string enum: each value is its key). */
  function RentStatusName(st: RentStatus): (name: string)
  {
    match st
    case CREATED => "CREATED"
    case WAITING_DROPOFF => "WAITING_DROPOFF"
    case WAITING_PICKUP => "WAITING_PICKUP"
    case DELIVERED => "DELIVERED"
  }

  /** The wire name of a locker status. */
  function LockerStatusName(st: LockerStatus): (name: string)
  {
    match st
    case OPEN => "OPEN"
    case CLOSED => "CLOSED"
  }

  /** `status in RentStatus`: the string names one of the enumeration's keys,
      and the status taken is the one so named. */
  function RentStatusKey(s: string): (r: Option<RentStatus>)
    ensures r.Some? <==> s in {"CREATED", "WAITING_DROPOFF", "WAITING_PICKUP", "DELIVERED"}
    ensures r.Some? ==> RentStatusName(r.value) == s
  {
    match s
    case "CREATED" => Some(CREATED)
    case "WAITING_DROPOFF" => Some(WAITING_DROPOFF)
    case "WAITING_PICKUP" => Some(WAITING_PICKUP)
    case "DELIVERED" => Some(DELIVERED)
    case _ => None
  }

  /** `status == LockerStatus.CLOSED || status == LockerStatus.OPEN`, and the
      status taken is the one so named. */
  function LockerStatusValue(s: string): (r: Option<LockerStatus>)
    ensures r.Some? <==> s == "OPEN" || s == "CLOSED"
    ensures r.Some? ==> LockerStatusName(r.value) == s
  {
    if s == "OPEN" then Some(OPEN) else if s == "CLOSED" then Some(CLOSED) else None
  }

  /** Every status sent by its own name is accepted as itself. */
  lemma StatusNamesRoundTrip(rs: RentStatus, ls: LockerStatus)
    ensures RentStatusKey(RentStatusName(rs)) == Some(rs)
    ensures LockerStatusValue(LockerStatusName(ls)) == Some(ls)
  {
  }
}
