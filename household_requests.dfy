/** The `household_requests` table: a request to join an existing household or
    to have a new one created, with its enums, defaults and the cascade from
    the users table. */
module HouseholdRequests {
  import opened Common

  datatype RequestType = CreateRequest | JoinRequest

  datatype RequestStatus = Pending | Approved | Denied

  /** The column default of `status`. */
  const DefaultStatus: RequestStatus := Pending

  /** One row.  `householdId` is a plain nullable integer with no foreign key,
      so it may name a household that no longer exists; `meta` is a nullable
      JSON column, kept here in decoded form. */
  datatype HouseholdRequest = HouseholdRequest(
    userId: UserId,
    householdId: Option<HouseholdId>,
    kind: RequestType,
    status: RequestStatus,
    meta: Option<Attributes>)

  function RequestTypeName(t: RequestType): string {
    match t
    case CreateRequest => "create"
    case JoinRequest => "join"
  }

  function RequestStatusName(s: RequestStatus): string {
    match s
    case Pending => "pending"
    case Approved => "approved"
    case Denied => "denied"
  }

  /** The enum column accepts exactly the names of the two request types. */
  function ParseRequestType(name: string): (r: Option<RequestType>)
    ensures r.Some? <==> name == "create" || name == "join"
    ensures r.Some? ==> RequestTypeName(r.value) == name
  {
    if name == "create" then Some(CreateRequest)
    else if name == "join" then Some(JoinRequest)
    else None
  }

  /** The enum column accepts exactly the names of the three statuses. */
  function ParseRequestStatus(name: string): (r: Option<RequestStatus>)
    ensures r.Some? <==> name in {"pending", "approved", "denied"}
    ensures r.Some? ==> RequestStatusName(r.value) == name
  {
    if name == "pending" then Some(Pending)
    else if name == "approved" then Some(Approved)
    else if name == "denied" then Some(Denied)
    else None
  }

  lemma NamesRoundTrip(t: RequestType, s: RequestStatus)
    ensures ParseRequestType(RequestTypeName(t)) == Some(t)
    ensures ParseRequestStatus(RequestStatusName(s)) == Some(s)
  {
  }

  /** Inserting a row: an omitted status takes the column default. */
  function Insert(
    userId: UserId, householdId: Option<HouseholdId>, kind: RequestType,
    status: Option<RequestStatus>, meta: Option<Attributes>): (r: HouseholdRequest)
    ensures status.None? ==> r.status == Pending
    ensures status.Some? ==> r.status == status.value
    ensures r.userId == userId && r.householdId == householdId && r.kind == kind && r.meta == meta
  {
    HouseholdRequest(userId, householdId, kind,
      match status case Some(s) => s case None => DefaultStatus, meta)
  }

  /** The validated fields of a create request, stored in `meta`. */
  datatype CreateMeta = CreateMeta(name: string, address: string, lat: real, long: real)

  /** `json_encode` of the validated array. */
  function EncodeMeta(m: CreateMeta): (j: Attributes)
    ensures j.Keys == {"name", "address", "lat", "long"}
  {
    map["name" := Text(m.name), "address" := Text(m.address),
        "lat" := Number(m.lat), "long" := Number(m.long)]
  }

  /** `cascadeOnDelete` on `user_id`: deleting a user deletes every request
      that user made and nothing else. */
  function AfterUserDeleted(requests: map<RequestId, HouseholdRequest>, uid: UserId)
    : (r: map<RequestId, HouseholdRequest>)
    ensures forall id :: id in r ==> r[id].userId != uid
    ensures forall id :: id in requests && requests[id].userId != uid ==> id in r && r[id] == requests[id]
    ensures r.Keys <= requests.Keys
  {
    map id | id in requests && requests[id].userId != uid :: requests[id]
  }
}
