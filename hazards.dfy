/** The `hazards` table: status enum, column defaults, nullable columns, and
    the two foreign keys (cascade from users, restrict to hazard types). */
module Hazards {
  import opened Common

  datatype HazardStatus = Open | Resolved

  /** Column defaults of `status` and `severity`.  `severity` is a plain
      tiny integer: the schema itself puts no 1..5 range on it. */
  const DefaultStatus: HazardStatus := Open
  const DefaultSeverity: int := 3

  /** One row; `title`, `description` and `mediaPath` are nullable. */
  datatype Hazard = Hazard(
    userId: UserId,
    typeId: HazardTypeId,
    title: Option<string>,
    description: Option<string>,
    latitude: real,
    longitude: real,
    severity: int,
    status: HazardStatus,
    mediaPath: Option<string>)

  function HazardStatusName(s: HazardStatus): string {
    match s
    case Open => "open"
    case Resolved => "resolved"
  }

  /** The enum column (and the rule `in:open,resolved`) accepts exactly the
      two names. */
  function ParseHazardStatus(name: string): (r: Option<HazardStatus>)
    ensures r.Some? <==> name == "open" || name == "resolved"
    ensures r.Some? ==> HazardStatusName(r.value) == name
  {
    if name == "open" then Some(Open)
    else if name == "resolved" then Some(Resolved)
    else None
  }

  /** An insert: the columns that are required, and optional ones that fall
      back to their defaults (or to null) when omitted. */
  function Insert(
    userId: UserId, typeId: HazardTypeId, latitude: real, longitude: real,
    title: Option<string>, description: Option<string>,
    severity: Option<int>, status: Option<HazardStatus>, mediaPath: Option<string>): (r: Hazard)
    ensures severity.None? ==> r.severity == 3
    ensures status.None? ==> r.status == Open
    ensures severity.Some? ==> r.severity == severity.value
    ensures status.Some? ==> r.status == status.value
    ensures r.userId == userId && r.typeId == typeId && r.latitude == latitude && r.longitude == longitude
    ensures r.title == title && r.description == description && r.mediaPath == mediaPath
  {
    Hazard(userId, typeId, title, description, latitude, longitude,
      match severity case Some(s) => s case None => DefaultSeverity,
      match status case Some(s) => s case None => DefaultStatus,
      mediaPath)
  }

  /** `onDelete('cascade')` on `user_id`: deleting a user deletes exactly
      that user's hazards. */
  function AfterUserDeleted(hazards: map<HazardId, Hazard>, uid: UserId): (r: map<HazardId, Hazard>)
    ensures forall id :: id in r ==> r[id].userId != uid
    ensures forall id :: id in hazards && hazards[id].userId != uid ==> id in r && r[id] == hazards[id]
    ensures r.Keys <= hazards.Keys
  {
    map id | id in hazards && hazards[id].userId != uid :: hazards[id]
  }

  /** `onDelete('restrict')` on `hazard_type_id`: a type may be deleted only
      while no hazard refers to it. */
  predicate TypeDeletable(hazards: map<HazardId, Hazard>, typeId: HazardTypeId) {
    forall id :: id in hazards ==> hazards[id].typeId != typeId
  }
}
