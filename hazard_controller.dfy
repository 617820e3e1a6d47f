/** The hazard controller: the filtered, newest-first hazard list, reporting
    a hazard, changing its status and deleting it.  Each action takes the
    authenticated user as an explicit `actor`. */
module HazardController {
  import opened Common
  import opened Hazards
  import opened ActivityLogger
  import opened Queries
  import opened Db
  import HazardPolicy

  // ----- the index page -----

  /** `$request->get('status', 'open')`: a missing parameter reads `open`,
      an empty one arrives as null. */
  function StatusParam(status: Field<string>): Option<string> {
    match status
    case Absent => Some("open")
    case Null => None
    case Given(s) => if s == "" then None else Some(s)
  }

  /** `$status && $status !== 'all'`: the filter applies to a truthy value
      (PHP treats null, "" and "0" as false) other than `all`. */
  predicate FilterApplies(status: Option<string>) {
    status.Some? && status.value != "" && status.value != "0" && status.value != "all"
  }

  /** The ids the query matches before ordering and paging. */
  function Matching(hazards: map<HazardId, Hazard>, status: Option<string>): (r: set<HazardId>)
    ensures forall id :: id in r <==>
              id in hazards && (!FilterApplies(status) || HazardStatusName(hazards[id].status) == status.value)
  {
    set id | id in hazards && (!FilterApplies(status) || HazardStatusName(hazards[id].status) == status.value)
  }

  datatype HazardsPage = HazardsPage(hazards: seq<HazardId>, filter: string)

  /** `index`: one page of the matching hazards, newest first, and the
      filter echoed back as `$status ?? 'open'`. */
  function Index(db: Database, status: Field<string>, page: int): (r: HazardsPage)
    reads db, db.log
    requires db.Valid()
    ensures |r.hazards| <= PerPage
    ensures forall id :: id in r.hazards ==> id in Matching(db.hazards, StatusParam(status))
    ensures forall i, j :: 0 <= i < j < |r.hazards| ==> r.hazards[i] > r.hazards[j]
    ensures r.hazards == Page(Descending(Matching(db.hazards, StatusParam(status)), db.nextHazard), page)
    ensures r.filter == if StatusParam(status).Some? then StatusParam(status).value else "open"
  {
    var param := StatusParam(status);
    HazardsPage(
      Page(Descending(Matching(db.hazards, param), db.nextHazard), page),
      match param case Some(s) => s case None => "open")
  }

  /** Without a parameter only open hazards are listed. */
  lemma DefaultListsOpenOnly(hazards: map<HazardId, Hazard>)
    ensures forall id :: id in Matching(hazards, StatusParam(Absent)) <==> id in hazards && hazards[id].status == Open
  {
    forall id | id in hazards
      ensures HazardStatusName(hazards[id].status) == "open" <==> hazards[id].status == Open
    {
    }
  }

  /** `all`, an empty value and "0" all list every hazard. */
  lemma UnfilteredListsEverything(hazards: map<HazardId, Hazard>, status: Field<string>)
    requires status == Given("all") || status == Given("") || status == Null || status == Given("0")
    ensures Matching(hazards, StatusParam(status)) == hazards.Keys
  {
  }

  // ----- store -----

  /** The payload of `store`.  `title`, `status` and `user_id` may be sent but
      have no rule, so they never reach the row. */
  datatype StoreInput = StoreInput(
    description: Field<string>,
    latitude: Field<real>,
    longitude: Field<real>,
    severity: Field<int>,
    hazardTypeId: Field<nat>,
    title: Field<string>,
    status: Field<string>,
    userId: Field<nat>)

  /** The rules of `store`: description required and at most 255 characters,
      latitude and longitude only numeric, severity one of 1..5, the hazard
      type an existing one.  The row then gets the actor as reporter and
      status `open`. */
  function ValidateStore(input: StoreInput, actor: UserId, hazardTypes: set<HazardTypeId>): (r: Option<Hazard>)
    ensures r.Some? <==>
              FilledText(input.description) && |input.description.value| <= 255
              && input.latitude.Given? && input.longitude.Given?
              && input.severity.Given? && 1 <= input.severity.value <= 5
              && input.hazardTypeId.Given? && input.hazardTypeId.value in hazardTypes
    ensures r.Some? ==> r.value.userId == actor && r.value.status == Open
    ensures r.Some? ==> r.value.typeId == input.hazardTypeId.value && r.value.typeId in hazardTypes
    ensures r.Some? ==> r.value.description == Some(input.description.value) && r.value.title.None?
    ensures r.Some? ==> r.value.latitude == input.latitude.value && r.value.longitude == input.longitude.value
    ensures r.Some? ==> r.value.severity == input.severity.value && r.value.mediaPath.None?
  {
    if FilledText(input.description) && |input.description.value| <= 255
       && input.latitude.Given? && input.longitude.Given?
       && input.severity.Given? && input.severity.value in {1, 2, 3, 4, 5}
       && input.hazardTypeId.Given? && input.hazardTypeId.value in hazardTypes
    then
      Some(Insert(actor, input.hazardTypeId.value, input.latitude.value, input.longitude.value,
                  None, Some(input.description.value), Some(input.severity.value), Some(Open), None))
    else None
  }

  /** The reporter and the status come from the server whatever the payload
      says. */
  lemma StoreIgnoresClientOwnership(input: StoreInput, actor: UserId, hazardTypes: set<HazardTypeId>,
                                     status: Field<string>, userId: Field<nat>, title: Field<string>)
    ensures ValidateStore(input.(status := status, userId := userId, title := title), actor, hazardTypes)
            == ValidateStore(input, actor, hazardTypes)
  {
  }

  /** No coordinate range is checked: a latitude of 100 passes. */
  lemma StoreAcceptsOutOfRangeLatitude()
    ensures ValidateStore(StoreInput(Given("flood"), Given(100.0), Given(0.0), Given(3), Given(1), Absent, Absent, Absent), 1, {1})
              .Some?
  {
  }

  /** The users `Notification::send` addresses: every user whose email is
      not null. */
  function Notified(users: map<UserId, User>): (r: set<UserId>)
    ensures forall u :: u in r <==> u in users && users[u].email.Some?
  {
    set u | u in users && users[u].email.Some?
  }

  /** `store`: on valid input, insert the hazard, notify every user with an
      email, and log `Hazard pinned`. */
  method Store(db: Database, actor: UserId, input: StoreInput) returns (outcome: Outcome, created: Option<HazardId>, notified: set<UserId>)
    requires db.Valid() && actor in db.users
    modifies db, db.log
    ensures db.Valid()
    ensures outcome == Done <==> ValidateStore(input, actor, old(db.hazardTypes)).Some?
    ensures outcome != Done ==> outcome == Failed(Invalid) && created.None? && notified == {} && unchanged(db) && unchanged(db.log)
    ensures outcome == Done ==> created == Some(old(db.nextHazard)) && old(db.nextHazard) !in old(db.hazards)
    ensures outcome == Done ==>
              db.hazards == old(db.hazards)[old(db.nextHazard) := ValidateStore(input, actor, old(db.hazardTypes)).value]
    ensures outcome == Done ==> notified == Notified(old(db.users))
    ensures outcome == Done ==> db.users == old(db.users) && db.households == old(db.households) && db.requests == old(db.requests)
    ensures outcome == Done ==> db.CountersAdvanced(0, 0, 1)
    ensures outcome == Done ==> db.log.entries == Appended(old(db.log.entries), Some(actor), "Hazard pinned")
  {
    var validated := ValidateStore(input, actor, db.hazardTypes);
    if validated.None? {
      return Failed(Invalid), None, {};
    }
    var id := db.InsertHazard(validated.value);
    notified := Notified(db.users);
    var _ := db.log.Log("Hazard pinned", Some(actor), None, map[]);
    outcome, created := Done, Some(id);
  }

  // ----- update and destroy -----

  /** The rules of `update`: `status` required and one of the two names;
      every other column is kept.  The current status is not consulted, so a
      resolved hazard can be reopened. */
  function ApplyStatus(h: Hazard, status: Field<string>): (r: Option<Hazard>)
    ensures r.Some? <==> status.Given? && (status.value == "open" || status.value == "resolved")
    ensures r.Some? ==> HazardStatusName(r.value.status) == status.value
    ensures r.Some? ==> r.value.(status := h.status) == h
  {
    if status.Given? then
      match ParseHazardStatus(status.value)
      case Some(s) => Some(h.(status := s))
      case None => None
    else None
  }

  lemma ReopenAllowed(h: Hazard)
    requires h.status == Resolved
    ensures ApplyStatus(h, Given("open")) == Some(h.(status := Open))
  {
  }

  /** The status rule does not look at who asks: a member who neither
      reported the hazard nor holds `admin`, and whom the policy would refuse,
      passes it all the same. */
  lemma UpdateIgnoresPolicy()
    ensures var h := Hazard(1, 1, None, Some("flood"), 0.0, 0.0, 3, Open, None);
            var stranger := User("s", None, None, {Member});
            !HazardPolicy.CanUpdate(2, stranger, h) && ApplyStatus(h, Given("resolved")).Some?
  {
  }

  /** `update`: any authenticated user may change any hazard's status; the
      policy is not consulted. */
  method Update(db: Database, actor: UserId, id: HazardId, status: Field<string>) returns (outcome: Outcome)
    requires db.Valid() && actor in db.users
    modifies db, db.log
    ensures db.Valid()
    ensures id !in old(db.hazards) ==> outcome == Failed(NotFound)
    ensures id in old(db.hazards) ==> (outcome == Done <==> ApplyStatus(old(db.hazards)[id], status).Some?)
    ensures outcome != Done ==> unchanged(db) && unchanged(db.log)
    ensures outcome == Done ==> id in old(db.hazards) && ApplyStatus(old(db.hazards)[id], status).Some?
    ensures outcome == Done ==> db.hazards == old(db.hazards)[id := ApplyStatus(old(db.hazards)[id], status).value]
    ensures outcome == Done ==> db.users == old(db.users) && db.households == old(db.households) && db.requests == old(db.requests)
    ensures outcome == Done ==> db.CountersAdvanced(0, 0, 0)
    ensures outcome == Done ==> db.log.entries == Appended(old(db.log.entries), Some(actor), "Hazard status updated")
  {
    if id !in db.hazards {
      return Failed(NotFound);
    }
    var updated := ApplyStatus(db.hazards[id], status);
    if updated.None? {
      return Failed(Invalid);
    }
    db.UpdateHazard(id, updated.value);
    var _ := db.log.Log("Hazard status updated", Some(actor), None, map[]);
    outcome := Done;
  }

  /** `destroy`.  The web route puts it behind `role:admin`, but the API
      route admits any authenticated user and the action checks no role, so
      any actor may delete any hazard; `HazardPolicy.CanDelete` says who
      should. */
  method Destroy(db: Database, actor: UserId, id: HazardId) returns (outcome: Outcome)
    requires db.Valid() && actor in db.users
    modifies db, db.log
    ensures db.Valid()
    ensures id !in old(db.hazards) ==> outcome == Failed(NotFound) && unchanged(db) && unchanged(db.log)
    ensures id in old(db.hazards) ==> outcome == Done
    ensures outcome == Done ==> db.hazards == old(db.hazards) - {id} && id !in db.hazards
    ensures outcome == Done ==> db.users == old(db.users) && db.households == old(db.households) && db.requests == old(db.requests)
    ensures outcome == Done ==> db.CountersAdvanced(0, 0, 0)
    ensures outcome == Done ==> db.log.entries == Appended(old(db.log.entries), Some(actor), "Hazard deleted")
  {
    if id !in db.hazards {
      return Failed(NotFound);
    }
    db.DeleteHazard(id);
    var _ := db.log.Log("Hazard deleted", Some(actor), None, map[]);
    outcome := Done;
  }
}
