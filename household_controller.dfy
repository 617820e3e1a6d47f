/** The household controller: the role-dispatched index page, household
    create/update/delete, the join/create request workflow, member removal
    and the status change.  Each action takes the authenticated user as an
    explicit `actor`. */
module HouseholdController {
  import opened Common
  import opened Households
  import opened HouseholdRequests
  import opened ActivityLogger
  import opened Queries
  import opened Db

  // ----- role sync on users -----

  /** `update(['household_id' => hid])` followed by `syncRoles('leader')`. */
  function Promoted(u: User, hid: HouseholdId): User {
    u.(householdId := Some(hid), roles := {Leader})
  }

  /** `update(['household_id' => null])` followed, for a leader, by
      `syncRoles('member')`. */
  function Detached(u: User): User {
    u.(householdId := None, roles := if Leader in u.roles then {Member} else u.roles)
  }

  /** The user after an approved join: only the household reference moves. */
  function Joined(u: User, target: Option<HouseholdId>): User {
    u.(householdId := target)
  }

  /** Every member of `hid` detached, every other user untouched. */
  function DetachMembers(users: map<UserId, User>, hid: HouseholdId): (r: map<UserId, User>)
    ensures r.Keys == users.Keys
    ensures MembersOf(hid, r) == {}
    ensures forall u :: u in r ==> r[u] == if users[u].householdId == Some(hid) then Detached(users[u]) else users[u]
  {
    map u | u in users :: if users[u].householdId == Some(hid) then Detached(users[u]) else users[u]
  }

  predicate LeadsSomeHousehold(u: User) {
    Leader in u.roles && u.householdId.Some?
  }

  /** At most one user holds `leader` while pointing at a given household. */
  ghost predicate AtMostOneLeader(users: map<UserId, User>) {
    forall a, b ::
      (a in users && b in users && LeadsSomeHousehold(users[a]) && LeadsSomeHousehold(users[b])
       && users[a].householdId == users[b].householdId) ==> a == b
  }

  /** Promoting a user into a household nobody points at yet keeps at most
      one leader per household. */
  lemma PromotePreservesSingleLeader(users: map<UserId, User>, uid: UserId, hid: HouseholdId)
    requires AtMostOneLeader(users) && uid in users
    requires forall u :: u in users ==> users[u].householdId != Some(hid)
    ensures AtMostOneLeader(users[uid := Promoted(users[uid], hid)])
  {
    var after := users[uid := Promoted(users[uid], hid)];
    forall a, b | a in after && b in after && LeadsSomeHousehold(after[a]) && LeadsSomeHousehold(after[b])
                  && after[a].householdId == after[b].householdId
      ensures a == b
    {
      if a != uid && b != uid {
        assert after[a] == users[a] && after[b] == users[b];
      }
    }
  }

  /** Detaching a single user keeps at most one leader per household. */
  lemma DetachPreservesSingleLeader(users: map<UserId, User>, uid: UserId)
    requires AtMostOneLeader(users) && uid in users
    ensures AtMostOneLeader(users[uid := Detached(users[uid])])
  {
    var after := users[uid := Detached(users[uid])];
    forall a, b | a in after && b in after && LeadsSomeHousehold(after[a]) && LeadsSomeHousehold(after[b])
                  && after[a].householdId == after[b].householdId
      ensures a == b
    {
      assert a != uid && b != uid;
      assert after[a] == users[a] && after[b] == users[b];
    }
  }

  /** Deleting a household keeps at most one leader per household. */
  lemma DetachMembersPreservesSingleLeader(users: map<UserId, User>, hid: HouseholdId)
    requires AtMostOneLeader(users)
    ensures AtMostOneLeader(DetachMembers(users, hid))
  {
    var after := DetachMembers(users, hid);
    forall a, b | a in after && b in after && LeadsSomeHousehold(after[a]) && LeadsSomeHousehold(after[b])
                  && after[a].householdId == after[b].householdId
      ensures a == b
    {
      assert after[a] == users[a] && after[b] == users[b];
    }
  }

  /** An approved join keeps at most one leader per household when the
      requester is not a leader, or the target household has no leader yet. */
  lemma JoinPreservesSingleLeader(users: map<UserId, User>, uid: UserId, target: Option<HouseholdId>)
    requires AtMostOneLeader(users) && uid in users
    requires Leader !in users[uid].roles
             || forall v :: v in users && v != uid && users[v].householdId == target ==> Leader !in users[v].roles
    ensures AtMostOneLeader(users[uid := Joined(users[uid], target)])
  {
    var after := users[uid := Joined(users[uid], target)];
    forall a, b | a in after && b in after && LeadsSomeHousehold(after[a]) && LeadsSomeHousehold(after[b])
                  && after[a].householdId == after[b].householdId
      ensures a == b
    {
      if a != uid && b != uid {
        assert after[a] == users[a] && after[b] == users[b];
      }
    }
  }

  /** Without that precondition the property fails: a leader whose join
      request into another led household is approved becomes its second
      leader, because approval leaves the requester's roles alone. */
  lemma JoinCanBreakSingleLeader()
    ensures var users := map[1 := User("a", None, Some(7), {Leader}), 2 := User("b", None, Some(8), {Leader})];
            AtMostOneLeader(users) && !AtMostOneLeader(users[2 := Joined(users[2], Some(7))])
  {
    var users := map[1 := User("a", None, Some(7), {Leader}), 2 := User("b", None, Some(8), {Leader})];
    var after := users[2 := Joined(users[2], Some(7))];
    assert LeadsSomeHousehold(after[1]) && LeadsSomeHousehold(after[2]);
  }

  /** Deleting a household demotes only users whose `household_id` points at
      it: the leader recorded in `user_id` keeps `leader` when their own
      reference points elsewhere. */
  lemma DestroyKeepsOwnerWhoIsNotMember()
    ensures var users := map[1 := User("a", None, Some(8), {Leader})];
            var h := Household("h", "x", 0.0, 0.0, Safe, Some(1));
            LeaderOf(h, users) == Some(1) && Leader in DetachMembers(users, 7)[1].roles
  {
  }

  // ----- validation -----

  /** The validated fields shared by `store` and `requestCreate`:
      `name` required, a string of at most 255 characters; `address`
      required; `lat` in [-90, 90]; `long` in [-180, 180]. */
  function ValidateFields(name: Field<string>, address: Field<string>, lat: Field<real>, long: Field<real>)
    : (r: Option<CreateMeta>)
    ensures r.Some? <==>
              FilledText(name) && |name.value| <= 255 && FilledText(address)
              && lat.Given? && -90.0 <= lat.value <= 90.0
              && long.Given? && -180.0 <= long.value <= 180.0
    ensures r.Some? ==> r.value == CreateMeta(name.value, address.value, lat.value, long.value)
  {
    if FilledText(name) && |name.value| <= 255 && FilledText(address)
       && lat.Given? && Between(lat.value, -90.0, 90.0)
       && long.Given? && Between(long.value, -180.0, 180.0)
    then Some(CreateMeta(name.value, address.value, lat.value, long.value))
    else None
  }

  datatype StoreInput = StoreInput(
    name: Field<string>, address: Field<string>, lat: Field<real>, long: Field<real>,
    status: Field<string>, userId: Field<nat>)

  /** A string field that the framework turned into null (an empty string
      arrives as null). */
  predicate Nullish(f: Field<string>) {
    f.Null? || (f.Given? && f.value == "")
  }

  /** The `store` rules and the status default: the household that would be
      inserted, or `None` when validation fails. */
  function ValidateStore(input: StoreInput, users: map<UserId, User>): (r: Option<Household>)
    ensures r.Some? <==>
              ValidateFields(input.name, input.address, input.lat, input.long).Some?
              && (input.status.Absent? || Nullish(input.status) || ParseStatus(input.status.value).Some?)
              && input.userId.Given? && input.userId.value in users
    ensures r.Some? ==> r.value.userId == Some(input.userId.value) && r.value.userId.value in users
    ensures r.Some? ==> r.value.status == (if input.status.Given? && input.status.value != ""
                                           then ParseStatus(input.status.value).value else Safe)
    ensures r.Some? ==> r.value.name == input.name.value && r.value.address == input.address.value
                        && r.value.lat == input.lat.value && r.value.long == input.long.value
  {
    var fields := ValidateFields(input.name, input.address, input.lat, input.long);
    var status: Option<HouseholdStatus> :=
      if input.status.Absent? || Nullish(input.status) then Some(Safe) else ParseStatus(input.status.value);
    if fields.Some? && status.Some? && input.userId.Given? && input.userId.value in users then
      var m := fields.value;
      Some(Household(m.name, m.address, m.lat, m.long, status.value, Some(input.userId.value)))
    else None
  }

  datatype UpdateInput = UpdateInput(
    name: Field<string>, address: Field<string>, lat: Field<real>, long: Field<real>,
    status: Field<string>, userId: Field<nat>)

  /** One `sometimes` field: absent keeps the old value, a valid one replaces
      it, an invalid one fails. */
  function Replace<T>(f: Field<T>, old_: T, valid: T -> bool): Option<T> {
    match f
    case Absent => Some(old_)
    case Null => None
    case Given(v) => if valid(v) then Some(v) else None
  }

  /** `update`: validate the `sometimes` rules and apply exactly the supplied
      fields.  `user_id` has no rule, so it is never part of the update. */
  function ApplyUpdate(h: Household, input: UpdateInput): (r: Option<Household>)
    ensures r.None? <==>
              (input.name.Null? || (input.name.Given? && (input.name.value == "" || |input.name.value| > 255)))
              || (input.address.Null? || (input.address.Given? && input.address.value == ""))
              || input.lat.Null? || (input.lat.Given? && !(-90.0 <= input.lat.value <= 90.0))
              || input.long.Null? || (input.long.Given? && !(-180.0 <= input.long.value <= 180.0))
              || input.status.Null? || (input.status.Given? && ParseStatus(input.status.value).None?)
    ensures r.Some? ==> r.value.userId == h.userId
    ensures r.Some? ==> r.value.name == (if input.name.Given? then input.name.value else h.name)
    ensures r.Some? ==> r.value.address == (if input.address.Given? then input.address.value else h.address)
    ensures r.Some? ==> r.value.lat == (if input.lat.Given? then input.lat.value else h.lat)
    ensures r.Some? ==> r.value.long == (if input.long.Given? then input.long.value else h.long)
    ensures r.Some? ==> StatusName(r.value.status) == (if input.status.Given? then input.status.value else StatusName(h.status))
  {
    var name := Replace(input.name, h.name, (s: string) => s != "" && |s| <= 255);
    var address := Replace(input.address, h.address, (s: string) => s != "");
    var lat := Replace(input.lat, h.lat, (x: real) => Between(x, -90.0, 90.0));
    var long := Replace(input.long, h.long, (x: real) => Between(x, -180.0, 180.0));
    var status := match input.status
      case Absent => Some(h.status)
      case Null => None
      case Given(s) => ParseStatus(s);
    if name.Some? && address.Some? && lat.Some? && long.Some? && status.Some? then
      Some(h.(name := name.value, address := address.value, lat := lat.value, long := long.value,
              status := status.value))
    else None
  }

  /** A partial update is idempotent: applying it again changes nothing. */
  lemma UpdateIdempotent(h: Household, input: UpdateInput)
    requires ApplyUpdate(h, input).Some?
    ensures ApplyUpdate(ApplyUpdate(h, input).value, input) == ApplyUpdate(h, input)
  {
    var once := ApplyUpdate(h, input).value;
    var twice := ApplyUpdate(once, input);
    assert twice.Some?;
    StatusNameInjective(twice.value.status, once.status);
  }

  lemma StatusNameInjective(a: HouseholdStatus, b: HouseholdStatus)
    requires StatusName(a) == StatusName(b)
    ensures a == b
  {
  }

  // ----- the index page -----

  /** The payload of each of the three pages. */
  datatype View =
    | AdminPage(households: seq<HouseholdId>, filter: Option<string>, memberUsers: set<UserId>, pending: seq<RequestId>)
    | LeaderPage(household: Option<HouseholdId>, joinRequests: seq<RequestId>)
    | MemberHome(home: HouseholdId)
    | MemberBrowse(available: set<HouseholdId>)

  datatype Response = Rendered(view: View) | Aborted(failure: Failure)

  /** `$request->get('status', 'all')`: a missing parameter reads `all`, an
      empty one null. */
  function StatusFilter(status: Field<string>): Option<string> {
    match status
    case Absent => Some("all")
    case Null => None
    case Given(s) => if s == "" then None else Some(s)
  }

  /** Whether a household passes the admin filter; `where('status', null)`
      matches no row because status is never null. */
  predicate PassesFilter(h: Household, filter: Option<string>) {
    filter.Some? && (filter.value == "all" || StatusName(h.status) == filter.value)
  }

  /** The households whose `user_id` column names `uid`. */
  function OwnedBy(households: map<HouseholdId, Household>, uid: UserId): (r: set<HouseholdId>)
    ensures forall h :: h in r <==> h in households && households[h].userId == Some(uid)
  {
    set h | h in households && households[h].userId == Some(uid)
  }

  /** The households the admin filter lets through. */
  function FilteredHouseholds(households: map<HouseholdId, Household>, filter: Option<string>): (r: set<HouseholdId>)
    ensures forall h :: h in r <==> h in households && PassesFilter(households[h], filter)
  {
    set h | h in households && PassesFilter(households[h], filter)
  }

  /** Every request still pending, of either type. */
  function PendingRequests(requests: map<RequestId, HouseholdRequest>): (r: set<RequestId>)
    ensures forall id :: id in r <==> id in requests && requests[id].status == Pending
  {
    set id | id in requests && requests[id].status == Pending
  }

  /** The admin page: one page of the filtered households and one page of
      the pending requests, newest first, and every user holding `member`. */
  function AdminIndex(db: Database, status: Field<string>, page: int): (v: View)
    reads db, db.log
    requires db.Valid()
    ensures v.AdminPage? && v.filter == StatusFilter(status)
    ensures v.households == Page(Descending(FilteredHouseholds(db.households, v.filter), db.nextHousehold), page)
    ensures v.pending == Page(Descending(PendingRequests(db.requests), db.nextRequest), page)
    ensures |v.households| <= PerPage && |v.pending| <= PerPage
    ensures forall h :: h in v.households ==> h in db.households && PassesFilter(db.households[h], v.filter)
    ensures forall i, j :: 0 <= i < j < |v.households| ==> v.households[i] > v.households[j]
    ensures forall u :: u in v.memberUsers <==> u in db.users && Member in db.users[u].roles
    ensures forall id :: id in v.pending ==> id in db.requests && db.requests[id].status == Pending
    ensures forall i, j :: 0 <= i < j < |v.pending| ==> v.pending[i] > v.pending[j]
  {
    var filter := StatusFilter(status);
    AdminPage(
      Page(Descending(FilteredHouseholds(db.households, filter), db.nextHousehold), page),
      filter,
      (set u | u in db.users && Member in db.users[u].roles),
      Page(Descending(PendingRequests(db.requests), db.nextRequest), page))
  }

  /** The leader page: the lowest-id household whose `user_id` is the actor
      (`first()`), and the pending join requests for it, newest first.  With
      no such household the query matches `household_id` null. */
  function LeaderIndex(db: Database, actor: UserId): (v: View)
    reads db, db.log
    requires db.Valid()
    ensures v.LeaderPage?
    ensures v.household.Some? <==> OwnedBy(db.households, actor) != {}
    ensures v.household.Some? ==>
              && v.household.value in OwnedBy(db.households, actor)
              && forall g :: g in OwnedBy(db.households, actor) ==> v.household.value <= g
    ensures forall id :: id in v.joinRequests <==>
              id in db.requests && db.requests[id].householdId == v.household
              && db.requests[id].kind == JoinRequest && db.requests[id].status == Pending
    ensures forall i, j :: 0 <= i < j < |v.joinRequests| ==> v.joinRequests[i] > v.joinRequests[j]
  {
    var household := Lowest(OwnedBy(db.households, actor), 0, db.nextHousehold);
    var joins := set id | id in db.requests && db.requests[id].householdId == household
                          && db.requests[id].kind == JoinRequest && db.requests[id].status == Pending;
    LeaderPage(household, Descending(joins, db.nextRequest))
  }

  /** The member page: the actor's own household when the reference resolves,
      otherwise the list of every household to pick from. */
  function MemberIndex(db: Database, actor: UserId): (v: View)
    reads db
    requires actor in db.users
    ensures v.MemberHome? <==> db.users[actor].householdId.Some? && db.users[actor].householdId.value in db.households
    ensures v.MemberHome? ==> db.users[actor].householdId == Some(v.home)
    ensures !v.MemberHome? ==> v == MemberBrowse(db.households.Keys)
  {
    var own := db.users[actor].householdId;
    if own.Some? && own.value in db.households then MemberHome(own.value)
    else MemberBrowse(db.households.Keys)
  }

  /** Role dispatch of `index`: admin first, then leader, then member, else
      403.  Pages hold ids; orderings by name are not modelled. */
  function Index(db: Database, actor: UserId, status: Field<string>, page: int): (r: Response)
    reads db, db.log
    requires db.Valid() && actor in db.users
    ensures r.Aborted? <==> Admin !in db.users[actor].roles && Leader !in db.users[actor].roles
                            && Member !in db.users[actor].roles
    ensures r.Aborted? ==> r.failure == Forbidden
    ensures Admin in db.users[actor].roles ==> r == Rendered(AdminIndex(db, status, page))
    ensures Admin !in db.users[actor].roles && Leader in db.users[actor].roles ==> r == Rendered(LeaderIndex(db, actor))
    ensures Admin !in db.users[actor].roles && Leader !in db.users[actor].roles && Member in db.users[actor].roles
            ==> r == Rendered(MemberIndex(db, actor))
  {
    var roles := db.users[actor].roles;
    if Admin in roles then Rendered(AdminIndex(db, status, page))
    else if Leader in roles then Rendered(LeaderIndex(db, actor))
    else if Member in roles then Rendered(MemberIndex(db, actor))
    else Aborted(Forbidden)
  }

  // ----- actions -----

  /** `update(['household_id' => hid])` then `syncRoles('leader')` on one
      user, where `hid` is a household nobody pointed at before. */
  method Promote(db: Database, uid: UserId, hid: HouseholdId)
    requires db.Valid() && uid in db.users && hid < db.nextHousehold
    modifies db
    ensures db.Valid() && db.OnlyUsersChanged()
    ensures db.users == old(db.users)[uid := Promoted(old(db.users)[uid], hid)]
    ensures old(AtMostOneLeader(db.users)) && (forall u :: u in old(db.users) ==> old(db.users)[u].householdId != Some(hid))
            ==> AtMostOneLeader(db.users)
  {
    ghost var before := db.users;
    db.UpdateUser(uid, db.users[uid].(householdId := Some(hid)));
    db.UpdateUser(uid, db.users[uid].(roles := {Leader}));
    assert db.users == before[uid := Promoted(before[uid], hid)];
    if AtMostOneLeader(before) && forall u :: u in before ==> before[u].householdId != Some(hid) {
      PromotePreservesSingleLeader(before, uid, hid);
    }
  }

  /** `store`: on valid input, insert the household and make the named user
      its leader (household reference set, roles exactly {leader}). */
  method Store(db: Database, actor: UserId, input: StoreInput) returns (outcome: Outcome, created: Option<HouseholdId>)
    requires db.Valid() && actor in db.users
    modifies db, db.log
    ensures db.Valid()
    ensures outcome == Done <==> ValidateStore(input, old(db.users)).Some?
    ensures outcome != Done ==> outcome == Failed(Invalid) && created.None? && unchanged(db) && unchanged(db.log)
    ensures outcome == Done ==> created == Some(old(db.nextHousehold)) && old(db.nextHousehold) !in old(db.households)
    ensures outcome == Done ==> db.households == old(db.households)[old(db.nextHousehold) := ValidateStore(input, old(db.users)).value]
    ensures outcome == Done ==> input.userId.Given?
    ensures outcome == Done ==>
              db.users == old(db.users)[input.userId.value := Promoted(old(db.users)[input.userId.value], old(db.nextHousehold))]
    ensures outcome == Done ==> db.requests == old(db.requests) && db.hazards == old(db.hazards)
    ensures outcome == Done ==> db.CountersAdvanced(1, 0, 0)
    ensures outcome == Done ==> db.log.entries == Appended(old(db.log.entries), Some(actor), "Household created")
    ensures outcome == Done && old(AtMostOneLeader(db.users)) ==> AtMostOneLeader(db.users)
  {
    var validated := ValidateStore(input, db.users);
    if validated.None? {
      return Failed(Invalid), None;
    }
    var h := validated.value;
    var uid := input.userId.value;
    var id := db.InsertHousehold(h);
    Promote(db, uid, id);
    var _ := db.log.Log("Household created", Some(actor), None, map[]);
    outcome, created := Done, Some(id);
  }

  /** `update`: apply the validated partial update to one household; no
      user, request or hazard changes. */
  method Update(db: Database, actor: UserId, hid: HouseholdId, input: UpdateInput) returns (outcome: Outcome)
    requires db.Valid() && actor in db.users
    modifies db, db.log
    ensures db.Valid()
    ensures hid !in old(db.households) ==> outcome == Failed(NotFound)
    ensures hid in old(db.households) ==>
              (outcome == Failed(Invalid) <==> ApplyUpdate(old(db.households)[hid], input).None?)
    ensures hid in old(db.households) ==>
              (outcome == Done <==> ApplyUpdate(old(db.households)[hid], input).Some?)
    ensures outcome != Done ==> unchanged(db) && unchanged(db.log)
    ensures outcome == Done ==> hid in old(db.households) && ApplyUpdate(old(db.households)[hid], input).Some?
    ensures outcome == Done ==>
              db.households == old(db.households)[hid := ApplyUpdate(old(db.households)[hid], input).value]
    ensures outcome == Done ==> db.users == old(db.users) && db.requests == old(db.requests) && db.hazards == old(db.hazards)
    ensures outcome == Done ==> db.CountersAdvanced(0, 0, 0)
    ensures outcome == Done ==> db.log.entries == Appended(old(db.log.entries), Some(actor), "Household status updated")
  {
    if hid !in db.households {
      return Failed(NotFound);
    }
    var updated := ApplyUpdate(db.households[hid], input);
    if updated.None? {
      return Failed(Invalid);
    }
    db.UpdateHousehold(hid, updated.value);
    var _ := db.log.Log("Household status updated", Some(actor), None, map[]);
    outcome := Done;
  }

  /** `destroy`: detach every member (demoting leaders to member), then
      delete the household.  Requests pointing at it are kept. */
  method Destroy(db: Database, actor: UserId, hid: HouseholdId) returns (outcome: Outcome)
    requires db.Valid() && actor in db.users
    modifies db, db.log
    ensures db.Valid()
    ensures hid !in old(db.households) ==> outcome == Failed(NotFound) && unchanged(db) && unchanged(db.log)
    ensures hid in old(db.households) ==> outcome == Done
    ensures outcome == Done ==> db.users == DetachMembers(old(db.users), hid)
    ensures outcome == Done ==> db.households == old(db.households) - {hid}
    ensures outcome == Done ==> db.requests == old(db.requests) && db.hazards == old(db.hazards)
    ensures outcome == Done ==> db.CountersAdvanced(0, 0, 0)
    ensures outcome == Done ==> db.log.entries == Appended(old(db.log.entries), Some(actor), "Household deleted")
    ensures old(AtMostOneLeader(db.users)) ==> AtMostOneLeader(db.users)
  {
    if hid !in db.households {
      return Failed(NotFound);
    }
    var members := MembersOf(hid, db.users);
    var remaining := members;
    while remaining != {}
      invariant db.Valid() && remaining <= members
      invariant db.users.Keys == old(db.users).Keys
      invariant forall u :: u in db.users ==>
                  db.users[u] == if u in members - remaining then Detached(old(db.users)[u]) else old(db.users)[u]
      invariant db.households == old(db.households) && db.requests == old(db.requests) && db.hazards == old(db.hazards)
      invariant db.log.entries == old(db.log.entries)
      invariant db.CountersAdvanced(0, 0, 0)
      decreases remaining
    {
      var m :| m in remaining;
      var member := db.users[m];
      db.UpdateUser(m, member.(householdId := None));
      if Leader in member.roles {
        db.UpdateUser(m, db.users[m].(roles := {Member}));
      }
      remaining := remaining - {m};
    }
    assert db.users == DetachMembers(old(db.users), hid);
    if AtMostOneLeader(old(db.users)) {
      DetachMembersPreservesSingleLeader(old(db.users), hid);
    }
    db.DeleteHousehold(hid);
    var _ := db.log.Log("Household deleted", Some(actor), None, map[]);
    outcome := Done;
  }

  /** `requestJoin`: the target household must exist; one pending join
      request for the actor is added.  Duplicates are not prevented. */
  method RequestJoin(db: Database, actor: UserId, householdId: Field<nat>) returns (outcome: Outcome, created: Option<RequestId>)
    requires db.Valid() && actor in db.users
    modifies db, db.log
    ensures db.Valid()
    ensures outcome == Done <==> householdId.Given? && householdId.value in old(db.households)
    ensures outcome != Done ==> outcome == Failed(Invalid) && created.None? && unchanged(db) && unchanged(db.log)
    ensures outcome == Done ==> created == Some(old(db.nextRequest)) && old(db.nextRequest) !in old(db.requests)
    ensures outcome == Done ==>
              db.requests == old(db.requests)[old(db.nextRequest) :=
                               HouseholdRequest(actor, Some(householdId.value), JoinRequest, Pending, None)]
    ensures outcome == Done ==> db.users == old(db.users) && db.households == old(db.households) && db.hazards == old(db.hazards)
    ensures outcome == Done ==> db.CountersAdvanced(0, 1, 0)
    ensures outcome == Done ==> db.log.entries == Appended(old(db.log.entries), Some(actor), "Submitted join request")
  {
    if !(householdId.Given? && householdId.value in db.households) {
      return Failed(Invalid), None;
    }
    var id := db.InsertRequest(Insert(actor, Some(householdId.value), JoinRequest, Some(Pending), None));
    var _ := db.log.Log("Submitted join request", Some(actor), None, map[]);
    outcome, created := Done, Some(id);
  }

  datatype CreateInput = CreateInput(name: Field<string>, address: Field<string>, lat: Field<real>, long: Field<real>)

  /** `requestCreate`: one pending create request with no household and the
      validated fields as its meta. */
  method RequestCreate(db: Database, actor: UserId, input: CreateInput) returns (outcome: Outcome, created: Option<RequestId>)
    requires db.Valid() && actor in db.users
    modifies db, db.log
    ensures db.Valid()
    ensures outcome == Done <==> ValidateFields(input.name, input.address, input.lat, input.long).Some?
    ensures outcome != Done ==> outcome == Failed(Invalid) && created.None? && unchanged(db) && unchanged(db.log)
    ensures outcome == Done ==> created == Some(old(db.nextRequest)) && old(db.nextRequest) !in old(db.requests)
    ensures outcome == Done ==>
              db.requests == old(db.requests)[old(db.nextRequest) :=
                HouseholdRequest(actor, None, CreateRequest, Pending,
                  Some(EncodeMeta(ValidateFields(input.name, input.address, input.lat, input.long).value)))]
    ensures outcome == Done ==> db.users == old(db.users) && db.households == old(db.households) && db.hazards == old(db.hazards)
    ensures outcome == Done ==> db.CountersAdvanced(0, 1, 0)
    ensures outcome == Done ==> db.log.entries == Appended(old(db.log.entries), Some(actor), "Submitted create request")
  {
    var fields := ValidateFields(input.name, input.address, input.lat, input.long);
    if fields.None? {
      return Failed(Invalid), None;
    }
    var id := db.InsertRequest(Insert(actor, None, CreateRequest, Some(Pending), Some(EncodeMeta(fields.value))));
    var _ := db.log.Log("Submitted create request", Some(actor), None, map[]);
    outcome, created := Done, Some(id);
  }

  /** The join precondition under which approval keeps one leader per
      household: the requester is not a leader, or nobody else pointing at the
      target household is. */
  ghost predicate JoinKeepsSingleLeader(users: map<UserId, User>, r: HouseholdRequest) {
    r.userId in users &&
    (Leader !in users[r.userId].roles
     || forall v :: v in users && v != r.userId && users[v].householdId == r.householdId ==> Leader !in users[v].roles)
  }

  /** `approveRequest`.  A join moves the requester into the request's
      household and leaves their roles alone; a create builds the household
      from the meta, makes the requester its leader and records the new id on
      the request.  The request's current status is never checked. */
  method ApproveRequest(db: Database, actor: UserId, rid: RequestId) returns (outcome: Outcome)
    requires db.Valid() && actor in db.users
    modifies db, db.log
    ensures db.Valid()
    ensures rid !in old(db.requests) ==> outcome == Failed(NotFound) && unchanged(db) && unchanged(db.log)
    ensures rid in old(db.requests) && old(db.requests)[rid].kind == JoinRequest ==>
              outcome == Done && JoinApproved(db, actor, rid)
    ensures rid in old(db.requests) && old(db.requests)[rid].kind == CreateRequest ==>
              (outcome == Done <==> old(db.requests)[rid].meta.Some? && FromCreateMeta(old(db.requests)[rid].meta.value).Some?)
    ensures rid in old(db.requests) && outcome != Done ==> outcome == Failed(ServerError) && unchanged(db) && unchanged(db.log)
    ensures outcome == Done && old(db.requests)[rid].kind == CreateRequest ==> CreateApproved(db, actor, rid)
    ensures outcome == Done && old(AtMostOneLeader(db.users))
            && (old(db.requests)[rid].kind == JoinRequest ==> old(JoinKeepsSingleLeader(db.users, db.requests[rid])))
            ==> AtMostOneLeader(db.users)
  {
    if rid !in db.requests {
      return Failed(NotFound);
    }
    if db.requests[rid].kind == JoinRequest {
      ApproveJoin(db, actor, rid);
      outcome := Done;
    } else {
      var meta := db.requests[rid].meta;
      var built := if meta.Some? then FromCreateMeta(meta.value) else None;
      if built.None? {
        return Failed(ServerError);
      }
      ApproveCreate(db, actor, rid, built.value);
      outcome := Done;
    }
  }

  /** The state after approving join request `rid`. */
  twostate predicate JoinApproved(db: Database, actor: UserId, rid: RequestId)
    reads db, db.log
  {
    && rid in old(db.requests)
    && var r := old(db.requests)[rid];
    && r.userId in old(db.users)
    && db.requests == old(db.requests)[rid := r.(status := Approved)]
    && db.users == old(db.users)[r.userId := Joined(old(db.users)[r.userId], r.householdId)]
    && db.households == old(db.households) && db.hazards == old(db.hazards)
    && db.CountersAdvanced(0, 0, 0)
    && db.log.entries == Appended(old(db.log.entries), Some(actor), "Approved request")
  }

  /** The state after approving create request `rid`, whose meta builds a
      household. */
  twostate predicate CreateApproved(db: Database, actor: UserId, rid: RequestId)
    reads db, db.log
  {
    && rid in old(db.requests)
    && var r := old(db.requests)[rid];
    && var id := old(db.nextHousehold);
    && r.meta.Some? && FromCreateMeta(r.meta.value).Some? && r.userId in old(db.users)
    && id !in old(db.households)
    && db.households == old(db.households)[id := FromCreateMeta(r.meta.value).value.(userId := Some(r.userId))]
    && db.users == old(db.users)[r.userId := Promoted(old(db.users)[r.userId], id)]
    && db.requests == old(db.requests)[rid := r.(status := Approved, householdId := Some(id))]
    && db.hazards == old(db.hazards)
    && db.CountersAdvanced(1, 0, 0)
    && db.log.entries == Appended(old(db.log.entries), Some(actor), "Approved request")
  }

  /** The join branch of `approveRequest`. */
  method ApproveJoin(db: Database, actor: UserId, rid: RequestId)
    requires db.Valid() && actor in db.users
    requires rid in db.requests && db.requests[rid].kind == JoinRequest
    modifies db, db.log
    ensures db.Valid()
    ensures JoinApproved(db, actor, rid)
    ensures old(AtMostOneLeader(db.users)) && old(JoinKeepsSingleLeader(db.users, db.requests[rid]))
            ==> AtMostOneLeader(db.users)
  {
    var r := db.requests[rid];
    ghost var before := db.users;
    db.UpdateRequest(rid, r.(status := Approved));
    db.UpdateUser(r.userId, db.users[r.userId].(householdId := r.householdId));
    if AtMostOneLeader(before) && JoinKeepsSingleLeader(before, r) {
      JoinPreservesSingleLeader(before, r.userId, r.householdId);
    }
    var _ := db.log.Log("Approved request", Some(actor), None, map[]);
  }

  /** The create branch of `approveRequest`, once the meta has built `h`. */
  method ApproveCreate(db: Database, actor: UserId, rid: RequestId, h: Household)
    requires db.Valid() && actor in db.users
    requires rid in db.requests && db.requests[rid].kind == CreateRequest
    requires db.requests[rid].meta.Some? && FromCreateMeta(db.requests[rid].meta.value) == Some(h)
    modifies db, db.log
    ensures db.Valid()
    ensures old(db.nextHousehold) !in old(db.households)
    ensures db.households == old(db.households)[old(db.nextHousehold) := h.(userId := Some(old(db.requests)[rid].userId))]
    ensures db.users == old(db.users)[old(db.requests)[rid].userId :=
                          Promoted(old(db.users)[old(db.requests)[rid].userId], old(db.nextHousehold))]
    ensures db.requests == old(db.requests)[rid := old(db.requests)[rid].(status := Approved, householdId := Some(old(db.nextHousehold)))]
    ensures db.hazards == old(db.hazards) && db.CountersAdvanced(1, 0, 0)
    ensures db.log.entries == Appended(old(db.log.entries), Some(actor), "Approved request")
    ensures old(AtMostOneLeader(db.users)) ==> AtMostOneLeader(db.users)
  {
    var r := db.requests[rid];
    ghost var households := db.households;
    var id := db.InsertHousehold(h);
    db.UpdateHousehold(id, h.(userId := Some(r.userId)));
    assert db.households == households[id := h.(userId := Some(r.userId))];
    Promote(db, r.userId, id);
    db.UpdateRequest(rid, r.(status := Approved, householdId := Some(id)));
    var _ := db.log.Log("Approved request", Some(actor), None, map[]);
  }

  /** `denyRequest`: only the status changes, whatever it was before. */
  method DenyRequest(db: Database, actor: UserId, rid: RequestId) returns (outcome: Outcome)
    requires db.Valid() && actor in db.users
    modifies db, db.log
    ensures db.Valid()
    ensures rid !in old(db.requests) ==> outcome == Failed(NotFound) && unchanged(db) && unchanged(db.log)
    ensures rid in old(db.requests) ==> outcome == Done
    ensures outcome == Done ==> db.requests == old(db.requests)[rid := old(db.requests)[rid].(status := Denied)]
    ensures outcome == Done ==> db.users == old(db.users) && db.households == old(db.households) && db.hazards == old(db.hazards)
    ensures outcome == Done ==> db.CountersAdvanced(0, 0, 0)
    ensures outcome == Done ==> db.log.entries == Appended(old(db.log.entries), Some(actor), "Denied request")
  {
    if rid !in db.requests {
      return Failed(NotFound);
    }
    db.UpdateRequest(rid, db.requests[rid].(status := Denied));
    var _ := db.log.Log("Denied request", Some(actor), None, map[]);
    outcome := Done;
  }

  /** `removeMember`: 403 unless the actor holds leader and has the same
      household reference as the target (two null references are equal);
      a warning and no change when the target is the actor; otherwise the
      target is detached, and demoted if a leader. */
  method RemoveMember(db: Database, actor: UserId, target: UserId) returns (outcome: Outcome)
    requires db.Valid() && actor in db.users
    modifies db, db.log
    ensures db.Valid()
    ensures target !in old(db.users) ==> outcome == Failed(NotFound)
    ensures target in old(db.users) ==>
              (outcome == Failed(Forbidden) <==>
                Leader !in old(db.users)[actor].roles || old(db.users)[actor].householdId != old(db.users)[target].householdId)
    ensures outcome == Warned <==>
              target == actor && Leader in old(db.users)[actor].roles
    ensures outcome != Done ==> unchanged(db) && unchanged(db.log)
    ensures outcome == Done ==> target in old(db.users) && target != actor
    ensures (target in old(db.users) && target != actor && Leader in old(db.users)[actor].roles
             && old(db.users)[actor].householdId == old(db.users)[target].householdId)
            ==> outcome == Done
    ensures outcome == Done ==> db.users == old(db.users)[target := Detached(old(db.users)[target])]
    ensures outcome == Done ==> db.households == old(db.households) && db.requests == old(db.requests) && db.hazards == old(db.hazards)
    ensures outcome == Done ==> db.CountersAdvanced(0, 0, 0)
    ensures outcome == Done ==> db.log.entries == Appended(old(db.log.entries), Some(actor), "Member removed")
    ensures old(AtMostOneLeader(db.users)) ==> AtMostOneLeader(db.users)
  {
    if target !in db.users {
      return Failed(NotFound);
    }
    var a := db.users[actor];
    if Leader !in a.roles || a.householdId != db.users[target].householdId {
      return Failed(Forbidden);
    }
    if target == actor {
      return Warned;
    }
    var u := db.users[target];
    ghost var before := db.users;
    db.UpdateUser(target, u.(householdId := None));
    if Leader in u.roles {
      db.UpdateUser(target, db.users[target].(roles := {Member}));
    }
    assert db.users == before[target := Detached(before[target])];
    if AtMostOneLeader(before) {
      DetachPreservesSingleLeader(before, target);
    }
    var _ := db.log.Log("Member removed", Some(actor), None, map[]);
    outcome := Done;
  }

  /** `changeStatus`: 403 unless the actor's household reference is this
      household; then the status must be one of the four names, and only the
      status changes. */
  method ChangeStatus(db: Database, actor: UserId, hid: HouseholdId, status: Field<string>) returns (outcome: Outcome)
    requires db.Valid() && actor in db.users
    modifies db, db.log
    ensures db.Valid()
    ensures hid !in old(db.households) ==> outcome == Failed(NotFound)
    ensures hid in old(db.households) && old(db.users)[actor].householdId != Some(hid) ==> outcome == Failed(Forbidden)
    ensures hid in old(db.households) && old(db.users)[actor].householdId == Some(hid) ==>
              (outcome == Done <==> status.Given? && ParseStatus(status.value).Some?)
    ensures outcome != Done ==> unchanged(db) && unchanged(db.log)
    ensures outcome == Done ==>
              db.households == old(db.households)[hid := old(db.households)[hid].(status := ParseStatus(status.value).value)]
    ensures outcome == Done ==> db.users == old(db.users) && db.requests == old(db.requests) && db.hazards == old(db.hazards)
    ensures outcome == Done ==> db.CountersAdvanced(0, 0, 0)
    ensures outcome == Done ==> db.log.entries == Appended(old(db.log.entries), Some(actor), "Changed household status")
  {
    if hid !in db.households {
      return Failed(NotFound);
    }
    if db.users[actor].householdId != Some(hid) {
      return Failed(Forbidden);
    }
    if !(status.Given? && ParseStatus(status.value).Some?) {
      return Failed(Invalid);
    }
    db.UpdateHousehold(hid, db.households[hid].(status := ParseStatus(status.value).value));
    var _ := db.log.Log("Changed household status", Some(actor), None, map[]);
    outcome := Done;
  }
}
