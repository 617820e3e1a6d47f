/** The application's relational store, reduced to the tables the household
    and hazard lifecycle touch.  Each table is a map from auto-increment id to
    row; the activity log is its own object. */
module Db {
  import opened Common
  import opened Households
  import opened HouseholdRequests
  import opened Hazards
  import opened ActivityLogger

  class Database {
    var users: map<UserId, User>
    var households: map<HouseholdId, Household>
    var requests: map<RequestId, HouseholdRequest>
    var hazards: map<HazardId, Hazard>
    var hazardTypes: set<HazardTypeId>
    /** The next auto-increment value of each table the core inserts into. */
    var nextHousehold: nat
    var nextRequest: nat
    var nextHazard: nat
    const log: ActivityLog

    /** Auto-increment ids are never reused, every stored household reference
        was handed out by the households table, and the foreign keys of the
        two migrations hold. */
    ghost predicate Valid()
      reads this, log
    {
      && log.Valid()
      && (forall id :: id in households ==> id < nextHousehold)
      && (forall id :: id in requests ==> id < nextRequest)
      && (forall id :: id in hazards ==> id < nextHazard)
      && (forall u :: u in users && users[u].householdId.Some? ==> users[u].householdId.value < nextHousehold)
      && (forall id :: id in requests && requests[id].householdId.Some? ==> requests[id].householdId.value < nextHousehold)
      && (forall id :: id in requests ==> requests[id].userId in users)
      && (forall id :: id in hazards ==> hazards[id].userId in users && hazards[id].typeId in hazardTypes)
    }

    /** An empty database holding the given users and hazard types. */
    constructor (users: map<UserId, User>, hazardTypes: set<HazardTypeId>)
      requires forall u :: u in users ==> users[u].householdId.None?
      ensures Valid() && fresh(log)
      ensures this.users == users && this.hazardTypes == hazardTypes
      ensures households == map[] && requests == map[] && hazards == map[] && log.entries == []
    {
      this.users := users;
      this.hazardTypes := hazardTypes;
      households, requests, hazards := map[], map[], map[];
      nextHousehold, nextRequest, nextHazard := 1, 1, 1;
      log := new ActivityLog();
    }

    // ----- single-row writes, as the ORM performs them -----

    /** The tables other than `households` are as they were. */
    twostate predicate OnlyHouseholdsChanged()
      reads this
    {
      users == old(users) && requests == old(requests) && hazards == old(hazards)
      && hazardTypes == old(hazardTypes) && nextRequest == old(nextRequest) && nextHazard == old(nextHazard)
    }

    /** The tables other than `users` are as they were. */
    twostate predicate OnlyUsersChanged()
      reads this
    {
      households == old(households) && requests == old(requests) && hazards == old(hazards)
      && hazardTypes == old(hazardTypes)
      && nextHousehold == old(nextHousehold) && nextRequest == old(nextRequest) && nextHazard == old(nextHazard)
    }

    /** The tables other than `household_requests` are as they were. */
    twostate predicate OnlyRequestsChanged()
      reads this
    {
      users == old(users) && households == old(households) && hazards == old(hazards)
      && hazardTypes == old(hazardTypes) && nextHousehold == old(nextHousehold) && nextHazard == old(nextHazard)
    }

    /** The tables other than `hazards` are as they were. */
    twostate predicate OnlyHazardsChanged()
      reads this
    {
      users == old(users) && households == old(households) && requests == old(requests)
      && hazardTypes == old(hazardTypes) && nextHousehold == old(nextHousehold) && nextRequest == old(nextRequest)
    }

    /** The hazard types are as they were, and each auto-increment counter
        has moved on by the number of rows inserted into its table. */
    twostate predicate CountersAdvanced(newHouseholds: nat, newRequests: nat, newHazards: nat)
      reads this
    {
      hazardTypes == old(hazardTypes) && nextHousehold == old(nextHousehold) + newHouseholds
      && nextRequest == old(nextRequest) + newRequests && nextHazard == old(nextHazard) + newHazards
    }

    method InsertHousehold(h: Household) returns (id: HouseholdId)
      requires Valid()
      modifies this
      ensures Valid() && OnlyHouseholdsChanged()
      ensures id == old(nextHousehold) && id !in old(households)
      ensures households == old(households)[id := h] && nextHousehold == id + 1
    {
      id := nextHousehold;
      households := households[id := h];
      nextHousehold := nextHousehold + 1;
    }

    method UpdateHousehold(id: HouseholdId, h: Household)
      requires Valid() && id in households
      modifies this
      ensures Valid() && OnlyHouseholdsChanged()
      ensures households == old(households)[id := h] && nextHousehold == old(nextHousehold)
    {
      households := households[id := h];
    }

    method DeleteHousehold(id: HouseholdId)
      requires Valid()
      modifies this
      ensures Valid() && OnlyHouseholdsChanged()
      ensures households == old(households) - {id} && nextHousehold == old(nextHousehold)
    {
      households := households - {id};
    }

    method UpdateUser(uid: UserId, u: User)
      requires Valid() && uid in users
      requires u.householdId.Some? ==> u.householdId.value < nextHousehold
      modifies this
      ensures Valid() && OnlyUsersChanged()
      ensures users == old(users)[uid := u]
    {
      users := users[uid := u];
    }

    method InsertRequest(r: HouseholdRequest) returns (id: RequestId)
      requires Valid() && r.userId in users
      requires r.householdId.Some? ==> r.householdId.value < nextHousehold
      modifies this
      ensures Valid() && OnlyRequestsChanged()
      ensures id == old(nextRequest) && id !in old(requests)
      ensures requests == old(requests)[id := r] && nextRequest == id + 1
    {
      id := nextRequest;
      requests := requests[id := r];
      nextRequest := nextRequest + 1;
    }

    method UpdateRequest(id: RequestId, r: HouseholdRequest)
      requires Valid() && id in requests && r.userId in users
      requires r.householdId.Some? ==> r.householdId.value < nextHousehold
      modifies this
      ensures Valid() && OnlyRequestsChanged()
      ensures requests == old(requests)[id := r] && nextRequest == old(nextRequest)
    {
      requests := requests[id := r];
    }

    method InsertHazard(h: Hazard) returns (id: HazardId)
      requires Valid() && h.userId in users && h.typeId in hazardTypes
      modifies this
      ensures Valid() && OnlyHazardsChanged()
      ensures id == old(nextHazard) && id !in old(hazards)
      ensures hazards == old(hazards)[id := h] && nextHazard == id + 1
    {
      id := nextHazard;
      hazards := hazards[id := h];
      nextHazard := nextHazard + 1;
    }

    method UpdateHazard(id: HazardId, h: Hazard)
      requires Valid() && id in hazards && h.userId in users && h.typeId in hazardTypes
      modifies this
      ensures Valid() && OnlyHazardsChanged()
      ensures hazards == old(hazards)[id := h] && nextHazard == old(nextHazard)
    {
      hazards := hazards[id := h];
    }

    method DeleteHazard(id: HazardId)
      requires Valid()
      modifies this
      ensures Valid() && OnlyHazardsChanged()
      ensures hazards == old(hazards) - {id} && nextHazard == old(nextHazard)
    {
      hazards := hazards - {id};
    }

    /** Deleting a user row: the `cascade` foreign keys of both migrations
        delete that user's requests and hazards with it; nothing else changes. */
    method DeleteUser(uid: UserId)
      requires Valid()
      modifies this
      ensures Valid()
      ensures users == old(users) - {uid}
      ensures requests == HouseholdRequests.AfterUserDeleted(old(requests), uid)
      ensures hazards == Hazards.AfterUserDeleted(old(hazards), uid)
      ensures households == old(households) && hazardTypes == old(hazardTypes)
      ensures nextHousehold == old(nextHousehold) && nextRequest == old(nextRequest) && nextHazard == old(nextHazard)
    {
      requests := HouseholdRequests.AfterUserDeleted(requests, uid);
      hazards := Hazards.AfterUserDeleted(hazards, uid);
      users := users - {uid};
    }

    /** Deleting a hazard type: the `restrict` foreign key refuses while any
        hazard still refers to it. */
    method DeleteHazardType(typeId: HazardTypeId) returns (deleted: bool)
      requires Valid()
      modifies this
      ensures Valid()
      ensures deleted <==> TypeDeletable(old(hazards), typeId)
      ensures hazardTypes == if deleted then old(hazardTypes) - {typeId} else old(hazardTypes)
      ensures users == old(users) && households == old(households)
      ensures requests == old(requests) && hazards == old(hazards)
      ensures nextHousehold == old(nextHousehold) && nextRequest == old(nextRequest) && nextHazard == old(nextHazard)
    {
      deleted := TypeDeletable(hazards, typeId);
      if deleted {
        hazardTypes := hazardTypes - {typeId};
      }
    }
  }
}
