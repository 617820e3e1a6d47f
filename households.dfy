/** The Household model: its status enum, the mass-assignment whitelist, the
    construction of a row from an attribute array, and the three relations
    (leader, members, requests). */
module Households {
  import opened Common
  import opened HouseholdRequests

  datatype HouseholdStatus = Safe | AtRisk | NeedRescue | Evacuated

  /** A household row.  `userId` is the leader reference; it is null while a
      household created from a request has not been given its owner yet. */
  datatype Household = Household(
    name: string,
    address: string,
    lat: real,
    long: real,
    status: HouseholdStatus,
    userId: Option<UserId>)

  function StatusName(s: HouseholdStatus): string {
    match s
    case Safe => "safe"
    case AtRisk => "at_risk"
    case NeedRescue => "need_rescue"
    case Evacuated => "evacuated"
  }

  /** The rule `in:safe,at_risk,need_rescue,evacuated`: a string names a
      status exactly when it is one of the four names, and then only one. */
  function ParseStatus(name: string): (r: Option<HouseholdStatus>)
    ensures r.Some? <==> name in {"safe", "at_risk", "need_rescue", "evacuated"}
    ensures r.Some? ==> StatusName(r.value) == name
  {
    if name == "safe" then Some(Safe)
    else if name == "at_risk" then Some(AtRisk)
    else if name == "need_rescue" then Some(NeedRescue)
    else if name == "evacuated" then Some(Evacuated)
    else None
  }

  lemma StatusNameRoundTrip(s: HouseholdStatus)
    ensures ParseStatus(StatusName(s)) == Some(s)
  {
  }

  /** The `$fillable` whitelist. */
  const Fillable: set<string> := {"name", "address", "lat", "long", "status", "user_id"}

  /** Mass assignment: every key outside the whitelist is dropped, every key
      inside it keeps its value. */
  function Fill(attrs: Attributes): (r: Attributes)
    ensures r.Keys == attrs.Keys * Fillable
    ensures forall k :: k in r ==> r[k] == attrs[k]
  {
    map k | k in attrs && k in Fillable :: attrs[k]
  }

  /** A JSON number that is a non-negative whole number, read as an id. */
  function AsId(a: Attr): (r: Option<nat>)
    ensures r.Some? ==> a == Number(r.value as real)
    ensures a.Number? && 0.0 <= a.number && a.number == a.number.Floor as real ==> r.Some?
  {
    if a.Number? && 0.0 <= a.number && a.number == a.number.Floor as real
    then Some(a.number.Floor as nat)
    else None
  }

  /** `Household::create($attrs)` after mass assignment: the four required
      columns must be present with the right type and the status must be one
      of the four names; `user_id` is optional.  `None` is the insert failing. */
  function FromAttributes(attrs: Attributes): (r: Option<Household>)
    requires attrs.Keys <= Fillable
    ensures r.Some? <==>
              "name" in attrs && attrs["name"].Text? && "address" in attrs && attrs["address"].Text?
              && "lat" in attrs && attrs["lat"].Number? && "long" in attrs && attrs["long"].Number?
              && "status" in attrs && attrs["status"].Text? && ParseStatus(attrs["status"].text).Some?
              && ("user_id" in attrs ==> AsId(attrs["user_id"]).Some?)
    ensures r.Some? ==> attrs["name"] == Text(r.value.name) && attrs["address"] == Text(r.value.address)
    ensures r.Some? ==> attrs["lat"] == Number(r.value.lat) && attrs["long"] == Number(r.value.long)
    ensures r.Some? ==> "status" in attrs && attrs["status"] == Text(StatusName(r.value.status))
    ensures r.Some? ==> ("user_id" !in attrs <==> r.value.userId.None?)
    ensures r.Some? && r.value.userId.Some? ==> attrs["user_id"] == Number(r.value.userId.value as real)
  {
    if "name" in attrs && attrs["name"].Text?
       && "address" in attrs && attrs["address"].Text?
       && "lat" in attrs && attrs["lat"].Number?
       && "long" in attrs && attrs["long"].Number?
       && "status" in attrs && attrs["status"].Text?
       && ParseStatus(attrs["status"].text).Some?
       && ("user_id" in attrs ==> AsId(attrs["user_id"]).Some?)
    then
      Some(Household(
        attrs["name"].text, attrs["address"].text,
        attrs["lat"].number, attrs["long"].number,
        ParseStatus(attrs["status"].text).value,
        if "user_id" in attrs then Some(AsId(attrs["user_id"]).value) else None))
    else None
  }

  /** What approving a create request builds: the stored meta merged with
      `status => safe` (a later key wins, as in `array_merge`), mass-assigned. */
  function FromCreateMeta(meta: Attributes): Option<Household> {
    FromAttributes(Fill(meta + map["status" := Text("safe")]))
  }

  /** The meta written by a create request decodes back to the same fields,
      with status `safe` and no leader yet. */
  lemma CreateMetaRoundTrip(m: CreateMeta)
    ensures FromCreateMeta(EncodeMeta(m)) == Some(Household(m.name, m.address, m.lat, m.long, Safe, None))
  {
    var merged := EncodeMeta(m) + map["status" := Text("safe")];
    assert Fill(merged) == merged;
  }

  /** Keys outside the whitelist have no effect on the household built. */
  lemma ExtraKeysIgnored(attrs: Attributes, key: string, v: Attr)
    requires key !in Fillable
    ensures FromAttributes(Fill(attrs[key := v])) == FromAttributes(Fill(attrs))
  {
    assert Fill(attrs[key := v]) == Fill(attrs);
  }

  // ----- relations -----

  /** `leader()`: belongsTo on `user_id` — the user whose id is the
      household's `user_id`, if that user exists. */
  function LeaderOf(h: Household, users: map<UserId, User>): (r: Option<UserId>)
    ensures r.Some? <==> h.userId.Some? && h.userId.value in users
    ensures r.Some? ==> r == h.userId
  {
    match h.userId
    case Some(u) => if u in users then Some(u) else None
    case None => None
  }

  /** `members()`: hasMany on `household_id`. */
  function MembersOf(hid: HouseholdId, users: map<UserId, User>): (r: set<UserId>)
    ensures forall u :: u in r <==> u in users && users[u].householdId == Some(hid)
  {
    set u | u in users && users[u].householdId == Some(hid)
  }

  /** `requests()`: hasMany on `household_id`. */
  function RequestsOf(hid: HouseholdId, requests: map<RequestId, HouseholdRequest>): (r: set<RequestId>)
    ensures forall id :: id in r <==> id in requests && requests[id].householdId == Some(hid)
  {
    set id | id in requests && requests[id].householdId == Some(hid)
  }

  /** The two relations are independent: the leader is a member only when
      the leader's own `household_id` also points at this household. */
  lemma LeaderIsMemberIff(hid: HouseholdId, h: Household, users: map<UserId, User>)
    requires LeaderOf(h, users).Some?
    ensures LeaderOf(h, users).value in MembersOf(hid, users)
            <==> users[h.userId.value].householdId == Some(hid)
  {
  }
}
