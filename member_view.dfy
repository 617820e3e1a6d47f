/** The member's household page: the household search, the pending-request
    hints, the join and create forms, and the initial status choice. */
module MemberView {
  import opened Common
  import opened ClientRows
  import HouseholdController
  import HouseholdRequests

  // ----- search -----

  /** `toLowerCase` on the ASCII letters; other characters are unchanged. */
  function LowerChar(c: char): char {
    if 'A' <= c <= 'Z' then (c as int + 32) as char else c
  }

  function Lower(s: string): (r: string)
    ensures |r| == |s|
    ensures forall i :: 0 <= i < |s| ==> r[i] == LowerChar(s[i])
  {
    if s == [] then [] else [LowerChar(s[0])] + Lower(s[1..])
  }

  /** `t` occurs in `s` starting at position `i`. */
  predicate OccursAt(s: string, t: string, i: int) {
    0 <= i <= |s| - |t| && s[i..i + |t|] == t
  }

  /** `String.prototype.includes`: `t` occurs in `s` at some position. */
  predicate Contains(s: string, t: string) {
    exists i :: 0 <= i <= |s| && OccursAt(s, t, i)
  }

  /** An entry of `availableHouseholds`. */
  datatype Available = Available(id: nat, name: string)

  predicate Matches(h: Available, search: string) {
    Contains(Lower(h.name), Lower(search))
  }

  /** `filtered`: the households whose lower-cased name contains the
      lower-cased search, in their original order. */
  function Filtered(households: seq<Available>, search: string): (r: seq<Available>)
    ensures forall h :: h in r <==> h in households && Matches(h, search)
    ensures |r| <= |households|
  {
    if households == [] then []
    else (if Matches(households[0], search) then [households[0]] else []) + Filtered(households[1..], search)
  }

  /** An empty search keeps every household. */
  lemma {:induction false} EmptySearchKeepsAll(households: seq<Available>)
    ensures Filtered(households, "") == households
  {
    if households != [] {
      assert Lower("") == "";
      assert OccursAt(Lower(households[0].name), Lower(""), 0);
      EmptySearchKeepsAll(households[1..]);
    }
  }

  /** The filter keeps the original order: filtering a concatenation is the
      concatenation of the filtered parts. */
  lemma {:induction false} FilteredAppend(a: seq<Available>, b: seq<Available>, search: string)
    ensures Filtered(a + b, search) == Filtered(a, search) + Filtered(b, search)
  {
    if a == [] {
      assert a + b == b;
    } else {
      assert (a + b)[0] == a[0];
      assert (a + b)[1..] == a[1..] + b;
      FilteredAppend(a[1..], b, search);
    }
  }

  /** Lower-casing twice is lower-casing once. */
  lemma LowerIdempotent(s: string)
    ensures Lower(Lower(s)) == Lower(s)
  {
    assert forall i :: 0 <= i < |s| ==> LowerChar(LowerChar(s[i])) == LowerChar(s[i]);
  }

  /** The search ignores ASCII case: two searches that lower-case alike keep
      the same households. */
  lemma {:induction false} SearchIgnoresCase(households: seq<Available>, s: string, t: string)
    requires Lower(s) == Lower(t)
    ensures Filtered(households, s) == Filtered(households, t)
  {
    if households != [] {
      SearchIgnoresCase(households[1..], s, t);
    }
  }

  /** In particular, searching with the lower-cased text is the same search. */
  lemma SearchByLowered(households: seq<Available>, s: string)
    ensures Filtered(households, Lower(s)) == Filtered(households, s)
  {
    LowerIdempotent(s);
    SearchIgnoresCase(households, Lower(s), s);
  }

  // ----- pending hints -----

  /** A JavaScript value as it arrives in page props or form state. */
  datatype JsValue = JsNumber(n: int) | JsString(s: string) | JsNull

  /** An entry of `pendingRequests`: `household_id` is a JSON number or
      null. */
  datatype PendingRequest = PendingRequest(kind: string, householdId: JsValue, status: string)

  /** `requests.some(p)`. */
  function AnyRequest(requests: seq<PendingRequest>, p: PendingRequest -> bool): (r: bool)
    ensures r <==> exists i :: 0 <= i < |requests| && p(requests[i])
  {
    if requests == [] then false else p(requests[0]) || AnyRequest(requests[1..], p)
  }

  /** `hasPendingJoinFor`, as written: `===` holds only between values of
      the same type. */
  function HasPendingJoinFor(requests: seq<PendingRequest>, householdId: JsValue): bool {
    AnyRequest(requests, (r: PendingRequest) => r.kind == "join" && r.householdId == householdId && r.status == "pending")
  }

  /** Every `household_id` the server sends is a number or null. */
  predicate FromServer(requests: seq<PendingRequest>) {
    forall i :: 0 <= i < |requests| ==> !requests[i].householdId.JsString?
  }

  /** The hint is asked about `selectedHousehold`, the `<select>`'s value,
      which is a string; so it is never shown, even for a household the
      member has a pending join request for. */
  lemma PendingHintNeverShown(requests: seq<PendingRequest>, selected: string)
    requires FromServer(requests)
    ensures !HasPendingJoinFor(requests, JsString(selected))
  {
  }

  /** The decimal digits of `n`, as `String(n)` writes them. */
  function Decimal(n: nat): (r: string)
    ensures |r| >= 1 && forall i :: 0 <= i < |r| ==> '0' <= r[i] <= '9'
  {
    if n < 10 then [('0' as int + n) as char] else Decimal(n / 10) + [('0' as int + n % 10) as char]
  }

  /** The comparison the hint evidently intends: the request's id written in
      decimal against the selected option's value. */
  function HasPendingJoinForSelected(requests: seq<PendingRequest>, selected: string): bool {
    AnyRequest(requests, (r: PendingRequest) => r.kind == "join" && r.householdId.JsNumber? && r.householdId.n >= 0
                               && Decimal(r.householdId.n) == selected && r.status == "pending")
  }

  /** With the corrected comparison, a pending join for household `n` shows
      the hint when `n` is selected. */
  lemma PendingJoinShownForSelected(requests: seq<PendingRequest>, n: nat)
    requires PendingRequest("join", JsNumber(n), "pending") in requests
    ensures HasPendingJoinForSelected(requests, Decimal(n))
  {
    var i :| 0 <= i < |requests| && requests[i] == PendingRequest("join", JsNumber(n), "pending");
  }

  /** The create form is replaced by a notice iff some request is a pending
      create. */
  function CreateFormHidden(requests: seq<PendingRequest>): (hidden: bool)
    ensures hidden <==> exists i :: 0 <= i < |requests| && requests[i].kind == "create" && requests[i].status == "pending"
  {
    AnyRequest(requests, (r: PendingRequest) => r.kind == "create" && r.status == "pending")
  }

  // ----- the forms -----

  /** The join form's submit: nothing is sent while no household is
      selected (the empty string is falsy); otherwise the selected value. */
  function JoinSubmission(selected: string): (payload: Option<string>)
    ensures payload.None? <==> selected == ""
    ensures payload.Some? ==> payload.value == selected
  {
    if selected == "" then None else Some(selected)
  }

  /** The create form, as written, posts only the name and the address. */
  function CreateFormInput(name: string, address: string): HouseholdController.CreateInput {
    HouseholdController.CreateInput(Given(name), Given(address), Absent, Absent)
  }

  /** The server requires `lat` and `long`, so that payload is always
      refused. */
  lemma CreateFormAlwaysRejected(name: string, address: string)
    ensures var input := CreateFormInput(name, address);
            HouseholdController.ValidateFields(input.name, input.address, input.lat, input.long).None?
  {
  }

  /** A create form that also sends the coordinates. */
  function CreateFormInputWithCoordinates(name: string, address: string, lat: real, long: real)
    : HouseholdController.CreateInput
  {
    HouseholdController.CreateInput(Given(name), Given(address), Given(lat), Given(long))
  }

  /** With the coordinates a filled-in form is accepted. */
  lemma CreateFormWithCoordinatesAccepted(name: string, address: string, lat: real, long: real)
    requires name != "" && |name| <= 255 && address != ""
    requires -90.0 <= lat <= 90.0 && -180.0 <= long <= 180.0
    ensures var input := CreateFormInputWithCoordinates(name, address, lat, long);
            HouseholdController.ValidateFields(input.name, input.address, input.lat, input.long)
            == Some(HouseholdRequests.CreateMeta(name, address, lat, long))
  {
  }

  /** `household?.status ?? "safe"`: the household's status, or `safe` when
      the member has no household. */
  function InitialStatus(householdStatus: Option<string>): string {
    Nullish(householdStatus, "safe")
  }
}
