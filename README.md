# Household and hazard lifecycle, modelled in Dafny

This project models the server-side core of a disaster-response web app. Households report a status: safe, at risk, need rescue or evacuated. Users join households as members or leaders. Requests to join or to create a household go through an admin. Hazards are pinned on a map, resolved and deleted, and every action writes a line to an activity log. A few client-side helpers of the React pages are modelled beside the server.

The relational store is `Db.Database`. It is a class holding one map per table (id to row), the auto-increment counters and the activity log object. Its invariant `Valid` says three things:
- ids are never reused;
- every stored household reference was handed out by the households table;
- the foreign keys of the two migrations hold.

Single-row writes (`InsertHousehold`, `UpdateUser`, …) are methods of the class that keep `Valid`. Each controller action is a method over the database that takes the authenticated user as `actor`. It says how it ends in an `Outcome`: done, warned, or failed with a validation error, 404, 403 or a server error. Its contract states the new contents of every table and of the log; `CountersAdvanced` pins the hazard types and the id counters.

Request payloads are records of `Field` values. A field is missing (`Absent`), null (`Null`) or present (`Given`), which is what Laravel's `required`, `sometimes` and `nullable` rules tell apart. An empty string stands for the null the framework turns it into.

The model follows the code as written, including where the code does less than one might expect:
- **Approve and deny ignore the current status.** Neither checks that the request is still pending. `ApproveRequest` and `DenyRequest` state their effect for a request in any status.
- **Join approval leaves roles alone.** "At most one leader per household" therefore holds only under a precondition (`JoinPreservesSingleLeader`). `JoinCanBreakSingleLeader` gives the two-user state where it fails.
- **Deleting a household demotes only its members.** These are the users whose `household_id` points at it. `DestroyKeepsOwnerWhoIsNotMember` shows that the leader named in `user_id` can keep `leader`.
- **Hazard `store` checks no coordinate range.** The controller's own rules accept any number: `HazardController.StoreAcceptsOutOfRangeLatitude`. The unused `StoreHazardRequest` form request does check the range: `StoreHazardRequest.RejectsOutOfRangeLatitude`.
- **Hazard `update` never consults the policy.** Any authenticated user may change any hazard's status (`HazardController.UpdateIgnoresPolicy`).
- **Hazard `destroy` checks no role either.** Only the web route is gated by `role:admin`; the API route admits any authenticated user, so `HazardController.Destroy` deletes for any actor, not only those `HazardPolicy.CanDelete` allows.

## Model

| member | source | states |
|---|---|---|
| HouseholdRequests.ParseRequestType | database/migrations/2025_11_08_065433_create_household_requests_table.php:18 | a type name is accepted iff it is `create` or `join`, and names the type it parses to |
| HouseholdRequests.ParseRequestStatus | database/migrations/2025_11_08_065433_create_household_requests_table.php:19 | a status name is accepted iff it is one of pending/approved/denied, and names the status it parses to |
| HouseholdRequests.NamesRoundTrip | database/migrations/2025_11_08_065433_create_household_requests_table.php:18-19 | parsing the name of any type or status gives it back |
| HouseholdRequests.Insert | database/migrations/2025_11_08_065433_create_household_requests_table.php:16-20 | an omitted status becomes `pending`; a nullable household id and meta are stored as given |
| HouseholdRequests.EncodeMeta | app/Http/Controllers/HouseholdController.php:157-169 | the stored meta holds exactly the keys name, address, lat and long |
| HouseholdRequests.AfterUserDeleted | database/migrations/2025_11_08_065433_create_household_requests_table.php:16 | deleting a user removes exactly that user's requests and keeps every other request unchanged |
| Households.ParseStatus | app/Http/Controllers/HouseholdController.php:85 | a status name is accepted iff it is one of the four names, and names the status it parses to |
| Households.StatusNameRoundTrip | app/Http/Controllers/HouseholdController.php:85 | parsing a status's name gives the status back |
| Households.Fill | app/Models/Household.php:12-19 | mass assignment keeps exactly the whitelisted keys of the input, with their values |
| Households.AsId | app/Http/Controllers/HouseholdController.php:86 | an attribute is read as an id iff it is a non-negative whole number, and the id is that number |
| Households.FromAttributes | app/Models/Household.php:12-19 | the build succeeds iff name and address are text, lat and long numbers, the status one of the four names and any `user_id` an id; the household then holds exactly those values, with a leader iff `user_id` was given |
| Households.CreateMetaRoundTrip | app/Http/Controllers/HouseholdController.php:183-184 | the meta written by a create request builds back a household with the same fields, status `safe` and no leader |
| Households.ExtraKeysIgnored | app/Models/Household.php:12-19 | a key outside the whitelist has no effect on the household built |
| Households.LeaderOf | app/Models/Household.php:26-29 | the leader exists iff `user_id` is set and names an existing user, and is that user |
| Households.MembersOf | app/Models/Household.php:31-34 | the members are exactly the users whose `household_id` is this household |
| Households.RequestsOf | app/Models/Household.php:36-39 | the requests are exactly those whose `household_id` is this household |
| Households.LeaderIsMemberIff | app/Models/Household.php:26-34 | the leader is a member iff the leader's own `household_id` points at the household |
| Hazards.ParseHazardStatus | database/migrations/2025_10_26_023845_create_hazards_table.php:23 | a hazard status name is accepted iff it is `open` or `resolved` |
| Hazards.Insert | database/migrations/2025_10_26_023845_create_hazards_table.php:18-24 | omitted severity becomes 3 and omitted status `open`; every given value, and the user, type, coordinates, title, description and media path, is stored as given |
| Hazards.AfterUserDeleted | database/migrations/2025_10_26_023845_create_hazards_table.php:16 | deleting a user removes exactly that user's hazards and keeps the rest unchanged |
| ActivityLogger.ActivityLog.Log | app/Services/ActivityLogger.php:10-18 | exactly one row is appended with the next id, the current user (or null) and the label verbatim; subject and meta are not stored; earlier rows are unchanged |
| Queries.Descending | app/Http/Controllers/HouseholdController.php:24 | `latest()`: the result holds exactly the given ids, each once, highest first |
| Queries.Lowest | app/Http/Controllers/HouseholdController.php:46 | `first()`: there is a result iff the set is non-empty, and it is the smallest member |
| Queries.Page | app/Http/Controllers/HouseholdController.php:26 | `paginate(10)`: the query's rows from position (page-1)·10 in order, 10 of them when enough remain, otherwise every remaining row, none past the end; a page below 1 is page 1 |
| Queries.FirstPageOfShortList | app/Http/Controllers/HouseholdController.php:26 | page 1 of at most 10 rows is all of them |
| Db.Database.InsertHousehold | app/Http/Controllers/HouseholdController.php:90 | one household is inserted under the next id; every other table is unchanged |
| Db.Database.UpdateHousehold | app/Http/Controllers/HouseholdController.php:112 | one household row is replaced; every other table is unchanged |
| Db.Database.DeleteHousehold | app/Http/Controllers/HouseholdController.php:126 | one household row is removed; every other table is unchanged |
| Db.Database.UpdateUser | app/Http/Controllers/HouseholdController.php:93-94 | one user row is replaced; every other table is unchanged |
| Db.Database.InsertRequest | app/Http/Controllers/HouseholdController.php:142-147 | one request is inserted under the next id; every other table is unchanged |
| Db.Database.UpdateRequest | app/Http/Controllers/HouseholdController.php:199 | one request row is replaced; every other table is unchanged |
| Db.Database.InsertHazard | app/Http/Controllers/HazardController.php:50 | one hazard is inserted under the next id; every other table is unchanged |
| Db.Database.UpdateHazard | app/Http/Controllers/HazardController.php:67 | one hazard row is replaced; every other table is unchanged |
| Db.Database.DeleteHazard | app/Http/Controllers/HazardController.php:76 | one hazard row is removed; every other table is unchanged |
| Db.Database.DeleteUser | database/migrations/2025_10_26_023845_create_hazards_table.php:16 | deleting a user cascades to exactly that user's requests and hazards; households are untouched |
| Db.Database.DeleteHazardType | database/migrations/2025_10_26_023845_create_hazards_table.php:17 | a hazard type is deleted iff no hazard refers to it; otherwise nothing changes |
| HouseholdController.DetachMembers | app/Http/Controllers/HouseholdController.php:122-125 | every user pointing at the household is detached, every other user is unchanged, and afterwards nobody points at it |
| HouseholdController.PromotePreservesSingleLeader | app/Http/Controllers/HouseholdController.php:92-94 | promoting a user into a household nobody points at keeps at most one leader per household |
| HouseholdController.DetachPreservesSingleLeader | app/Http/Controllers/HouseholdController.php:219-222 | detaching one user keeps at most one leader per household |
| HouseholdController.DetachMembersPreservesSingleLeader | app/Http/Controllers/HouseholdController.php:122-125 | detaching all members keeps at most one leader per household |
| HouseholdController.JoinPreservesSingleLeader | app/Http/Controllers/HouseholdController.php:179-181 | an approved join keeps at most one leader per household when the requester is not a leader or the target has no other leader |
| HouseholdController.JoinCanBreakSingleLeader | app/Http/Controllers/HouseholdController.php:179-181 | a leader whose join into another led household is approved becomes its second leader |
| HouseholdController.DestroyKeepsOwnerWhoIsNotMember | app/Http/Controllers/HouseholdController.php:122-125 | a household's leader whose `household_id` points elsewhere keeps `leader` when the household is deleted |
| HouseholdController.ValidateFields | app/Http/Controllers/HouseholdController.php:157-162 | accepted iff name is filled and at most 255 characters, address filled, lat in [-90,90] and long in [-180,180]; the result holds those four values |
| HouseholdController.ValidateStore | app/Http/Controllers/HouseholdController.php:80-89 | accepted iff the shared fields pass, the status is absent, null or one of the four names, and `user_id` names an existing user; a missing status becomes `safe` |
| HouseholdController.ApplyUpdate | app/Http/Controllers/HouseholdController.php:104-112 | refused iff a supplied field is null or breaks its rule; otherwise exactly the supplied fields change and `user_id` never does |
| HouseholdController.UpdateIdempotent | app/Http/Controllers/HouseholdController.php:104-112 | applying an accepted partial update twice equals applying it once |
| HouseholdController.StatusNameInjective | app/Http/Controllers/HouseholdController.php:85 | two statuses with the same name are the same status |
| HouseholdController.StatusFilter | app/Http/Controllers/HouseholdController.php:21 | definition: a missing parameter reads `all`, a null or empty one null |
| HouseholdController.PassesFilter | app/Http/Controllers/HouseholdController.php:25 | definition: `all` passes everything, a null filter nothing, any other only households with that status name |
| HouseholdController.Promoted | app/Http/Controllers/HouseholdController.php:93-94 | definition: the household reference set and roles exactly {leader} |
| HouseholdController.Detached | app/Http/Controllers/HouseholdController.php:219-222 | definition: the household reference cleared and a leader's roles exactly {member} |
| HouseholdController.Joined | app/Http/Controllers/HouseholdController.php:181 | definition: only the household reference moves |
| HouseholdController.OwnedBy | app/Http/Controllers/HouseholdController.php:46 | exactly the households whose `user_id` is the given user |
| HouseholdController.FilteredHouseholds | app/Http/Controllers/HouseholdController.php:21-25 | exactly the households passing the admin status filter |
| HouseholdController.PendingRequests | app/Http/Controllers/HouseholdController.php:31-33 | exactly the requests whose status is pending |
| HouseholdController.AdminIndex | app/Http/Controllers/HouseholdController.php:23-41 | the admin page is page `page`, newest first, of exactly the households passing the status filter and of exactly the pending requests, plus exactly the users holding `member` |
| HouseholdController.LeaderIndex | app/Http/Controllers/HouseholdController.php:45-56 | the leader's household exists iff one names the actor as `user_id`, and is the lowest such id; the join list is exactly the pending join requests for it, newest first |
| HouseholdController.MemberIndex | app/Http/Controllers/HouseholdController.php:60-72 | the member sees their own household iff their reference resolves, else every household to choose from |
| HouseholdController.Index | app/Http/Controllers/HouseholdController.php:17-76 | 403 iff the actor holds none of admin, leader, member; otherwise admin takes precedence over leader, leader over member |
| HouseholdController.Promote | app/Http/Controllers/HouseholdController.php:92-94 | the user's `household_id` becomes the new id and roles exactly {leader}; at most one leader per household is kept |
| HouseholdController.Store | app/Http/Controllers/HouseholdController.php:78-99 | done iff the input validates; then one household is added under the next id, the named user is promoted into it, requests and hazards are unchanged and `Household created` is logged; otherwise nothing changes; hazard types are kept and only the inserted tables' id counters move |
| HouseholdController.Update | app/Http/Controllers/HouseholdController.php:102-117 | 404 for a missing household; for an existing one, done iff the partial update is valid, else refused with nothing changed; on success only that household changes, `Household status updated` is logged, hazard types and id counters are kept |
| HouseholdController.Destroy | app/Http/Controllers/HouseholdController.php:120-131 | every member is detached (leaders demoted to exactly {member}), the household is removed, requests pointing at it are kept, `Household deleted` is logged, and at most one leader per household is kept; hazard types are kept and only the inserted tables' id counters move |
| HouseholdController.RequestJoin | app/Http/Controllers/HouseholdController.php:137-152 | done iff the household exists; then exactly one pending join request by the actor is added and logged; hazard types are kept and only the inserted tables' id counters move |
| HouseholdController.RequestCreate | app/Http/Controllers/HouseholdController.php:154-175 | done iff the fields validate; then exactly one pending create request with no household and the validated fields as meta is added and logged; hazard types are kept and only the inserted tables' id counters move |
| HouseholdController.ApproveRequest | app/Http/Controllers/HouseholdController.php:177-195 | 404 for a missing request; a join is always approved; a create is approved iff its meta builds a household, else a server error with nothing changed; the request's prior status is never checked; hazard types are kept and only the inserted tables' id counters move |
| HouseholdController.ApproveJoin | app/Http/Controllers/HouseholdController.php:179-181 | the request becomes approved, the requester's `household_id` becomes the request's, roles are untouched, and `Approved request` is logged; hazard types are kept and only the inserted tables' id counters move |
| HouseholdController.ApproveCreate | app/Http/Controllers/HouseholdController.php:182-189 | for the household the request's meta builds: it is added under the next id with the requester as `user_id`, the requester is promoted into it, the request becomes approved with the new id, and only the households counter moves |
| HouseholdController.DenyRequest | app/Http/Controllers/HouseholdController.php:197-204 | 404 for a missing request; otherwise only its status becomes denied, whatever it was, and `Denied request` is logged; hazard types are kept and only the inserted tables' id counters move |
| HouseholdController.RemoveMember | app/Http/Controllers/HouseholdController.php:206-227 | 404 for a missing target; 403 iff the actor is not a leader or has a different `household_id`; a warning and no change for oneself; otherwise always done: the target is detached and demoted if a leader, `Member removed` is logged, hazard types and id counters are kept |
| HouseholdController.ChangeStatus | app/Http/Controllers/HouseholdController.php:229-246 | 403 unless the actor's `household_id` is the household; done iff the status is one of the four names; only that status changes; hazard types are kept and only the inserted tables' id counters move |
| HazardController.Matching | app/Http/Controllers/HazardController.php:21-25 | a hazard matches iff the filter does not apply or its status has the filter's name |
| HazardController.StatusParam | app/Http/Controllers/HazardController.php:19 | definition: a missing parameter reads `open`, a null or empty one null |
| HazardController.FilterApplies | app/Http/Controllers/HazardController.php:23 | definition: the filter applies to a PHP-truthy value other than `all` |
| HazardController.Index | app/Http/Controllers/HazardController.php:17-35 | at most 10 matching hazards, newest first, and the filter echoed as `$status ?? 'open'` |
| HazardController.DefaultListsOpenOnly | app/Http/Controllers/HazardController.php:19-25 | without a status parameter exactly the open hazards match |
| HazardController.UnfilteredListsEverything | app/Http/Controllers/HazardController.php:23 | `all`, null, an empty value and `0` match every hazard |
| HazardController.ValidateStore | app/Http/Controllers/HazardController.php:39-50 | accepted iff description is filled and at most 255 characters, both coordinates numeric, severity in 1..5 and the type exists; the row has the actor as reporter and status open |
| HazardController.StoreIgnoresClientOwnership | app/Http/Controllers/HazardController.php:47-48 | whatever status, user id and title the payload carries, the stored row (or the refusal) is the same |
| HazardController.StoreAcceptsOutOfRangeLatitude | app/Http/Controllers/HazardController.php:41-42 | a latitude of 100 is accepted |
| HazardController.Notified | app/Http/Controllers/HazardController.php:53-54 | exactly the users with a non-null email are notified |
| HazardController.Store | app/Http/Controllers/HazardController.php:37-59 | done iff the input validates; then one hazard is added under the next id, every user with an email is notified and `Hazard pinned` is logged; otherwise nothing changes; hazard types are kept and only the inserted tables' id counters move |
| HazardController.ApplyStatus | app/Http/Controllers/HazardController.php:63-67 | accepted iff the status is `open` or `resolved`; only the status changes |
| HazardController.ReopenAllowed | app/Http/Controllers/HazardController.php:63-67 | a resolved hazard can be set back to open |
| HazardController.UpdateIgnoresPolicy | app/Http/Controllers/HazardController.php:61-67 | a user whom the policy refuses still passes the status rule |
| HazardController.Update | app/Http/Controllers/HazardController.php:61-72 | 404 for a missing hazard; done iff the status is valid; only that hazard's status changes and `Hazard status updated` is logged; hazard types are kept and only the inserted tables' id counters move |
| HazardController.Destroy | app/Http/Controllers/HazardController.php:74-81 | for any authenticated actor: 404 for a missing hazard, otherwise exactly that hazard is removed and `Hazard deleted` is logged; hazard types are kept and only the inserted tables' id counters move |
| HazardPolicy.DeleteImpliesUpdate | app/Policies/HazardPolicy.php:10-18 | whoever may delete a hazard may update it |
| HazardPolicy.ReporterMayUpdateButNotDelete | app/Policies/HazardPolicy.php:12-17 | a reporter without admin may update but not delete their hazard |
| HazardPolicy.DeleteIgnoresHazard | app/Policies/HazardPolicy.php:15-18 | whether a user may delete does not depend on the hazard |
| HazardPolicy.CanUpdate | app/Policies/HazardPolicy.php:10-13 | definition: the reporter or any holder of `admin` may update |
| HazardPolicy.CanDelete | app/Policies/HazardPolicy.php:15-18 | definition: exactly the holders of `admin` may delete |
| HazardPolicy.CanViewAny | app/Policies/HazardPolicy.php:20-23 | definition: any authenticated user may list hazards |
| HazardPolicy.CanCreate | app/Policies/HazardPolicy.php:25-28 | definition: any authenticated user may report a hazard |
| StoreHazardRequest.NullableText | app/Http/Requests/StoreHazardRequest.php:17-18 | a nullable text field passes iff it is missing, null or within the limit, and is null when missing or empty |
| StoreHazardRequest.Validate | app/Http/Requests/StoreHazardRequest.php:14-25 | accepted iff title ≤ 120, description ≤ 2000, the type exists, coordinates in range, severity an integer in 1..5 and the media acceptable; the report then holds exactly the submitted type, coordinates, severity and media, and the title and description or null when missing or empty |
| StoreHazardRequest.RejectsOutOfRangeLatitude | app/Http/Requests/StoreHazardRequest.php:20 | a latitude of 100 is refused |
| StoreHazardRequest.MinimalFormAccepted | app/Http/Requests/StoreHazardRequest.php:17-22 | a form with neither title nor description is accepted |
| StoreHazardRequest.Authorize | app/Http/Requests/StoreHazardRequest.php:9-12 | definition: authorized iff a user is signed in |
| UpdateHazardRequest.Validate | app/Http/Requests/UpdateHazardRequest.php:14-23 | accepted iff each present field passes its rule (title non-null ≤ 120, description null or ≤ 2000, severity in 1..5, status open/resolved); a column changes iff its field was sent, and to the sent value (a null or empty description clears it) |
| UpdateHazardRequest.EmptyFormChangesNothing | app/Http/Requests/UpdateHazardRequest.php:17-20 | an empty form validates and changes nothing |
| UpdateHazardRequest.StatusOnlyForm | app/Http/Requests/UpdateHazardRequest.php:20 | a status-only form validates iff the status is open or resolved |
| UpdateHazardRequest.Authorize | app/Http/Requests/UpdateHazardRequest.php:9-12 | definition: authorized iff a user is signed in |
| ActivityLogController.NewestFirst | app/Http/Controllers/ActivityLogController.php:13 | the log reversed: the same rows, latest first |
| ActivityLogController.WithAction | app/Http/Controllers/ActivityLogController.php:15-17 | exactly the rows whose action equals the filter |
| ActivityLogController.WithActionKeepsOrder | app/Http/Controllers/ActivityLogController.php:13-17 | filtering a newest-first list keeps it newest first |
| ActivityLogController.Filled | app/Http/Controllers/ActivityLogController.php:15 | definition: the parameter is present and not blank after PHP's trim |
| ActivityLogController.Index | app/Http/Controllers/ActivityLogController.php:11-24 | at most 10 log rows, ids descending; with a filled action exactly page `page` of the rows with that action, newest first; without, page `page` of the whole log newest first |
| ActivityLogController.FirstRowIsLatest | app/Http/Controllers/ActivityLogController.php:13 | page 1 of an unfiltered non-empty log starts with the last row written |
| DashboardController.WithStatus | app/Http/Controllers/DashboardController.php:17-20 | exactly the households with the given status |
| DashboardController.CountWithStatus | app/Http/Controllers/DashboardController.php:17-20 | a status count never exceeds the number of households |
| DashboardController.Index | app/Http/Controllers/DashboardController.php:13-36 | `total` is the number of households, each status count counts exactly that status, and the hazard list holds every hazard |
| DashboardController.CountAfterRemoval | app/Http/Controllers/DashboardController.php:17-20 | removing one household lowers only its own status's count, by one |
| DashboardController.CountsSumToTotal | app/Http/Controllers/DashboardController.php:16-20 | the four status counts add up to the total |
| DashboardController.DashboardAddsUp | app/Http/Controllers/DashboardController.php:27-33 | the page's four counts add up to its `total` |
| UseAuth.Includes | resources/js/hooks/useAuth.jsx:7 | `includes` holds iff the name is in the list |
| UseAuth.HasRole | resources/js/hooks/useAuth.jsx:6-8 | holds iff there is a user and their role list contains the role |
| UseAuth.HasAnyRole | resources/js/hooks/useAuth.jsx:10-12 | holds iff some listed role is held |
| UseAuth.HasAllRoles | resources/js/hooks/useAuth.jsx:14-16 | holds iff every listed role is held |
| UseAuth.SignedOutHasNoRole | resources/js/hooks/useAuth.jsx:7-20 | with no user, isAdmin/isLeader/isMember and hasAnyRole are false, and hasAllRoles holds only for the empty list |
| UseAuth.AllImpliesAny | resources/js/hooks/useAuth.jsx:10-16 | for a non-empty list, holding all roles implies holding some |
| UseAuth.EmptyRoleList | resources/js/hooks/useAuth.jsx:10-16 | for the empty list, hasAnyRole is false and hasAllRoles true |
| UseAuth.IsAdmin | resources/js/hooks/useAuth.jsx:18 | definition: `hasRole('admin')`; false when signed out (`SignedOutHasNoRole`) |
| UseAuth.IsLeader | resources/js/hooks/useAuth.jsx:19 | definition: `hasRole('leader')`; false when signed out (`SignedOutHasNoRole`) |
| UseAuth.IsMember | resources/js/hooks/useAuth.jsx:20 | definition: `hasRole('member')`; false when signed out (`SignedOutHasNoRole`) |
| ClientRows.Without | resources/js/pages/Households/Views/AdminView.jsx:43 | exactly the rows with another id remain |
| ClientRows.WithoutAppend | resources/js/pages/Hazards.jsx:26 | filtering distributes over concatenation, so kept rows stay in order |
| ClientRows.WithoutAbsent | resources/js/pages/Hazards.jsx:26 | a list without that id is unchanged |
| ClientRows.WithoutIdempotent | resources/js/pages/Hazards.jsx:26 | dropping the same id twice equals dropping it once |
| ClientRows.Or | resources/js/pages/Hazards.jsx:6 | `value \|\| fallback` yields the fallback iff the value is missing, empty or the fallback itself |
| ClientRows.Nullish | resources/js/pages/Households/Views/MemberView.jsx:6 | `value ?? fallback` yields the value when present, else the fallback |
| ClientRows.OrDiffersFromNullishOnEmpty | resources/js/pages/Households/Views/MemberView.jsx:6 | the two defaults differ exactly on the empty string |
| AdminView.IndexOf | resources/js/pages/Households/Views/AdminView.jsx:49 | -1 iff the status is not listed, else its first position |
| AdminView.NextStatus | resources/js/pages/Households/Views/AdminView.jsx:48-50 | the next status is always one of the four, and `safe` for an unlisted status |
| AdminView.CycleOrder | resources/js/pages/Households/Views/AdminView.jsx:48-50 | safe → at_risk → need_rescue → evacuated → safe |
| AdminView.FourStepsReturn | resources/js/pages/Households/Views/AdminView.jsx:48-50 | four steps return every listed status to itself |
| AdminView.CyclePayloadAccepted | resources/js/pages/Households/Views/AdminView.jsx:50-52 | the status the cycle sends always passes the household `update` rules |
| AdminView.HouseholdList.constructor | resources/js/pages/Households/Views/AdminView.jsx:6 | the initial tab is `filters.status`, or `safe` when it is missing or empty |
| AdminView.HouseholdList.OnDeleted | resources/js/pages/Households/Views/AdminView.jsx:42-44 | exactly the rows with the deleted id are dropped |
| AdminView.HouseholdList.OnCycled | resources/js/pages/Households/Views/AdminView.jsx:54-57 | the cycled row is dropped unless the tab is `all` |
| AdminView.HouseholdList.OnStatusChanged | resources/js/pages/Households/Views/AdminView.jsx:155-158 | that row's status is overwritten in place and every other row is unchanged |
| MemberView.Lower | resources/js/pages/Households/Views/MemberView.jsx:11 | `toLowerCase` maps each character on its own |
| MemberView.Filtered | resources/js/pages/Households/Views/MemberView.jsx:10-12 | exactly the households whose lower-cased name contains the lower-cased search; order is kept (`FilteredAppend`) |
| MemberView.EmptySearchKeepsAll | resources/js/pages/Households/Views/MemberView.jsx:10-12 | an empty search keeps every household, in order |
| MemberView.SearchIgnoresCase | resources/js/pages/Households/Views/MemberView.jsx:11 | two searches that lower-case alike keep exactly the same households, for every list |
| MemberView.FilteredAppend | resources/js/pages/Households/Views/MemberView.jsx:10-12 | filtering a concatenation is the concatenation of the filtered parts, so the original order is kept |
| MemberView.LowerIdempotent | resources/js/pages/Households/Views/MemberView.jsx:11 | lower-casing twice equals lower-casing once |
| MemberView.SearchByLowered | resources/js/pages/Households/Views/MemberView.jsx:10-12 | searching with the lower-cased text keeps the same households as the text itself |
| MemberView.AnyRequest | resources/js/pages/Households/Views/MemberView.jsx:25 | `some` holds iff some request satisfies the test |
| MemberView.HasPendingJoinFor | resources/js/pages/Households/Views/MemberView.jsx:24-27 | definition, as written: some request is a pending join whose `household_id` is strictly equal to the argument |
| MemberView.InitialStatus | resources/js/pages/Households/Views/MemberView.jsx:6 | definition: the household's status, or `safe` when there is none |
| MemberView.PendingHintNeverShown | resources/js/pages/Households/Views/MemberView.jsx:24-27 | asked about the selected value, a string, the pending hint is false for every request list the server sends |
| MemberView.Decimal | resources/js/pages/Households/Views/MemberView.jsx:185 | `String(n)` is a non-empty string of digits |
| MemberView.PendingJoinShownForSelected | resources/js/pages/Households/Views/MemberView.jsx:24-27 | with the comparison made on the id's decimal form, a pending join for the selected household shows the hint |
| MemberView.CreateFormHidden | resources/js/pages/Households/Views/MemberView.jsx:197 | the create form is hidden iff some request is a pending create |
| MemberView.JoinSubmission | resources/js/pages/Households/Views/MemberView.jsx:153-157 | nothing is sent iff no household is selected; otherwise the selected value |
| MemberView.CreateFormAlwaysRejected | resources/js/pages/Households/Views/MemberView.jsx:202-209 | the create form's payload lacks the coordinates and is always refused |
| MemberView.CreateFormWithCoordinatesAccepted | app/Http/Controllers/HouseholdController.php:157-162 | a filled-in payload with coordinates in range is accepted with exactly its fields |
| HazardsPage.ResolveRequestAccepted | resources/js/pages/Hazards.jsx:30 | the resolve request sets exactly the status to resolved and passes the update form rules |
| HazardsPage.SeverityBadge | resources/js/pages/Hazards.jsx:59-69 | the default badge is used iff the level is outside 1..5 |
| HazardsPage.SeverityBadgesDistinct | resources/js/pages/Hazards.jsx:60-66 | levels 1..5 each get a different badge |
| HazardsPage.ResolveOffered | resources/js/pages/Hazards.jsx:106 | definition: the resolve action is offered iff the row is not yet resolved |
| HazardsPage.HazardList.constructor | resources/js/pages/Hazards.jsx:6 | the initial tab is `filters.status`, or `open` when it is missing or empty |
| HazardsPage.HazardList.OnDeleted | resources/js/pages/Hazards.jsx:24-27 | exactly the rows with the deleted id are dropped |
| HazardsPage.HazardList.OnResolved | resources/js/pages/Hazards.jsx:32-37 | the resolved row is dropped only when the tab is `open` |

## Left out

- Input strings are taken after the framework's trimming and empty-to-null middleware. A non-numeric value for a numeric field is represented as `Null`. No numeric field is nullable, so both are refused alike.
- Laravel's `in:1,2,3,4,5` and `integer` rules compare string forms. Severity is modelled as an integer, so inputs such as `"3.0"` are not represented.
- Coordinates are exact `real`s. The `decimal:8` casts and the `decimal(10,7)` columns round them, and that rounding is not modelled.
- Orderings by name (`orderBy('name')` for users and available households) are not modelled. The admin's member list and the member's household list are sets. Eager-loaded relations and `withCount('members')` are not part of the page records.
- `latest()` orders by creation time. The model orders by id, which grows with creation order. Paginator links, totals and `appends` are not modelled.
- Notifications are modelled only as the set of users addressed. Mail delivery and formatting are not modelled.
- `Db.Database.DeleteUser` and `Db.Database.DeleteHazardType` model the foreign keys. No controller in the core deletes users or hazard types.
- Routing:
  - The household routes are not registered (`routes/web.php:10`), so household actions carry no role gate.
  - The `role:admin` gate on the activity log (`routes/web.php:40-43`) is a precondition of `ActivityLogController.Index`.
  - Hazard deletion is admin-only on the web route (`routes/web.php:33-35`), but `routes/api.php:11` reaches the same action under plain `auth`, and the action checks no role, so `HazardController.Destroy` admits any authenticated actor.
  - `/dashboard` renders the page without this controller, so `DashboardController.Index` is modelled on its own.
- Client-side dead code:
  - The admin page never calls `confirmAction('change-status', …)`, so the cycle branch cannot run.
  - The row menu's `handleStatusChange` is never wired to a control.
  - The server never passes `pendingRequests` to the member page, so both pending hints work on an empty list.
  - All of this is modelled as written.
- `AdminView.HouseholdList.OnStatusChanged` updates the row by position. Other references to the same row object (aliasing) are not modelled.
- Form and modal UI state, the map pages, the auth pages and layouts are not part of the core.
- Concurrency between requests is not modelled; every action runs alone.
- `Queries.Lowest`: `first()` without `orderBy` has no row order guaranteed by SQL; the model picks the lowest id, the order a table scan usually returns.
- `toLowerCase` is modelled on ASCII letters only.

## Findings

| source | as written | input that shows it | evidently intended | confidence | as-written member | corrected member |
|---|---|---|---|---|---|---|
| resources/js/pages/Households/Views/MemberView.jsx:24-27 | `r.household_id === householdId` compares the JSON number id with the `<select>` value, a string, so it is never true | a pending join request with `household_id` 7 while the option "7" is selected | show "Pending Approval..." for a household with a pending join | high (not executed) | MemberView.PendingHintNeverShown | MemberView.PendingJoinShownForSelected |
| resources/js/pages/Households/Views/MemberView.jsx:202-209 | the create form posts only name and address, but `requestCreate` requires `lat` and `long` | any name and address, e.g. "Home", "1 Main St" | the form also sends the coordinates, so a filled-in form is accepted | medium (not executed) | MemberView.CreateFormAlwaysRejected | MemberView.CreateFormWithCoordinatesAccepted |
