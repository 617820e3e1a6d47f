/** The admin activity-log page: the log newest first, optionally narrowed
    to one action label, ten rows per page. */
module ActivityLogController {
  import opened Common
  import opened ActivityLogger
  import opened Queries
  import opened Db

  /** The characters PHP's `trim` strips: space, tab, newline, carriage
      return, NUL and vertical tab. */
  predicate Blank(s: string) {
    forall i :: 0 <= i < |s| ==> s[i] as int in {32, 9, 10, 13, 0, 11}
  }

  /** `$request->filled('action')`: present and not blank once trimmed. */
  predicate Filled(action: Field<string>) {
    action.Given? && !Blank(action.value)
  }

  /** `latest()`: rows are appended in creation order, so newest first is
      the log reversed. */
  function NewestFirst(entries: seq<LogEntry>): (r: seq<LogEntry>)
    ensures |r| == |entries|
    ensures forall i :: 0 <= i < |r| ==> r[i] == entries[|entries| - 1 - i]
  {
    if entries == [] then [] else [entries[|entries| - 1]] + NewestFirst(entries[..|entries| - 1])
  }

  /** `where('action', $action)`: the rows whose label equals `action`
      exactly, in the order given. */
  function WithAction(entries: seq<LogEntry>, action: string): (r: seq<LogEntry>)
    ensures forall e :: e in r <==> e in entries && e.action == action
    ensures |r| <= |entries|
  {
    if entries == [] then []
    else (if entries[0].action == action then [entries[0]] else []) + WithAction(entries[1..], action)
  }

  /** Ids strictly decrease along the sequence. */
  predicate IdsDescending(entries: seq<LogEntry>) {
    forall i, j :: 0 <= i < j < |entries| ==> entries[i].id > entries[j].id
  }

  /** Narrowing a newest-first list keeps it newest first. */
  lemma {:induction false} WithActionKeepsOrder(entries: seq<LogEntry>, action: string)
    requires IdsDescending(entries)
    ensures IdsDescending(WithAction(entries, action))
  {
    if entries != [] {
      WithActionKeepsOrder(entries[1..], action);
      var rest := WithAction(entries[1..], action);
      forall e | e in rest
        ensures entries[0].id > e.id
      {
        var k :| 1 <= k < |entries| && entries[k] == e;
      }
    }
  }

  /** The query behind the page, before paging. */
  function Query(entries: seq<LogEntry>, action: Field<string>): seq<LogEntry> {
    if Filled(action) then WithAction(NewestFirst(entries), action.value) else NewestFirst(entries)
  }

  /** `index`; nothing is changed.  The result does not depend on `actor`,
      which is there only to state the `role:admin` route gate. */
  function Index(db: Database, actor: UserId, action: Field<string>, page: int): (r: seq<LogEntry>)
    reads db, db.log
    requires db.Valid() && actor in db.users && Admin in db.users[actor].roles
    ensures |r| <= PerPage
    ensures forall e :: e in r ==> e in db.log.entries
    ensures Filled(action) ==> forall e :: e in r ==> e.action == action.value
    ensures Filled(action) ==> r == Page(WithAction(NewestFirst(db.log.entries), action.value), page)
    ensures !Filled(action) ==> r == Page(NewestFirst(db.log.entries), page)
    ensures IdsDescending(r)
  {
    var all := NewestFirst(db.log.entries);
    assert IdsDescending(all);
    if Filled(action) then
      WithActionKeepsOrder(all, action.value);
      Page(Query(db.log.entries, action), page)
    else
      Page(Query(db.log.entries, action), page)
  }

  /** Page 1 of an unfiltered log starts with the latest row. */
  lemma FirstRowIsLatest(entries: seq<LogEntry>)
    requires entries != []
    ensures Page(Query(entries, Absent), 1)[0] == entries[|entries| - 1]
  {
  }
}
