/** The activity log table and the `ActivityLogger::log` service that appends
    to it. */
module ActivityLogger {
  import opened Common

  /** A log row: its auto-increment id, the acting user (null when nobody is
      authenticated) and the action label. */
  datatype LogEntry = LogEntry(id: nat, userId: Option<UserId>, action: string)

  /** The optional subject argument of `log`: a model class and its id. */
  datatype Subject = Subject(model: string, id: nat)

  /** The rows after one more call of `log` while `current` is
      authenticated. */
  function Appended(entries: seq<LogEntry>, current: Option<UserId>, action: string): seq<LogEntry> {
    entries + [LogEntry(|entries| + 1, current, action)]
  }

  /** The log table.  Rows are only ever appended. */
  class ActivityLog {
    var entries: seq<LogEntry>

    /** Ids are assigned 1, 2, 3, ... in insertion order. */
    ghost predicate Valid()
      reads this
    {
      forall i :: 0 <= i < |entries| ==> entries[i].id == i + 1
    }

    constructor ()
      ensures Valid() && entries == []
    {
      entries := [];
    }

    /** `log($action, $subject, $meta)` called while `current` is the
        authenticated user (or nobody).  Exactly one row is created, with the
        label verbatim; `subject` and `meta` are accepted and never stored, and
        every existing row is left as it was. */
    method Log(action: string, current: Option<UserId>, subject: Option<Subject>, meta: Attributes)
      returns (entry: LogEntry)
      requires Valid()
      modifies this
      ensures Valid()
      ensures entry == LogEntry(|old(entries)| + 1, current, action)
      ensures entries == Appended(old(entries), current, action)
    {
      entry := LogEntry(|entries| + 1, current, action);
      entries := entries + [entry];
    }
  }
}
