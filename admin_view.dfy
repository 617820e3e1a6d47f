/** The admin's household page: the status cycle of the confirmation
    dialog, the rows dropped locally after a delete or a cycle, the in-place
    status edit of the row menu, and the initial tab. */
module AdminView {
  import opened Common
  import opened ClientRows
  import Households
  import HouseholdController

  /** `['safe', 'at_risk', 'need_rescue', 'evacuated']`. */
  const Statuses: seq<string> := ["safe", "at_risk", "need_rescue", "evacuated"]

  /** `Array.prototype.indexOf`: the first position holding `x`, or -1. */
  function IndexOf(xs: seq<string>, x: string): (i: int)
    ensures -1 <= i < |xs|
    ensures i == -1 <==> x !in xs
    ensures i >= 0 ==> xs[i] == x && forall j :: 0 <= j < i ==> xs[j] != x
  {
    if xs == [] then -1
    else if xs[0] == x then 0
    else var k := IndexOf(xs[1..], x); if k == -1 then -1 else k + 1
  }

  /** `statuses[(currentIndex + 1) % statuses.length]`.  The left operand
      is never negative, so JavaScript's `%` agrees with Dafny's. */
  function NextStatus(status: string): (r: string)
    ensures r in Statuses
    ensures status !in Statuses ==> r == "safe"
  {
    Statuses[(IndexOf(Statuses, status) + 1) % |Statuses|]
  }

  /** The cycle order. */
  lemma CycleOrder()
    ensures NextStatus("safe") == "at_risk" && NextStatus("at_risk") == "need_rescue"
    ensures NextStatus("need_rescue") == "evacuated" && NextStatus("evacuated") == "safe"
  {
    assert IndexOf(Statuses, "safe") == 0;
    assert IndexOf(Statuses, "at_risk") == 1;
    assert IndexOf(Statuses, "need_rescue") == 2;
    assert IndexOf(Statuses, "evacuated") == 3;
  }

  /** Four steps bring every listed status back to itself. */
  lemma FourStepsReturn(status: string)
    requires status in Statuses
    ensures NextStatus(NextStatus(NextStatus(NextStatus(status)))) == status
  {
    CycleOrder();
  }

  /** Every status the cycle produces is one the household `update` rules
      accept, whatever the row showed before. */
  lemma CyclePayloadAccepted(h: Households.Household, shown: string)
    ensures HouseholdController.ApplyUpdate(h, HouseholdController.UpdateInput(
              Absent, Absent, Absent, Absent, Given(NextStatus(shown)), Absent)).Some?
  {
    CycleOrder();
  }

  /** The page's local state: the listed rows (`households.data`) and the
      current tab. */
  class HouseholdList {
    var rows: seq<Row>
    var tab: string

    /** `useState(filters.status || 'safe')`. */
    constructor (rows: seq<Row>, filterStatus: Option<string>)
      ensures this.rows == rows && tab == Or(filterStatus, "safe")
    {
      this.rows := rows;
      tab := Or(filterStatus, "safe");
    }

    /** After a delete succeeds: exactly the rows with that id go. */
    method OnDeleted(id: nat)
      modifies this
      ensures rows == Without(old(rows), id) && tab == old(tab)
      ensures forall r :: r in rows <==> r in old(rows) && r.id != id
    {
      rows := Without(rows, id);
    }

    /** After a cycle succeeds: the row goes unless the tab is `all`, since
        on a status tab it no longer matches. */
    method OnCycled(id: nat)
      modifies this
      ensures tab == old(tab)
      ensures rows == if old(tab) != "all" then Without(old(rows), id) else old(rows)
    {
      if tab != "all" {
        rows := Without(rows, id);
      }
    }

    /** `household.status = newStatus` in the row menu: that row's status
        is overwritten in place; every other row is left alone. */
    method OnStatusChanged(i: nat, status: string)
      requires i < |rows|
      modifies this
      ensures |rows| == |old(rows)| && tab == old(tab)
      ensures rows[i] == old(rows)[i].(status := status)
      ensures forall j :: 0 <= j < |rows| && j != i ==> rows[j] == old(rows)[j]
    {
      rows := rows[i := rows[i].(status := status)];
    }
  }
}
