/** The hazards page: which actions a row offers, the resolve request, the
    rows dropped locally after success, the initial tab and the severity
    badge. */
module HazardsPage {
  import opened Common
  import opened ClientRows
  import Hazards
  import HazardController
  import UpdateHazardRequest

  /** "Mark as Resolved" is offered unless the row is already resolved. */
  predicate ResolveOffered(row: Row) {
    row.status != "resolved"
  }

  /** The body of the resolve request: `{ status: 'resolved' }`. */
  const ResolveStatus: Field<string> := Given("resolved")

  /** The resolve request passes the controller's rule and resolves the
      hazard, touching nothing else; it passes the update form request too. */
  lemma ResolveRequestAccepted(h: Hazards.Hazard)
    ensures HazardController.ApplyStatus(h, ResolveStatus) == Some(h.(status := Hazards.Resolved))
    ensures UpdateHazardRequest.Validate(UpdateHazardRequest.Form(Absent, Absent, Absent, ResolveStatus, Absent)).Some?
  {
  }

  /** The severity badge styles: one per level 1..5, a grey default. */
  datatype Badge = Green | Lime | Yellow | Orange | Red | Grey

  /** `levels[level] || default`. */
  function SeverityBadge(level: int): (b: Badge)
    ensures b == Grey <==> !(1 <= level <= 5)
  {
    match level
    case 1 => Green
    case 2 => Lime
    case 3 => Yellow
    case 4 => Orange
    case 5 => Red
    case _ => Grey
  }

  /** Distinct levels within 1..5 get distinct badges. */
  lemma SeverityBadgesDistinct(a: int, b: int)
    requires 1 <= a <= 5 && 1 <= b <= 5 && a != b
    ensures SeverityBadge(a) != SeverityBadge(b)
  {
  }

  /** The page's local state: the listed rows (`hazards.data`) and the
      current tab. */
  class HazardList {
    var rows: seq<Row>
    var tab: string

    /** `useState(filters.status || 'open')`. */
    constructor (rows: seq<Row>, filterStatus: Option<string>)
      ensures this.rows == rows && tab == Or(filterStatus, "open")
    {
      this.rows := rows;
      tab := Or(filterStatus, "open");
    }

    /** After a delete succeeds: exactly the rows with that id go. */
    method OnDeleted(id: nat)
      modifies this
      ensures rows == Without(old(rows), id) && tab == old(tab)
      ensures forall r :: r in rows <==> r in old(rows) && r.id != id
    {
      rows := Without(rows, id);
    }

    /** After a resolve succeeds: the row goes only on the `open` tab;
        elsewhere it stays, still showing its old status. */
    method OnResolved(id: nat)
      modifies this
      ensures tab == old(tab)
      ensures rows == if old(tab) == "open" then Without(old(rows), id) else old(rows)
    {
      if tab == "open" {
        rows := Without(rows, id);
      }
    }
  }
}
