/** The query-builder pieces the controllers share: `latest()` (newest
    first), `first()` and `paginate(10)`.  Rows get increasing auto-increment
    ids as they are created, so "newest first" is "highest id first". */
module Queries {
  import opened Common

  const PerPage: nat := 10

  /** The ids of `ids`, highest first; `below` bounds every id (the table's
      next auto-increment value). */
  function Descending(ids: set<nat>, below: nat): (r: seq<nat>)
    requires forall x :: x in ids ==> x < below
    ensures forall x :: x in r <==> x in ids
    ensures forall i :: 0 <= i < |r| ==> r[i] < below
    ensures forall i, j :: 0 <= i < j < |r| ==> r[i] > r[j]
    decreases below
  {
    if below == 0 then []
    else
      var rest := Descending(ids - {below - 1}, below - 1);
      if below - 1 in ids then [below - 1] + rest else rest
  }

  /** `first()` on a table scanned in id order: the lowest id, if any. */
  function Lowest(ids: set<nat>, from: nat, below: nat): (r: Option<nat>)
    requires forall x :: x in ids ==> from <= x < below
    ensures r.Some? <==> ids != {}
    ensures r.Some? ==> r.value in ids && forall x :: x in ids ==> r.value <= x
    decreases below - from
  {
    if from >= below then None
    else if from in ids then Some(from)
    else Lowest(ids, from + 1, below)
  }

  /** The page number the paginator uses: anything below 1 means page 1. */
  function PageNumber(page: int): nat {
    if page < 1 then 1 else page
  }

  /** `paginate(10)`: the rows of the requested page, in query order. */
  function Page<T>(xs: seq<T>, page: int): (r: seq<T>)
    ensures |r| <= PerPage
    ensures (PageNumber(page) - 1) * PerPage >= |xs| ==> r == []
    ensures (PageNumber(page) - 1) * PerPage + |r| <= |xs| || r == []
    ensures forall i :: 0 <= i < |r| ==> r[i] == xs[(PageNumber(page) - 1) * PerPage + i]
    ensures (PageNumber(page) - 1) * PerPage + PerPage <= |xs| ==> |r| == PerPage
    ensures (PageNumber(page) - 1) * PerPage < |xs| < (PageNumber(page) - 1) * PerPage + PerPage
            ==> |r| == |xs| - (PageNumber(page) - 1) * PerPage
    ensures forall x :: x in r ==> x in xs
  {
    var start := (PageNumber(page) - 1) * PerPage;
    if start >= |xs| then []
    else if start + PerPage <= |xs| then xs[start..start + PerPage]
    else xs[start..]
  }

  /** Page 1 of a short result is the whole result. */
  lemma FirstPageOfShortList<T>(xs: seq<T>)
    requires |xs| <= PerPage
    ensures Page(xs, 1) == xs
  {
  }
}
