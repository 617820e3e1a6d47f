/** What the pages keep of a listed row, the `filter` they use to drop rows
    locally after a successful request, and JavaScript's two defaulting
    operators on an optional string prop. */
module ClientRows {
  import opened Common

  /** A listed household or hazard: its id and its status name. */
  datatype Row = Row(id: nat, status: string)

  /** `rows.filter(r => r.id !== id)`. */
  function Without(rows: seq<Row>, id: nat): (r: seq<Row>)
    ensures forall x :: x in r <==> x in rows && x.id != id
    ensures |r| <= |rows|
  {
    if rows == [] then []
    else (if rows[0].id != id then [rows[0]] else []) + Without(rows[1..], id)
  }

  /** Filtering distributes over concatenation, so the kept rows stay in
      their original order. */
  lemma {:induction false} WithoutAppend(a: seq<Row>, b: seq<Row>, id: nat)
    ensures Without(a + b, id) == Without(a, id) + Without(b, id)
  {
    if a == [] {
      assert a + b == b;
    } else {
      assert (a + b)[0] == a[0];
      assert (a + b)[1..] == a[1..] + b;
      WithoutAppend(a[1..], b, id);
    }
  }

  /** A list without that id is left as it is. */
  lemma {:induction false} WithoutAbsent(rows: seq<Row>, id: nat)
    requires forall i :: 0 <= i < |rows| ==> rows[i].id != id
    ensures Without(rows, id) == rows
  {
    if rows != [] {
      WithoutAbsent(rows[1..], id);
    }
  }

  /** Dropping the same id twice changes nothing more. */
  lemma WithoutIdempotent(rows: seq<Row>, id: nat)
    ensures Without(Without(rows, id), id) == Without(rows, id)
  {
    var once := Without(rows, id);
    forall i | 0 <= i < |once|
      ensures once[i].id != id
    {
      assert once[i] in once;
    }
    WithoutAbsent(once, id);
  }

  /** `value || fallback` on a string prop: null, undefined and "" are
      falsy. */
  function Or(value: Option<string>, fallback: string): (r: string)
    ensures r == fallback <==> value.None? || value.value == "" || value.value == fallback
    ensures r != fallback ==> value == Some(r)
  {
    if value.Some? && value.value != "" then value.value else fallback
  }

  /** `value ?? fallback`: only null and undefined fall back. */
  function Nullish(value: Option<string>, fallback: string): (r: string)
    ensures value.Some? ==> r == value.value
    ensures value.None? ==> r == fallback
  {
    match value
    case Some(v) => v
    case None => fallback
  }

  /** The two operators differ on the empty string only. */
  lemma OrDiffersFromNullishOnEmpty(value: Option<string>, fallback: string)
    requires fallback != ""
    ensures Or(value, fallback) != Nullish(value, fallback) <==> value == Some("")
  {
  }
}
