/** The dashboard figures: how many households there are, per status, and
    the full hazard list. */
module DashboardController {
  import opened Common
  import opened Households
  import opened Db

  datatype Stats = Stats(total: nat, safe: nat, atRisk: nat, needRescue: nat, evacuated: nat)

  datatype Dashboard = Dashboard(stats: Stats, hazards: set<HazardId>)

  /** The households `where('status', s)` matches. */
  function WithStatus(households: map<HouseholdId, Household>, s: HouseholdStatus): (r: set<HouseholdId>)
    ensures forall h :: h in r <==> h in households && households[h].status == s
  {
    set h | h in households && households[h].status == s
  }

  /** `Household::where('status', s)->count()`. */
  function CountWithStatus(households: map<HouseholdId, Household>, s: HouseholdStatus): (n: nat)
    ensures n <= |households|
  {
    SubsetCardinality(WithStatus(households, s), households.Keys);
    |WithStatus(households, s)|
  }

  lemma SubsetCardinality<T>(a: set<T>, b: set<T>)
    requires a <= b
    ensures |a| <= |b|
  {
    if a != {} {
      var x :| x in a;
      SubsetCardinality(a - {x}, b - {x});
    }
  }

  /** `index`: reads only. */
  function Index(db: Database): (r: Dashboard)
    reads db
    ensures r.stats.total == |db.households|
    ensures r.stats.safe == CountWithStatus(db.households, Safe)
    ensures r.stats.atRisk == CountWithStatus(db.households, AtRisk)
    ensures r.stats.needRescue == CountWithStatus(db.households, NeedRescue)
    ensures r.stats.evacuated == CountWithStatus(db.households, Evacuated)
    ensures forall id :: id in r.hazards <==> id in db.hazards
  {
    Dashboard(
      Stats(|db.households|,
        CountWithStatus(db.households, Safe), CountWithStatus(db.households, AtRisk),
        CountWithStatus(db.households, NeedRescue), CountWithStatus(db.households, Evacuated)),
      db.hazards.Keys)
  }

  /** Removing one household lowers exactly its own status's count. */
  lemma CountAfterRemoval(households: map<HouseholdId, Household>, k: HouseholdId, s: HouseholdStatus)
    requires k in households
    ensures CountWithStatus(households, s)
            == CountWithStatus(households - {k}, s) + (if households[k].status == s then 1 else 0)
  {
    var rest := households - {k};
    var all := WithStatus(households, s);
    var fewer := WithStatus(rest, s);
    if households[k].status == s {
      assert all == fewer + {k} && k !in fewer;
    } else {
      assert all == fewer;
    }
  }

  /** Every status is one of the four, so the four counts add up to the
      total. */
  lemma {:induction false} CountsSumToTotal(households: map<HouseholdId, Household>)
    ensures CountWithStatus(households, Safe) + CountWithStatus(households, AtRisk)
            + CountWithStatus(households, NeedRescue) + CountWithStatus(households, Evacuated)
            == |households|
  {
    if households != map[] {
      var k :| k in households;
      var rest := households - {k};
      CountsSumToTotal(rest);
      CountAfterRemoval(households, k, Safe);
      CountAfterRemoval(households, k, AtRisk);
      CountAfterRemoval(households, k, NeedRescue);
      CountAfterRemoval(households, k, Evacuated);
      assert households.Keys == rest.Keys + {k};
    }
  }

  lemma DashboardAddsUp(db: Database)
    ensures var s := Index(db).stats; s.safe + s.atRisk + s.needRescue + s.evacuated == s.total
  {
    CountsSumToTotal(db.households);
  }
}
