/** The counts behind the stats endpoint. */
module Stats {
  import opened Matching
  import opened Tables

  /** One `count(*) FILTER (WHERE ...)` of the stats query. */
  datatype Column = CMatched | CUnmatchedGateway | CUnmatchedLedger | CTimeDrift | CDuplicates | CDrift

  predicate InColumn(r: Result, col: Column) {
    match col
    case CMatched => r.status == Matched
    case CUnmatchedGateway => r.status == UnmatchedGatewayOnly
    case CUnmatchedLedger => r.status == UnmatchedLedgerOnly
    case CTimeDrift => r.layer == ByTimeDrift
    case CDuplicates => r.status == Duplicate
    case CDrift => r.status in {AmountDrift, TimeDrift}
  }

  /** The tenant's results in the window that the column counts. */
  function Selected(db: Db, tenant: nat, cutoff: int, col: Column): set<nat> {
    set r | r in db.results && db.results[r].tenant == tenant && db.results[r].resolvedAt >= cutoff
            && InColumn(db.results[r], col)
  }

  function Count(db: Db, tenant: nat, cutoff: int, col: Column): nat { |Selected(db, tenant, cutoff, col)| }

  datatype StatsRow = StatsRow(
    matched: nat,
    unmatched: nat,
    unmatchedGateway: nat,
    unmatchedLedger: nat,
    viaTimeDrift: nat,
    duplicates: nat,
    drift: nat,
    openExceptions: nat)

  function OpenCases(db: Db, tenant: nat): set<nat> {
    set c | c in db.cases && db.cases[c].tenant == tenant && db.cases[c].closedAt.None?
  }

  function FetchStats(db: Db, tenant: nat, cutoff: int): StatsRow {
    StatsRow(
      Count(db, tenant, cutoff, CMatched),
      |Selected(db, tenant, cutoff, CUnmatchedGateway) + Selected(db, tenant, cutoff, CUnmatchedLedger)|,
      Count(db, tenant, cutoff, CUnmatchedGateway),
      Count(db, tenant, cutoff, CUnmatchedLedger),
      Count(db, tenant, cutoff, CTimeDrift),
      Count(db, tenant, cutoff, CDuplicates),
      Count(db, tenant, cutoff, CDrift),
      |OpenCases(db, tenant)|)
  }

  /** The window takes in all of the tenant's results. */
  ghost predicate AllRecent(db: Db, t: nat, cutoff: int) {
    forall r :: r in db.results && db.results[r].tenant == t ==> db.results[r].resolvedAt >= cutoff
  }

  /** The tenant's results that the column would count had they not been resolved before the
      window. */
  function Earlier(db: Db, tenant: nat, cutoff: int, col: Column): set<nat> {
    set r | r in db.results && db.results[r].tenant == tenant && db.results[r].resolvedAt < cutoff
            && InColumn(db.results[r], col)
  }

  /** The tables without the results resolved before the cutoff. */
  function Within(db: Db, cutoff: int): Db {
    db.(results := map r | r in db.results && db.results[r].resolvedAt >= cutoff :: db.results[r])
  }

  /** The figures of a window are the figures, over all time, of the results resolved in it. */
  lemma WindowIsFilter(db: Db, tenant: nat, cutoff: int, floor: int)
    requires AllRecent(Within(db, cutoff), tenant, floor)
    ensures FetchStats(db, tenant, cutoff) == FetchStats(Within(db, cutoff), tenant, floor)
  {
    forall col ensures Selected(db, tenant, cutoff, col) == Selected(Within(db, cutoff), tenant, floor, col) {}
    assert OpenCases(db, tenant) == OpenCases(Within(db, cutoff), tenant);
  }

  /** Each figure over all time is the window's figure and what came before. */
  lemma WindowSplits(db: Db, tenant: nat, cutoff: int, floor: int, col: Column)
    requires AllRecent(db, tenant, floor)
    ensures Count(db, tenant, floor, col) == Count(db, tenant, cutoff, col) + |Earlier(db, tenant, cutoff, col)|
  {
    var window, before := Selected(db, tenant, cutoff, col), Earlier(db, tenant, cutoff, col);
    assert Selected(db, tenant, floor, col) == window + before && window !! before;
  }

  /** Some cutoff takes in everything. */
  lemma FloorExists(db: Db, tenant: nat) returns (floor: int)
    ensures AllRecent(db, tenant, floor)
  {
    floor := 0;
    var todo := db.results.Keys;
    while todo != {}
      invariant todo <= db.results.Keys
      invariant forall r :: r in db.results && r !in todo ==> db.results[r].resolvedAt >= floor
    {
      var r :| r in todo;
      if db.results[r].resolvedAt < floor { floor := db.results[r].resolvedAt; }
      todo := todo - {r};
    }
  }

  /** `unmatched` is the sum of its two halves. */
  lemma UnmatchedSplits(db: Db, tenant: nat, cutoff: int)
    ensures var s := FetchStats(db, tenant, cutoff); s.unmatched == s.unmatchedGateway + s.unmatchedLedger
  {
    assert Selected(db, tenant, cutoff, CUnmatchedGateway) !! Selected(db, tenant, cutoff, CUnmatchedLedger);
  }
}
