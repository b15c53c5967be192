/** Schedule independence: at the end of any conforming run the stats endpoint reports the
    generator's ground truth. */
module Schedule {
  import opened Basics
  import opened Matching
  import opened Tables
  import opened Protocol
  import opened Safety
  import opened Submissions
  import opened Workload
  import opened Accuracy
  import opened Stats
  import opened Sweeping

  function Total(plan: seq<Planned>, cfg: Config, col: Column): nat {
    if plan == [] then 0 else Total(plan[..|plan| - 1], cfg, col) + Expected(plan[|plan| - 1], cfg, col)
  }

  /** The generator's tally adds up the matcher's verdicts on the plan. */
  lemma {:induction false} TruthIsTotal(plan: seq<Planned>, col: Column)
    ensures TallyColumn(Truth(plan), col) == Total(plan, DEFAULT_CONFIG, col)
  {
    if plan != [] {
      TruthIsTotal(plan[..|plan| - 1], col);
      RecordedFollowsMatcher(Truth(plan[..|plan| - 1]), plan[|plan| - 1], col);
    }
  }

  /** The tables of one tenant once its workload has run its course. */
  ghost predicate Finished(st: Settings, plan: seq<Planned>, t: nat, db: Db) {
    && (forall k :: 0 <= k < |plan| ==> SideStored(plan, t, db, k, Gateway))
    && (forall k :: 0 <= k < |plan| && !plan[k].dropped ==> SideStored(plan, t, db, k, Ledger))
    && (forall ref :: ref in db.rows && db.rows[ref].facts.tenant == t ==> !db.rows[ref].Pending())
    && (forall ref, k: nat :: Stores(plan, t, db, ref, k)
          ==> (HasMarker(db, ref) <==> ref.side.Gateway? && plan[k].duplicate))
  }

  ghost predicate Consistent(st: Settings, plan: seq<Planned>, t: nat, db: Db) {
    && DistinctIdsIn(plan) && RowsPlanned(plan, t, db) && NoFalseBreak(st, plan, t, db)
    && KeysUnique(db) && ForeignKeys(db) && TenantsAgree(db)
    && OneActive(db) && OneMarker(db) && ReconciledByResult(db) && AllJustified(st, db)
  }

  ghost predicate About(plan: seq<Planned>, t: nat, db: Db, r: nat, k: nat) {
    r in db.results && exists ref: Ref :: db.results[r].Names(ref) && Stores(plan, t, db, ref, k)
  }

  /** The results in a column that concern planned transaction `k`. */
  ghost function OfTxn(plan: seq<Planned>, t: nat, db: Db, cutoff: int, col: Column, k: nat): set<nat> {
    set r | r in Selected(db, t, cutoff, col) && About(plan, t, db, r, k)
  }

  lemma AnyRowOfTxn(st: Settings, plan: seq<Planned>, t: nat, db: Db, x: Ref, y: Ref, k: nat)
    requires Consistent(st, plan, t, db) && Stores(plan, t, db, x, k) && Stores(plan, t, db, y, k)
    ensures x.side == y.side ==> x == y
  {
    if x.side == y.side { OneRowPerSide(plan, t, db, x, y, k, k); }
  }

  /** The active result that settled a planned row. */
  lemma SettledBy(st: Settings, plan: seq<Planned>, t: nat, db: Db, x: Ref, k: nat) returns (r: nat)
    requires Consistent(st, plan, t, db) && Finished(st, plan, t, db) && Stores(plan, t, db, x, k)
    ensures ActiveOn(db, r, x) && db.results[r].tenant == t
    ensures IsBreak(db.results[r]) <==> !Pairable(plan[k], st.cfg)
    ensures IsBreak(db.results[r]) ==>
      db.results[r].status == (if x.side.Gateway? then UnmatchedGatewayOnly else UnmatchedLedgerOnly)
      && db.results[r].layer == BySweep
    ensures Pairable(plan[k], st.cfg)
      ==> PlanVerdict(plan[k], st.cfg) == Some(Verdict(db.results[r].status, db.results[r].layer))
    ensures Pairable(plan[k], st.cfg) ==> forall y :: Stores(plan, t, db, y, k) ==> ActiveOn(db, r, y)
  {
    r :| ActiveOn(db, r, x);
    assert db.results[r].Names(x);
    assert Justified(st, db, db.results[r]);
    if !IsBreak(db.results[r]) {
      var g, l := ActiveResultShape(st, plan, t, db, r, x, k);
      forall y | Stores(plan, t, db, y, k) ensures ActiveOn(db, r, y) {
        AnyRowOfTxn(st, plan, t, db, y, if y.side.Gateway? then g else l, k);
      }
    }
  }

  /** Every active result about a transaction is the one that settled the row it names. */
  lemma ActiveOfTxn(st: Settings, plan: seq<Planned>, t: nat, db: Db, r: nat, k: nat)
    returns (x: Ref)
    requires Consistent(st, plan, t, db) && About(plan, t, db, r, k) && db.results[r].status != Duplicate
    ensures Stores(plan, t, db, x, k) && ActiveOn(db, r, x)
  {
    x :| db.results[r].Names(x) && Stores(plan, t, db, x, k);
  }

  lemma PairedTxnCounts(st: Settings, plan: seq<Planned>, t: nat, db: Db, cutoff: int, col: Column, k: nat)
    requires Consistent(st, plan, t, db) && Finished(st, plan, t, db) && AllRecent(db, t, cutoff)
    requires k < |plan| && Pairable(plan[k], st.cfg) && !col.CDuplicates?
    ensures |OfTxn(plan, t, db, cutoff, col, k)| == Expected(plan[k], st.cfg, col)
  {
    var g: Ref :| g.side == Gateway && Stores(plan, t, db, g, k);
    var rg := SettledBy(st, plan, t, db, g, k);
    var s := OfTxn(plan, t, db, cutoff, col, k);
    VerdictShape(plan[k], st.cfg);
    forall r | r in s ensures r == rg {
      MarkersInNoOtherColumn(st, db, r, col);
      var x := ActiveOfTxn(st, plan, t, db, r, k);
      assert ActiveOn(db, rg, x);
    }
    if InColumn(db.results[rg], col) {
      assert About(plan, t, db, rg, k);
      SingletonCard(s, rg);
    } else {
      assert s == {};
    }
  }

  lemma MarkersInNoOtherColumn(st: Settings, db: Db, r: nat, col: Column)
    requires AllJustified(st, db) && r in db.results && InColumn(db.results[r], col) && !col.CDuplicates?
    ensures db.results[r].status != Duplicate
  {
    assert Justified(st, db, db.results[r]);
  }

  lemma BrokenTxnCounts(st: Settings, plan: seq<Planned>, t: nat, db: Db, cutoff: int, col: Column, k: nat)
    requires Consistent(st, plan, t, db) && Finished(st, plan, t, db) && AllRecent(db, t, cutoff)
    requires k < |plan| && !Pairable(plan[k], st.cfg) && !col.CDuplicates?
    ensures |OfTxn(plan, t, db, cutoff, col, k)| == Expected(plan[k], st.cfg, col)
  {
    var s := OfTxn(plan, t, db, cutoff, col, k);
    forall r | r in s
      ensures exists x: Ref :: Stores(plan, t, db, x, k) && ActiveOn(db, r, x) && BreaksSide(db, r, x)
    {
      MarkersInNoOtherColumn(st, db, r, col);
      var x := ActiveOfTxn(st, plan, t, db, r, k);
      var rx := SettledBy(st, plan, t, db, x, k);
      ActiveUnique(st, plan, t, db, r, rx, x);
      assert BreaksSide(db, r, x);
    }
    hide Consistent, Finished, AllRecent, Stores, ActiveOn;
    if col.CUnmatchedGateway? {
      OneBreakOfSide(st, plan, t, db, cutoff, col, k, Gateway);
    } else if col.CUnmatchedLedger? && !plan[k].dropped {
      OneBreakOfSide(st, plan, t, db, cutoff, col, k, Ledger);
    } else {
      assert s == {};
    }
  }

  predicate BreaksSide(db: Db, r: nat, x: Ref) {
    && r in db.results && db.results[r].layer == BySweep
    && db.results[r].status == (if x.side.Gateway? then UnmatchedGatewayOnly else UnmatchedLedgerOnly)
  }

  lemma ActiveUnique(st: Settings, plan: seq<Planned>, t: nat, db: Db, a: nat, b: nat, x: Ref)
    requires Consistent(st, plan, t, db) && ActiveOn(db, a, x) && ActiveOn(db, b, x)
    ensures a == b
  {
  }

  lemma OneBreakOfSide(st: Settings, plan: seq<Planned>, t: nat, db: Db, cutoff: int, col: Column, k: nat, side: Side)
    requires Consistent(st, plan, t, db) && Finished(st, plan, t, db) && AllRecent(db, t, cutoff)
    requires k < |plan| && !Pairable(plan[k], st.cfg) && SideStored(plan, t, db, k, side)
    requires col == if side.Gateway? then CUnmatchedGateway else CUnmatchedLedger
    requires forall r :: r in OfTxn(plan, t, db, cutoff, col, k) ==>
      exists x: Ref :: Stores(plan, t, db, x, k) && ActiveOn(db, r, x) && BreaksSide(db, r, x)
    ensures |OfTxn(plan, t, db, cutoff, col, k)| == 1
  {
    var y: Ref :| y.side == side && Stores(plan, t, db, y, k);
    var ry := SettledBy(st, plan, t, db, y, k);
    var s := OfTxn(plan, t, db, cutoff, col, k);
    assert About(plan, t, db, ry, k);
    assert ry in s;
    hide Consistent, Finished, AllRecent, About, OfTxn, Stores, ActiveOn, SideStored;
    forall r | r in s ensures r == ry {
      var x: Ref :| Stores(plan, t, db, x, k) && ActiveOn(db, r, x) && BreaksSide(db, r, x);
      SameSideSameBreak(st, plan, t, db, col, k, x, y, r, ry);
    }
    SingletonCard(s, ry);
  }

  lemma SameSideSameBreak(st: Settings, plan: seq<Planned>, t: nat, db: Db, col: Column, k: nat, x: Ref, y: Ref, r: nat,
                          ry: nat)
    requires Consistent(st, plan, t, db) && Stores(plan, t, db, x, k) && Stores(plan, t, db, y, k)
    requires ActiveOn(db, r, x) && ActiveOn(db, ry, y) && x.side == y.side
    ensures r == ry
  {
    AnyRowOfTxn(st, plan, t, db, x, y, k);
    ActiveUnique(st, plan, t, db, r, ry, y);
  }

  /** Only the gateway side of a planned transaction is ever retried. */
  lemma MarkerOfTxn(st: Settings, plan: seq<Planned>, t: nat, db: Db, r: nat, g: Ref, k: nat)
    requires Consistent(st, plan, t, db) && Finished(st, plan, t, db)
    requires About(plan, t, db, r, k) && db.results[r].status == Duplicate
    requires g.side.Gateway? && Stores(plan, t, db, g, k)
    ensures MarkerOn(db, r, g) && plan[k].duplicate
  {
    var x: Ref :| db.results[r].Names(x) && Stores(plan, t, db, x, k);
    assert MarkerOn(db, r, x);
    assert HasMarker(db, x);
    AnyRowOfTxn(st, plan, t, db, x, g, k);
  }

  lemma DuplicateTxnCounts(st: Settings, plan: seq<Planned>, t: nat, db: Db, cutoff: int, k: nat)
    requires Consistent(st, plan, t, db) && Finished(st, plan, t, db) && AllRecent(db, t, cutoff) && k < |plan|
    ensures |OfTxn(plan, t, db, cutoff, CDuplicates, k)| == Expected(plan[k], st.cfg, CDuplicates)
  {
    assert SideStored(plan, t, db, k, Gateway);
    var g: Ref :| g.side == Gateway && Stores(plan, t, db, g, k);
    if plan[k].duplicate {
      OneMarkerOfTxn(st, plan, t, db, cutoff, g, k);
    } else {
      NoMarkerOfTxn(st, plan, t, db, cutoff, g, k);
    }
  }

  lemma NoMarkerOfTxn(st: Settings, plan: seq<Planned>, t: nat, db: Db, cutoff: int, g: Ref, k: nat)
    requires Consistent(st, plan, t, db) && Finished(st, plan, t, db)
    requires g.side.Gateway? && Stores(plan, t, db, g, k) && !plan[k].duplicate
    ensures OfTxn(plan, t, db, cutoff, CDuplicates, k) == {}
  {
    hide Consistent, Finished, Stores;
    forall r ensures r !in OfTxn(plan, t, db, cutoff, CDuplicates, k) {
      if r in OfTxn(plan, t, db, cutoff, CDuplicates, k) { MarkerOfTxn(st, plan, t, db, r, g, k); }
    }
  }

  lemma OneMarkerOfTxn(st: Settings, plan: seq<Planned>, t: nat, db: Db, cutoff: int, g: Ref, k: nat)
    requires Consistent(st, plan, t, db) && Finished(st, plan, t, db) && AllRecent(db, t, cutoff)
    requires g.side.Gateway? && Stores(plan, t, db, g, k) && plan[k].duplicate
    ensures |OfTxn(plan, t, db, cutoff, CDuplicates, k)| == 1
  {
    hide *;
    var m := TheMarker(st, plan, t, db, g, k);
    MarkerInTxn(plan, t, db, cutoff, m, k);
    var s := OfTxn(plan, t, db, cutoff, CDuplicates, k);
    forall r | r in s ensures r == m { OnlyMarker(st, plan, t, db, cutoff, g, k, m, r); }
    SingletonCard(s, m);
  }

  lemma MarkerInTxn(plan: seq<Planned>, t: nat, db: Db, cutoff: int, m: nat, k: nat)
    requires AllRecent(db, t, cutoff) && About(plan, t, db, m, k)
    requires m in db.results && db.results[m].tenant == t && db.results[m].status == Duplicate
    ensures m in OfTxn(plan, t, db, cutoff, CDuplicates, k)
  {
    hide About;
  }

  lemma OnlyMarker(st: Settings, plan: seq<Planned>, t: nat, db: Db, cutoff: int, g: Ref, k: nat, m: nat, r: nat)
    requires Consistent(st, plan, t, db) && Finished(st, plan, t, db)
    requires g.side.Gateway? && Stores(plan, t, db, g, k) && MarkerOn(db, m, g)
    requires r in OfTxn(plan, t, db, cutoff, CDuplicates, k)
    ensures r == m
  {
    hide Consistent, Finished, Stores, About, MarkerOn;
    assert db.results[r].status == Duplicate;
    MarkerOfTxn(st, plan, t, db, r, g, k);
    MarkerUnique(st, plan, t, db, r, m, g);
  }

  lemma TheMarker(st: Settings, plan: seq<Planned>, t: nat, db: Db, g: Ref, k: nat) returns (m: nat)
    requires Consistent(st, plan, t, db) && Finished(st, plan, t, db)
    requires g.side.Gateway? && Stores(plan, t, db, g, k) && plan[k].duplicate
    ensures MarkerOn(db, m, g) && About(plan, t, db, m, k)
    ensures m in db.results && db.results[m].tenant == t && db.results[m].status == Duplicate
  {
    assert HasMarker(db, g);
    m :| MarkerOn(db, m, g);
    assert db.results[m].Names(g);
  }

  lemma MarkerUnique(st: Settings, plan: seq<Planned>, t: nat, db: Db, a: nat, b: nat, g: Ref)
    requires Consistent(st, plan, t, db) && MarkerOn(db, a, g) && MarkerOn(db, b, g)
    ensures a == b
  {
  }

  lemma TxnCounts(st: Settings, plan: seq<Planned>, t: nat, db: Db, cutoff: int, col: Column, k: nat)
    requires Consistent(st, plan, t, db) && Finished(st, plan, t, db) && AllRecent(db, t, cutoff) && k < |plan|
    ensures |OfTxn(plan, t, db, cutoff, col, k)| == Expected(plan[k], st.cfg, col)
  {
    if col.CDuplicates? {
      DuplicateTxnCounts(st, plan, t, db, cutoff, k);
    } else if Pairable(plan[k], st.cfg) {
      PairedTxnCounts(st, plan, t, db, cutoff, col, k);
    } else {
      BrokenTxnCounts(st, plan, t, db, cutoff, col, k);
    }
  }

  /* -------------------------- Adding up the plan -------------------------- */

  ghost function OfPrefix(plan: seq<Planned>, t: nat, db: Db, cutoff: int, col: Column, n: nat): set<nat> {
    set r | r in Selected(db, t, cutoff, col) && exists k: nat :: k < n && About(plan, t, db, r, k)
  }

  /** A result concerns one planned transaction. */
  lemma AboutOne(st: Settings, plan: seq<Planned>, t: nat, db: Db, r: nat, j: nat, k: nat)
    requires DistinctIdsIn(plan) && AllJustified(st, db)
    requires About(plan, t, db, r, j) && About(plan, t, db, r, k)
    ensures j == k
  {
    var x: Ref :| db.results[r].Names(x) && Stores(plan, t, db, x, j);
    var y: Ref :| db.results[r].Names(y) && Stores(plan, t, db, y, k);
    NamedRowsShareTxn(st, db, r, x, y);
    assert plan[j].txn == plan[k].txn;
  }

  lemma NamedRowsShareTxn(st: Settings, db: Db, r: nat, x: Ref, y: Ref)
    requires AllJustified(st, db) && r in db.results && db.results[r].Names(x) && db.results[r].Names(y)
    requires x in db.rows && y in db.rows
    ensures db.rows[x].facts.txn == db.rows[y].facts.txn
  {
    var res := db.results[r];
    assert Justified(st, db, res);
    if x.side != y.side {
      ViableAgrees(db.rows[Ref(Gateway, res.gateway.value)].facts, db.rows[Ref(Ledger, res.ledger.value)].facts,
        st.cfg);
    }
  }

  lemma {:induction false} PrefixCounts(st: Settings, plan: seq<Planned>, t: nat, db: Db, cutoff: int, col: Column,
                                        n: nat)
    requires Consistent(st, plan, t, db) && Finished(st, plan, t, db) && AllRecent(db, t, cutoff) && n <= |plan|
    ensures |OfPrefix(plan, t, db, cutoff, col, n)| == Total(plan[..n], st.cfg, col)
  {
    if n == 0 {
      assert OfPrefix(plan, t, db, cutoff, col, 0) == {};
    } else {
      PrefixCounts(st, plan, t, db, cutoff, col, n - 1);
      TxnCounts(st, plan, t, db, cutoff, col, n - 1);
      assert plan[..n][..n - 1] == plan[..n - 1];
      PrefixSplits(st, plan, t, db, cutoff, col, n);
    }
  }

  lemma PrefixSplits(st: Settings, plan: seq<Planned>, t: nat, db: Db, cutoff: int, col: Column, n: nat)
    requires Consistent(st, plan, t, db) && 0 < n <= |plan|
    ensures |OfPrefix(plan, t, db, cutoff, col, n)|
         == |OfPrefix(plan, t, db, cutoff, col, n - 1)| + |OfTxn(plan, t, db, cutoff, col, n - 1)|
  {
    var before, last := OfPrefix(plan, t, db, cutoff, col, n - 1), OfTxn(plan, t, db, cutoff, col, n - 1);
    assert OfPrefix(plan, t, db, cutoff, col, n) == before + last;
    forall r | r in before ensures r !in last {
      var k: nat :| k < n - 1 && About(plan, t, db, r, k);
      if About(plan, t, db, r, n - 1) { AboutOne(st, plan, t, db, r, k, n - 1); }
    }
    assert before !! last;
  }

  /** Every result of the tenant concerns some planned transaction. */
  lemma AllAbout(st: Settings, plan: seq<Planned>, t: nat, db: Db, cutoff: int, col: Column)
    requires Consistent(st, plan, t, db)
    ensures OfPrefix(plan, t, db, cutoff, col, |plan|) == Selected(db, t, cutoff, col)
  {
    forall r | r in Selected(db, t, cutoff, col) ensures exists k: nat :: k < |plan| && About(plan, t, db, r, k) {
      var res := db.results[r];
      assert Justified(st, db, res);
      var ref := if res.gateway.Some? then Ref(Gateway, res.gateway.value) else Ref(Ledger, res.ledger.value);
      assert res.Names(ref);
      var k: nat :| Stores(plan, t, db, ref, k);
      assert About(plan, t, db, r, k);
    }
  }

  lemma ColumnIsTotal(st: Settings, plan: seq<Planned>, t: nat, db: Db, cutoff: int, col: Column)
    requires Consistent(st, plan, t, db) && Finished(st, plan, t, db) && AllRecent(db, t, cutoff)
    ensures Count(db, t, cutoff, col) == Total(plan, st.cfg, col)
  {
    PrefixCounts(st, plan, t, db, cutoff, col, |plan|);
    AllAbout(st, plan, t, db, cutoff, col);
    assert plan[..|plan|] == plan;
  }

  /* ------------------------------ The theorem ------------------------------ */

  /** The whole run conforms, and at its end every planned submission was made (a duplicate's
      key more than once, everything else once), the tenant's retry messages were processed, and
      none of its rows is pending. */
  ghost predicate CompleteRun(plan: seq<Planned>, t: nat, run: Run) {
    && FollowedPlan(plan, t, run)
    && NothingPending(run.states[|run.steps|].db, t)
  }

  ghost predicate NothingPending(db: Db, t: nat) {
    forall ref :: ref in db.rows && db.rows[ref].facts.tenant == t ==> !db.rows[ref].Pending()
  }

  /** Every planned transaction submitted, nothing else, and the retries' messages processed. */
  ghost predicate FollowedPlan(plan: seq<Planned>, t: nat, run: Run) {
    && |run.states| == |run.steps| + 1
    && (forall i :: 0 <= i < |run.steps| ==> Conforms(plan, t, run.states[i], run.steps[i]))
    && (forall k :: 0 <= k < |plan| ==> SubmittedAsPlanned(plan[k], t, run.steps))
    && RetriesProcessed(run.states[|run.steps|], t)
  }

  ghost predicate RetriesProcessed(s: Sys, t: nat) {
    forall e, ref :: Retry(s.db, e, ref) && ref in s.db.rows && s.db.rows[ref].facts.tenant == t ==> e in s.processed
  }

  predicate SubmittedAsPlanned(p: Planned, t: nat, steps: seq<Step>) {
    var g := Submitted(steps, |steps|, Gateway, t, KeyOf(p, Gateway));
    var l := Submitted(steps, |steps|, Ledger, t, KeyOf(p, Ledger));
    (if p.duplicate then g >= 2 else g == 1) && (if p.dropped then l == 0 else l == 1)
  }

  lemma ConformingKeepsTenant(plan: seq<Planned>, t: nat, run: Run)
    requires CompleteRun(plan, t, run)
    ensures NotRetired(run, t, 0, |run.steps|)
  {
    forall k | 0 <= k < |run.steps| ensures run.steps[k] != Retire(t) {
      assert Conforms(plan, t, run.states[k], run.steps[k]);
    }
  }

  /** Rows and counters at the end follow from the submissions made. */
  lemma FinalRow(st: Settings, plan: seq<Planned>, t: nat, run: Run, k: nat, side: Side)
    requires IsRun(st, run) && CompleteRun(plan, t, run) && DistinctKeysIn(plan) && k < |plan|
    requires RowsPlanned(plan, t, run.states[|run.steps|].db)
    requires side.Ledger? ==> !plan[k].dropped
    ensures SideStored(plan, t, run.states[|run.steps|].db, k, side)
  {
    var n := |run.steps|;
    var db := run.states[n].db;
    ConformingKeepsTenant(plan, t, run);
    CounterIsSubmissions(st, run, n, side, t, KeyOf(plan[k], side));
    var ref :| HoldsKey(db, t, side, KeyOf(plan[k], side), ref);
    var j: nat :| Stores(plan, t, db, ref, j);
    assert KeyOf(plan[j], side) == KeyOf(plan[k], side);
    assert Stores(plan, t, db, ref, k);
  }

  lemma FinalMarker(st: Settings, plan: seq<Planned>, t: nat, run: Run, ref: Ref, k: nat)
    requires IsRun(st, run) && CompleteRun(plan, t, run)
    requires Stores(plan, t, run.states[|run.steps|].db, ref, k)
    ensures HasMarker(run.states[|run.steps|].db, ref) <==> ref.side.Gateway? && plan[k].duplicate
  {
    var n := |run.steps|;
    ConformingKeepsTenant(plan, t, run);
    CounterIsSubmissions(st, run, n, ref.side, t, KeyOf(plan[k], ref.side));
    assert HoldsKey(run.states[n].db, t, ref.side, KeyOf(plan[k], ref.side), ref);
    assert SubmittedAsPlanned(plan[k], t, run.steps);
    MarkedExactlyWhenRetried(st, run, n, ref);
  }

  lemma CompleteRunFinishes(st: Settings, plan: seq<Planned>, t: nat, run: Run)
    requires IsRun(st, run) && CompleteRun(plan, t, run) && WindowsNest(st.cfg)
    requires DistinctIdsIn(plan) && DistinctKeysIn(plan)
    ensures Finished(st, plan, t, run.states[|run.steps|].db)
    ensures Consistent(st, plan, t, run.states[|run.steps|].db)
  {
    var n := |run.steps|;
    var db := run.states[n].db;
    RunKeepsHonest(st, plan, t, run, n);
    RunKeepsInv(st, run, n);
    forall k | 0 <= k < |plan| ensures SideStored(plan, t, db, k, Gateway) { FinalRow(st, plan, t, run, k, Gateway); }
    forall k | 0 <= k < |plan| && !plan[k].dropped ensures SideStored(plan, t, db, k, Ledger) {
      FinalRow(st, plan, t, run, k, Ledger);
    }
    forall ref, k: nat | Stores(plan, t, db, ref, k)
      ensures HasMarker(db, ref) <==> ref.side.Gateway? && plan[k].duplicate
    {
      FinalMarker(st, plan, t, run, ref, k);
    }
  }

  lemma {:induction false} ColumnEqualsTruth(st: Settings, plan: seq<Planned>, t: nat, run: Run, cutoff: int,
                                             col: Column)
    requires st.cfg == DEFAULT_CONFIG && DistinctIdsIn(plan) && DistinctKeysIn(plan)
    requires IsRun(st, run) && CompleteRun(plan, t, run)
    requires AllRecent(run.states[|run.steps|].db, t, cutoff)
    ensures Count(run.states[|run.steps|].db, t, cutoff, col) == TallyColumn(Truth(plan), col)
  {
    CompleteRunFinishes(st, plan, t, run);
    ColumnIsTotal(st, plan, t, run.states[|run.steps|].db, cutoff, col);
    TruthIsTotal(plan, col);
  }

  /** Whatever window is asked for, each column and what it left out before the window make up
      the generator's tally. */
  lemma {:induction false} ColumnWithinWindow(st: Settings, plan: seq<Planned>, t: nat, run: Run, cutoff: int,
                                              col: Column)
    requires st.cfg == DEFAULT_CONFIG && DistinctIdsIn(plan) && DistinctKeysIn(plan)
    requires IsRun(st, run) && CompleteRun(plan, t, run)
    ensures var db := run.states[|run.steps|].db;
      Count(db, t, cutoff, col) + |Earlier(db, t, cutoff, col)| == TallyColumn(Truth(plan), col)
  {
    hide CompleteRun, DistinctIdsIn, DistinctKeysIn, AllRecent, Truth;
    var db := run.states[|run.steps|].db;
    var floor := FloorExists(db, t);
    ColumnEqualsTruth(st, plan, t, run, floor, col);
    WindowSplits(db, t, cutoff, floor, col);
  }

  /** Every figure of the stats endpoint is the generator's, less what was resolved before the
      window. */
  predicate ReportsWindow(db: Db, t: nat, cutoff: int, stats: StatsRow, truth: Tally) {
    && stats.matched + |Earlier(db, t, cutoff, CMatched)| == truth.matched
    && stats.viaTimeDrift + |Earlier(db, t, cutoff, CTimeDrift)| == truth.matchedTimeDrift
    && stats.drift + |Earlier(db, t, cutoff, CDrift)| == truth.amountDrift
    && stats.unmatchedGateway + |Earlier(db, t, cutoff, CUnmatchedGateway)| == truth.unmatchedGatewayOnly
    && stats.unmatchedLedger + |Earlier(db, t, cutoff, CUnmatchedLedger)| == truth.unmatchedLedgerOnly
    && stats.unmatched == stats.unmatchedGateway + stats.unmatchedLedger
    && stats.duplicates + |Earlier(db, t, cutoff, CDuplicates)| == truth.duplicates
  }

  /** Schedule independence.  For any workload with distinct ids and any complete run of it
      under the default settings -- with any crashes, redeliveries, stale decisions, stream
      loss, and any behaviour of other tenants -- the engine's counts for any window are the
      generator's, less the results resolved before it. */
  lemma {:induction false} CountsWithinWindow(st: Settings, plan: seq<Planned>, t: nat, run: Run, cutoff: int)
    requires st.cfg == DEFAULT_CONFIG && DistinctIdsIn(plan) && DistinctKeysIn(plan)
    requires IsRun(st, run) && CompleteRun(plan, t, run)
    ensures var db := run.states[|run.steps|].db;
      ReportsWindow(db, t, cutoff, FetchStats(db, t, cutoff), Truth(plan))
  {
    hide CompleteRun, DistinctIdsIn, DistinctKeysIn, Truth, Earlier;
    var db := run.states[|run.steps|].db;
    ColumnWithinWindow(st, plan, t, run, cutoff, CMatched);
    ColumnWithinWindow(st, plan, t, run, cutoff, CTimeDrift);
    ColumnWithinWindow(st, plan, t, run, cutoff, CDrift);
    ColumnWithinWindow(st, plan, t, run, cutoff, CUnmatchedGateway);
    ColumnWithinWindow(st, plan, t, run, cutoff, CUnmatchedLedger);
    ColumnWithinWindow(st, plan, t, run, cutoff, CDuplicates);
    UnmatchedSplits(db, t, cutoff);
  }

  /** Every figure of the stats endpoint is the generator's. */
  predicate ReportsTruth(stats: StatsRow, truth: Tally) {
    && stats.matched == truth.matched
    && stats.viaTimeDrift == truth.matchedTimeDrift
    && stats.matched - stats.viaTimeDrift == truth.matchedExact
    && stats.drift == truth.amountDrift
    && stats.unmatchedGateway == truth.unmatchedGatewayOnly
    && stats.unmatchedLedger == truth.unmatchedLedgerOnly
    && stats.unmatched == truth.unmatchedGatewayOnly + truth.unmatchedLedgerOnly
    && stats.duplicates == truth.duplicates
  }

  lemma NothingEarlier(db: Db, t: nat, cutoff: int, col: Column)
    requires AllRecent(db, t, cutoff)
    ensures Earlier(db, t, cutoff, col) == {}
  {
  }

  /** So with a window that takes in all of the tenant's results the counts are equal. */
  lemma {:induction false} CountsEqualGroundTruth(st: Settings, plan: seq<Planned>, t: nat, run: Run, cutoff: int)
    requires st.cfg == DEFAULT_CONFIG && DistinctIdsIn(plan) && DistinctKeysIn(plan)
    requires IsRun(st, run) && CompleteRun(plan, t, run)
    requires AllRecent(run.states[|run.steps|].db, t, cutoff)
    ensures ReportsTruth(FetchStats(run.states[|run.steps|].db, t, cutoff), Truth(plan))
  {
    hide CompleteRun, DistinctIdsIn, DistinctKeysIn, AllRecent, Truth, FetchStats, Earlier;
    var db := run.states[|run.steps|].db;
    CountsWithinWindow(st, plan, t, run, cutoff);
    forall col ensures Earlier(db, t, cutoff, col) == {} { NothingEarlier(db, t, cutoff, col); }
    MatchedSplits(plan);
  }

  /** The load script's plans: distinct txn_ids suffice, its keys are made of them. */
  lemma {:induction false} ScriptCountsEqualGroundTruth(st: Settings, plan: seq<Planned>, t: nat, run: Run, cutoff: int)
    requires st.cfg == DEFAULT_CONFIG && DistinctIdsIn(plan)
    requires forall i :: 0 <= i < |plan| ==> ScriptKeyed(plan[i])
    requires IsRun(st, run) && CompleteRun(plan, t, run)
    ensures var db := run.states[|run.steps|].db;
      && ReportsWindow(db, t, cutoff, FetchStats(db, t, cutoff), Truth(plan))
      && (AllRecent(db, t, cutoff) ==> ReportsTruth(FetchStats(db, t, cutoff), Truth(plan)))
  {
    hide CompleteRun, DistinctIdsIn, DistinctKeysIn, AllRecent, Truth, ScriptKeyed, FetchStats, ReportsWindow;
    ScriptKeysDistinct(plan);
    CountsWithinWindow(st, plan, t, run, cutoff);
    if AllRecent(run.states[|run.steps|].db, t, cutoff) { CountsEqualGroundTruth(st, plan, t, run, cutoff); }
  }

  lemma {:induction false} MatchedSplits(plan: seq<Planned>)
    ensures Truth(plan).matched == Truth(plan).matchedExact + Truth(plan).matchedTimeDrift
  {
    if plan != [] { MatchedSplits(plan[..|plan| - 1]); }
  }

  /** A drained sweep after the last row's window leaves the tenant nothing pending. */
  lemma DrainedLeavesNothing(db: Db, t: nat, cutoff: int)
    requires Drained(db, cutoff)
    requires forall ref :: ref in db.rows && db.rows[ref].facts.tenant == t ==> db.rows[ref].facts.received < cutoff
    ensures NothingPending(db, t)
  {
    forall ref | ref in db.rows && db.rows[ref].facts.tenant == t ensures !db.rows[ref].Pending() {
      assert ref !in StaleRows(db, Gateway, cutoff) && ref !in StaleRows(db, Ledger, cutoff);
    }
  }

  /** The same theorem for runs that end with a drained sweep, as the one-shot form reports
      it, taken once the last row has waited out its window. */
  lemma {:induction false} CountsAfterDrainedSweep(st: Settings, plan: seq<Planned>, t: nat, run: Run, cutoff: int)
    requires st.cfg == DEFAULT_CONFIG && DistinctIdsIn(plan) && DistinctKeysIn(plan)
    requires IsRun(st, run) && FollowedPlan(plan, t, run)
    requires var last := run.states[|run.steps|]; Drained(last.db, last.now - st.unmatchedAfter)
    requires var last := run.states[|run.steps|];
      forall ref :: ref in last.db.rows && last.db.rows[ref].facts.tenant == t
        ==> last.db.rows[ref].facts.received < last.now - st.unmatchedAfter
    ensures var db := run.states[|run.steps|].db;
      && ReportsWindow(db, t, cutoff, FetchStats(db, t, cutoff), Truth(plan))
      && (AllRecent(db, t, cutoff) ==> ReportsTruth(FetchStats(db, t, cutoff), Truth(plan)))
  {
    hide FollowedPlan, DistinctIdsIn, DistinctKeysIn, AllRecent, Truth, NothingPending, Drained, FetchStats;
    hide ReportsWindow;
    var last := run.states[|run.steps|];
    DrainedLeavesNothing(last.db, t, last.now - st.unmatchedAfter);
    CountsWithinWindow(st, plan, t, run, cutoff);
    if AllRecent(last.db, t, cutoff) { CountsEqualGroundTruth(st, plan, t, run, cutoff); }
  }
}
