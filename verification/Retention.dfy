/** Demo-tenant retention: what its deletes leave, and what becomes of work in flight. */
module Retention {
  import opened Basics
  import opened Matching
  import opened Tables
  import opened TablesProofs
  import opened Protocol
  import opened Safety
  import opened Store
  import opened History

  /** Deleting in dependency order satisfies every foreign key after each statement, so no
      statement is refused and the account's own delete is the last. */
  lemma DeletionOrderKeepsReferences(db: Db, t: nat)
    requires ForeignKeys(db) && TenantsAgree(db) && CasesMatch(db)
    ensures var a := WithoutCases(db, t);
            var b := WithoutResults(a, t);
            var c := WithoutRows(b, t, Gateway);
            var d := WithoutRows(c, t, Ledger);
            ForeignKeys(a) && ForeignKeys(b) && ForeignKeys(c) && ForeignKeys(d)
            && ForeignKeys(WithoutAccount(d, t)) && WithoutAccount(d, t) == DeleteTenant(db, t)
  {
    var a := WithoutCases(db, t);
    var b := WithoutResults(a, t);
    CasesDeletable(db, t);
    hide ForeignKeys, TenantsAgree, CasesMatch, CasesOfOwnTenant;
    ResultsDeletable(a, t);
    RowsDeletable(b, t, Gateway);
    var c := WithoutRows(b, t, Gateway);
    RowsDeletable(c, t, Ledger);
    AccountDeletable(WithoutRows(c, t, Ledger), t);
  }

  ghost predicate CasesOfOwnTenant(db: Db) {
    forall c :: c in db.cases
      ==> db.cases[c].result in db.results && db.results[db.cases[c].result].tenant == db.cases[c].tenant
  }

  lemma CasesDeletable(db: Db, t: nat)
    requires ForeignKeys(db) && TenantsAgree(db) && CasesMatch(db)
    ensures var a := WithoutCases(db, t); ForeignKeys(a) && TenantsAgree(a) && CasesOfOwnTenant(a)
  {
  }

  lemma ResultsDeletable(db: Db, t: nat)
    requires ForeignKeys(db) && TenantsAgree(db) && CasesOfOwnTenant(db)
    requires forall c :: c in db.cases ==> db.cases[c].tenant != t
    ensures ForeignKeys(WithoutResults(db, t)) && TenantsAgree(WithoutResults(db, t))
  {
  }

  /** Once the tenant's results are gone its rows can go: results name only their own
      tenant's rows. */
  lemma RowsDeletable(db: Db, t: nat, side: Side)
    requires ForeignKeys(db) && TenantsAgree(db)
    requires forall r :: r in db.results ==> db.results[r].tenant != t
    ensures ForeignKeys(WithoutRows(db, t, side)) && TenantsAgree(WithoutRows(db, t, side))
  {
    var db' := WithoutRows(db, t, side);
    forall r, ref: Ref | r in db'.results && db'.results[r].Names(ref) ensures ref in db'.rows {
      assert ref in db.rows && db.rows[ref].facts.tenant == db.results[r].tenant;
    }
  }

  lemma AccountDeletable(db: Db, t: nat)
    requires ForeignKeys(db)
    requires forall r :: r in db.results ==> db.results[r].tenant != t
    requires forall c :: c in db.cases ==> db.cases[c].tenant != t
    requires forall ref :: ref in db.rows ==> db.rows[ref].facts.tenant != t
    ensures ForeignKeys(WithoutAccount(db, t))
  {
  }

  /** Deleting a tenant's raw rows first is refused exactly when one of its results names
      them. */
  lemma RowsFirstRefused(db: Db, t: nat, side: Side)
    requires ForeignKeys(db) && TenantsAgree(db)
    ensures ForeignKeys(WithoutRows(db, t, side)) <==>
      forall r, ref: Ref :: r in db.results && db.results[r].Names(ref) && ref.side == side
        ==> db.results[r].tenant != t
  {
    var db' := WithoutRows(db, t, side);
    if r, ref: Ref :| r in db.results && db.results[r].Names(ref) && ref.side == side && db.results[r].tenant == t {
      assert ref in db.rows && db'.results[r].Names(ref);
      assert ref !in db'.rows;
    } else {
      forall r, ref: Ref | r in db'.results && db'.results[r].Names(ref) ensures ref in db'.rows {
        assert ref in db.rows;
      }
    }
  }

  /* --------------------------- The sweep of tenants --------------------------- */

  predicate IdleDemo(db: Db, t: nat, cutoff: int) {
    t in db.accounts && db.accounts[t].kind == Demo && db.accounts[t].lastSeen < cutoff
  }

  function IdleDemos(db: Db, cutoff: int): set<nat> {
    set t | t in db.accounts && db.accounts[t].kind == Demo && db.accounts[t].lastSeen < cutoff
  }

  function RetireAll(db: Db, ts: seq<nat>): Db {
    if ts == [] then db else DeleteTenant(RetireAll(db, ts[..|ts| - 1]), ts[|ts| - 1])
  }

  /** In order of last visit, and nobody left out has been idle for longer. */
  ghost predicate LongestIdleFirst(db: Db, stale: seq<nat>, cutoff: int) {
    && (forall t :: t in stale ==> IdleDemo(db, t, cutoff))
    && (forall i, j :: 0 <= i < j < |stale| && IdleDemo(db, stale[i], cutoff) && IdleDemo(db, stale[j], cutoff)
          ==> db.accounts[stale[i]].lastSeen <= db.accounts[stale[j]].lastSeen)
    && (forall t, u :: t in stale && u !in stale && IdleDemo(db, u, cutoff)
          ==> db.accounts[t].lastSeen <= db.accounts[u].lastSeen)
  }

  lemma PrefixIsLongestIdle(db: Db, stale: seq<nat>, cutoff: int, n: nat)
    requires LongestIdleFirst(db, stale, cutoff) && Distinct(stale) && n <= |stale|
    ensures LongestIdleFirst(db, stale[..n], cutoff) && Distinct(stale[..n])
  {
    var front := stale[..n];
    forall t, u | t in front && u !in front && IdleDemo(db, u, cutoff)
      ensures db.accounts[t].lastSeen <= db.accounts[u].lastSeen
    {
      var i :| 0 <= i < n && front[i] == t;
      if u in stale {
        var j :| 0 <= j < |stale| && stale[j] == u;
        assert n <= j;
      }
    }
  }

  /** The longest-idle demo tenants, at most `limit`. */
  method ListIdleDemos(db: Database, cutoff: int, limit: nat) returns (stale: seq<nat>)
    ensures Distinct(stale) && |stale| == Min(limit, |IdleDemos(db.View(), cutoff)|)
    ensures LongestIdleFirst(db.View(), stale, cutoff)
    ensures forall t :: t in stale ==>
      t in db.accounts && db.accounts[t].kind == Demo && db.accounts[t].lastSeen < cutoff
    ensures |stale| < limit ==> forall t ::
      t in db.accounts && db.accounts[t].kind == Demo && db.accounts[t].lastSeen < cutoff ==> t in stale
  {
    var todo := set t | t in db.accounts && db.accounts[t].kind == Demo && db.accounts[t].lastSeen < cutoff;
    stale := [];
    while |stale| < limit && todo != {}
      invariant ListedSoFar(db.View(), cutoff, stale, todo) && |stale| <= limit
      decreases |todo|
    {
      var idlest := LongestIdle(db, todo);
      ListedGrows(db.View(), cutoff, stale, todo, idlest);
      stale, todo := stale + [idlest], todo - {idlest};
    }
  }

  /** The idle demos are the listed ones and those still to do. */
  ghost predicate ListedSoFar(db: Db, cutoff: int, stale: seq<nat>, todo: set<nat>) {
    && todo <= IdleDemos(db, cutoff)
    && (forall t :: t in IdleDemos(db, cutoff) ==> (t in stale <==> t !in todo))
    && |stale| + |todo| == |IdleDemos(db, cutoff)|
    && Distinct(stale) && LongestIdleFirst(db, stale, cutoff)
  }

  lemma ListedGrows(db: Db, cutoff: int, stale: seq<nat>, todo: set<nat>, idlest: nat)
    requires ListedSoFar(db, cutoff, stale, todo) && idlest in todo
    requires forall u :: u in todo && u in db.accounts ==> db.accounts[idlest].lastSeen <= db.accounts[u].lastSeen
    ensures ListedSoFar(db, cutoff, stale + [idlest], todo - {idlest}) && |todo - {idlest}| < |todo|
  {
    assert IdleDemo(db, idlest, cutoff) && idlest !in stale;
    assert |todo - {idlest}| == |todo| - 1;
  }

  method LongestIdle(db: Database, s: set<nat>) returns (t: nat)
    requires s != {} && s <= db.accounts.Keys
    ensures t in s && forall u :: u in s ==> db.accounts[t].lastSeen <= db.accounts[u].lastSeen
  {
    t :| t in s;
    var rest := s - {t};
    while rest != {}
      invariant rest <= s && t in s
      invariant forall u :: u in s && u !in rest ==> db.accounts[t].lastSeen <= db.accounts[u].lastSeen
      decreases |rest|
    {
      var u :| u in rest;
      if db.accounts[u].lastSeen < db.accounts[t].lastSeen { t := u; }
      rest := rest - {u};
    }
  }

  /** One tenant's five deletes, in one transaction; the database refuses none of them. */
  method DeleteAccount(db: Database, t: nat)
    requires ForeignKeys(db.View()) && TenantsAgree(db.View()) && CasesMatch(db.View())
    modifies db
    ensures db.View() == DeleteTenant(old(db.View()), t)
  {
    DeletionOrderKeepsReferences(db.View(), t);
    db.DeleteCasesOf(t);
    db.DeleteResultsOf(t);
    db.DeleteRowsOf(t, Gateway);
    db.DeleteRowsOf(t, Ledger);
    db.DeleteAccountRow(t);
  }

  /** Not for retention to touch: a paying customer's account, or one seen since the cutoff. */
  predicate InUse(a: Account, cutoff: int) { a.kind == Real || a.lastSeen >= cutoff }

  /** After the first `n` listed accounts are gone. */
  lemma InUseKept(db: Db, stale: seq<nat>, n: nat, cutoff: int)
    requires n <= |stale|
    requires forall t :: t in stale ==>
      t in db.accounts && db.accounts[t].kind == Demo && db.accounts[t].lastSeen < cutoff
    ensures var db' := RetireAll(db, stale[..n]);
      && (forall t :: t in db.accounts && InUse(db.accounts[t], cutoff)
            ==> t in db'.accounts && db'.accounts[t] == db.accounts[t])
      && (forall t :: t in db'.accounts ==> t in db.accounts && t !in stale[..n] && db'.accounts[t] == db.accounts[t])
  {
    RetireAllLeavesOthers(db, stale[..n]);
    assert forall t :: t in stale[..n] ==> t in stale;
  }

  /** Retention with nobody else running: the longest-idle demo tenants are gone with all their
      records, and nothing else has changed.  Transaction `failsAt` raises, where the listing
      is number 0 and the listed tenants follow in order; what was deleted before it stays so. */
  method SweepDemoAccounts(st: Settings, db: Database, cutoff: int, limit: nat, failsAt: nat)
    returns (deleted: nat, stale: seq<nat>, raised: bool)
    requires DbInv(st, db.View())
    modifies db
    ensures DbInv(st, db.View())
    ensures deleted <= |stale| && db.View() == RetireAll(old(db.View()), stale[..deleted])
    ensures failsAt == 0 ==> raised && stale == []
    ensures failsAt > 0 ==> deleted == Min(failsAt - 1, |stale|) && (raised <==> failsAt <= |stale|)
    ensures failsAt > 0 ==> |stale| == Min(limit, |IdleDemos(old(db.View()), cutoff)|)
    ensures Distinct(stale) && LongestIdleFirst(old(db.View()), stale, cutoff)
    ensures forall t :: t in old(db.accounts) && InUse(old(db.accounts[t]), cutoff)
              ==> t in db.accounts && db.accounts[t] == old(db.accounts[t])
    ensures !raised && |stale| < limit ==> forall t :: t in db.accounts ==> InUse(db.accounts[t], cutoff)
  {
    hide ForeignKeys, TenantsAgree, CasesMatch, IdsBelowNext, KeysUnique, OneActive, OneMarker, ReconciledByResult,
      AllJustified, EventsSane, LongestIdleFirst, IdleDemos, IdleDemo, DeleteTenant, RetireAll;
    NobodyRetired(db.View());
    deleted, stale, raised := 0, [], false;
    ghost var db0 := db.View();
    if failsAt == 0 {
      raised := true;
      NobodyListed(db.View(), cutoff);
      return;
    }
    stale := ListIdleDemos(db, cutoff, limit);
    while deleted < |stale|
      invariant deleted <= |stale| && deleted < failsAt && !raised
      invariant DbInv(st, db.View()) && db.View() == RetireAll(old(db.View()), stale[..deleted])
    {
      if deleted + 1 == failsAt {
        raised := true;
        InUseKept(db0, stale, deleted, cutoff);
        return;
      }
      DeleteKeepsInv(st, db.View(), stale[deleted]);
      DeleteAccount(db, stale[deleted]);
      OneMoreRetired(db0, stale, deleted);
      deleted := deleted + 1;
    }
    assert stale[..|stale|] == stale;
    InUseKept(db0, stale, deleted, cutoff);
  }

  lemma NobodyRetired(db: Db)
    ensures RetireAll(db, []) == db
  {
  }

  lemma OneMoreRetired(db: Db, stale: seq<nat>, n: nat)
    requires n < |stale|
    ensures RetireAll(db, stale[..n + 1]) == DeleteTenant(RetireAll(db, stale[..n]), stale[n])
  {
    hide DeleteTenant;
    assert stale[..n + 1][..n] == stale[..n];
  }

  lemma NobodyListed(db: Db, cutoff: int)
    ensures LongestIdleFirst(db, [], cutoff)
  {
  }

  /** Retiring tenants removes exactly the records of those tenants. */
  lemma {:induction false} RetireAllLeavesOthers(db: Db, ts: seq<nat>)
    ensures var db' := RetireAll(db, ts);
      && (forall a :: a in db'.accounts <==> a in db.accounts && a !in ts)
      && (forall a :: a in db'.accounts ==> db'.accounts[a] == db.accounts[a])
      && (forall x :: x in db'.rows <==> x in db.rows && db.rows[x].facts.tenant !in ts)
      && (forall x :: x in db'.rows ==> db'.rows[x] == db.rows[x])
      && (forall r :: r in db'.results <==> r in db.results && db.results[r].tenant !in ts)
      && (forall r :: r in db'.results ==> db'.results[r] == db.results[r])
      && (forall c :: c in db'.cases <==> c in db.cases && db.cases[c].tenant !in ts)
      && (forall c :: c in db'.cases ==> db'.cases[c] == db.cases[c])
      && db'.outbox == db.outbox && db'.nextResult == db.nextResult
  {
    if ts != [] {
      var rest, t := ts[..|ts| - 1], ts[|ts| - 1];
      RetireAllLeavesOthers(db, rest);
      DeleteLeavesOthers(RetireAll(db, rest), t);
      assert forall x :: x in ts <==> x in rest || x == t;
    }
  }

  /** A real account keeps itself and every record it owns, whatever its last visit, and so
      does a demo account seen since the cutoff. */
  lemma RealAccountsKept(db: Db, ts: seq<nat>, cutoff: int, t: nat)
    requires forall u :: u in ts ==> IdleDemo(db, u, cutoff)
    requires t in db.accounts && (db.accounts[t].kind == Real || db.accounts[t].lastSeen >= cutoff)
    ensures t in RetireAll(db, ts).accounts && RetireAll(db, ts).accounts[t] == db.accounts[t]
    ensures forall x :: x in db.rows && db.rows[x].facts.tenant == t
              ==> x in RetireAll(db, ts).rows && RetireAll(db, ts).rows[x] == db.rows[x]
    ensures forall r :: r in db.results && db.results[r].tenant == t
              ==> r in RetireAll(db, ts).results && RetireAll(db, ts).results[r] == db.results[r]
  {
    RetireAllLeavesOthers(db, ts);
  }

  /* ---------------------------- Visitors and the clock ---------------------------- */

  /** A request refreshes `last_seen_at`, but only once it is older than the refresh interval. */
  function Touched(a: Account, now: int, refresh: int): Account {
    if a.lastSeen < now - refresh then a.(lastSeen := now) else a
  }

  /** A request is a visit of the system, or no step at all. */
  lemma TouchIsStep(st: Settings, s: Sys, a: nat, refresh: int)
    requires a in s.db.accounts
    ensures Enabled(st, s, TouchAccount(a))
    ensures var touched := s.db.accounts[a := Touched(s.db.accounts[a], s.now, refresh)];
      touched == if s.db.accounts[a].lastSeen < s.now - refresh then Exec(st, s, TouchAccount(a)).db.accounts
                 else s.db.accounts
  {
    hide BestPartner, Candidates;
  }

  lemma {:induction false} SeenOnlyGrows(st: Settings, run: Run, k: nat, j: nat, a: nat, since: int)
    requires IsRun(st, run) && k <= j < |run.states| && since <= run.states[k].now
    requires a in run.states[k].db.accounts ==> run.states[k].db.accounts[a].lastSeen >= since
    ensures since <= run.states[j].now
    ensures a in run.states[j].db.accounts ==> run.states[j].db.accounts[a].lastSeen >= since
    decreases j - k
  {
    if k < j {
      SeenOnlyGrows(st, run, k, j - 1, a, since);
      RunStep(st, run, j - 1);
      ClockAdvances(st, run.states[j - 1], run.steps[j - 1]);
      if a in run.states[j].db.accounts {
        AccountsAfter(st, run.states[j - 1], run.steps[j - 1], a);
      }
      hide Exec, Enabled;
    }
  }

  /** An active visitor's data is not swept: for the retention period less the refresh interval
      after a request its account is no idle demo, whatever happens meanwhile. */
  lemma VisitorKept(st: Settings, run: Run, k: nat, j: nat, a: nat, refresh: int, retention: int)
    requires IsRun(st, run) && k <= j < |run.states| && a in run.states[k].db.accounts && refresh >= 0
    requires run.states[k].db.accounts[a] == Touched(run.states[k].db.accounts[a], run.states[k].now, refresh)
    requires run.states[j].now <= run.states[k].now + retention - refresh
    ensures !IdleDemo(run.states[j].db, a, run.states[j].now - retention)
  {
    SeenOnlyGrows(st, run, k, j, a, run.states[k].now - refresh);
    hide IsRun;
  }

  /** The refresh interval does come off: with the default settings a visitor seen at hour zero
      and again five minutes later is swept one second after the day is over, although its
      last request is less than a day old. */
  lemma LateVisitSwept()
    ensures var refresh, retention, visit, later := 300_000_000, 86_400_000_000, 300_000_000, 86_401_000_000;
      var seen := Touched(Account(Demo, 0), visit, refresh);
      && visit > later - retention
      && IdleDemo(EMPTY_DB.(accounts := map[0 := seen]), 0, later - retention)
  {
    assert Touched(Account(Demo, 0), 300_000_000, 300_000_000) == Account(Demo, 0);
  }

  /* ------------------------ Work in flight at a deletion ------------------------ */

  lemma DeletionLeavesGone(db: Db, t: nat, ref: Ref)
    requires IdsBelowNext(db) && ref in db.rows && db.rows[ref].facts.tenant == t
    ensures Gone(DeleteTenant(db, t), ref)
  {
    DeleteLeavesOthers(db, t);
  }

  lemma RetireDeletes(st: Settings, run: Run, k: nat)
    requires IsRun(st, run) && k < |run.steps| && run.steps[k].Retire?
    ensures run.states[k + 1].db == DeleteTenant(run.states[k].db, run.steps[k].tenant)
    ensures IdsBelowNext(run.states[k].db)
  {
    RunStep(st, run, k);
  }

  /** A row deleted with its tenant never comes back. */
  lemma {:induction false} DeletedStaysDeleted(st: Settings, run: Run, k: nat, j: nat, ref: Ref)
    requires IsRun(st, run) && k < j <= |run.steps|
    requires run.steps[k].Retire? && ref in run.states[k].db.rows
    requires run.states[k].db.rows[ref].facts.tenant == run.steps[k].tenant
    ensures Gone(run.states[j].db, ref)
    decreases j - k
  {
    if j == k + 1 {
      RetireDeletes(st, run, k);
      DeletionLeavesGone(run.states[k].db, run.steps[k].tenant, ref);
    } else {
      DeletedStaysDeleted(st, run, k, j - 1, ref);
      RunStepKeepsGone(st, run, j - 1, ref);
    }
  }

  /** A decision made before the deletion about a row it deleted is never written: the commit
      is a silent no-op or a rollback. */
  lemma InFlightDecisionDies(st: Settings, run: Run, k: nat, j: nat, ref: Ref)
    requires IsRun(st, run) && k < j < |run.steps|
    requires run.steps[k].Retire? && ref in run.states[k].db.rows
    requires run.states[k].db.rows[ref].facts.tenant == run.steps[k].tenant
    requires Committed(run.states[j], run.steps[j]).Some?
    requires RefOf(Committed(run.states[j], run.steps[j]).value.candidate) == ref
    ensures run.states[j + 1].db == run.states[j].db
  {
    DeletedStaysDeleted(st, run, k, j, ref);
    RunStep(st, run, j);
    CommitIsApply(st, run.states[j], run.steps[j]);
    var i := Committed(run.states[j], run.steps[j]).value;
    if i.Pair? { ViableAgrees(i.candidate, i.partner, st.cfg); }
    assert DecisionNames(DecisionOf(i, st.cfg), ref);
  }

  /** A message that outlives its row is acknowledged without touching the tables. */
  lemma InFlightMessageIgnored(st: Settings, run: Run, k: nat, j: nat, ref: Ref)
    requires IsRun(st, run) && k < j < |run.steps|
    requires run.steps[k].Retire? && ref in run.states[k].db.rows
    requires run.states[k].db.rows[ref].facts.tenant == run.steps[k].tenant
    requires run.steps[j].WorkerRead? && run.steps[j].entry in run.states[j].log
    requires MessageRef(run.states[j].log[run.steps[j].entry].msg) == ref
    ensures run.states[j + 1].db == run.states[j].db
    ensures run.steps[j].agent in run.states[j + 1].agents
    ensures run.states[j + 1].agents[run.steps[j].agent] == Acking(run.steps[j].entry)
  {
    DeletedStaysDeleted(st, run, k, j, ref);
    RunStep(st, run, j);
  }
}
