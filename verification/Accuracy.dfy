/** The engine's counts equal the generator's ground truth, whatever the schedule. */
module Accuracy {
  import opened Basics
  import opened Matching
  import opened Tables
  import opened TablesProofs
  import opened Protocol
  import opened Safety
  import opened Delivery
  import opened Progress
  import opened Workload

  ghost predicate DistinctIdsIn(plan: seq<Planned>) {
    forall i, j :: 0 <= i < |plan| && 0 <= j < |plan| && plan[i].txn == plan[j].txn ==> i == j
  }

  /** No key of either side is planned twice. */
  ghost predicate DistinctKeysIn(plan: seq<Planned>) {
    forall i, j, side :: 0 <= i < |plan| && 0 <= j < |plan| && KeyOf(plan[i], side) == KeyOf(plan[j], side) ==> i == j
  }

  /** Keys made of the txn_id are distinct when the txn_ids are. */
  lemma ScriptKeysDistinct(plan: seq<Planned>)
    requires DistinctIdsIn(plan) && forall i :: 0 <= i < |plan| ==> ScriptKeyed(plan[i])
    ensures DistinctKeysIn(plan)
  {
    forall i, j, side: Side | 0 <= i < |plan| && 0 <= j < |plan| && KeyOf(plan[i], side) == KeyOf(plan[j], side)
      ensures i == j
    {
      assert KeyOf(plan[i], side)[3..] == plan[i].txn;
      assert KeyOf(plan[j], side)[3..] == plan[j].txn;
    }
  }

  /** Row `ref` stores side `ref.side` of planned transaction `k`. */
  predicate Stores(plan: seq<Planned>, t: nat, db: Db, ref: Ref, k: nat) {
    && k < |plan| && ref in db.rows
    && db.rows[ref].facts == PlannedFacts(plan[k], ref.side, t, ref.id, db.rows[ref].facts.received)
    && db.rows[ref].key == KeyOf(plan[k], ref.side)
    && (ref.side.Ledger? ==> !plan[k].dropped)
  }

  ghost predicate SideStored(plan: seq<Planned>, t: nat, db: Db, k: nat, side: Side) {
    exists ref: Ref :: ref.side == side && Stores(plan, t, db, ref, k)
  }

  ghost predicate BothStored(plan: seq<Planned>, t: nat, db: Db, txn: string) {
    forall k :: 0 <= k < |plan| && plan[k].txn == txn ==>
      && SideStored(plan, t, db, k, Gateway)
      && (!plan[k].dropped ==> SideStored(plan, t, db, k, Ledger))
  }

  predicate Submittable(plan: seq<Planned>, step: Step, k: nat)
    requires step.IngestKey?
  {
    k < |plan| && step.sub == SubmissionOf(plan[k], step.ref.side) && (step.ref.side.Ledger? ==> !plan[k].dropped)
  }

  /** Tenant `t` submits only what is planned, is not retired, and is swept only once both
      planned sides of the swept row are stored.  Other tenants may do anything. */
  ghost predicate Conforms(plan: seq<Planned>, t: nat, s: Sys, step: Step) {
    match step
    case IngestKey(ref, tenant, sub, count) => tenant == t ==> exists k: nat :: Submittable(plan, step, k)
    case Retire(tenant) => tenant != t
    case SweepRead(a, _) =>
      a in s.agents && s.agents[a].Listing? && s.agents[a].queue != [] && s.agents[a].queue[0].tenant == t
      ==> BothStored(plan, t, s.db, s.agents[a].queue[0].txn)
    case _ => true
  }

  predicate Pairable(p: Planned, cfg: Config) { PlanVerdict(p, cfg).Some? }

  predicate IsBreak(r: Result) { r.status in {UnmatchedGatewayOnly, UnmatchedLedgerOnly} }

  ghost predicate RowsPlanned(plan: seq<Planned>, t: nat, db: Db) {
    forall ref :: ref in db.rows && db.rows[ref].facts.tenant == t ==> exists k: nat :: Stores(plan, t, db, ref, k)
  }

  /** No row of a pairable transaction is reported as a break. */
  ghost predicate NoFalseBreak(st: Settings, plan: seq<Planned>, t: nat, db: Db) {
    forall r, ref, k: nat :: ActiveOn(db, r, ref) && IsBreak(db.results[r]) && Stores(plan, t, db, ref, k)
      ==> !Pairable(plan[k], st.cfg)
  }

  /** A sweeper about to give up on a row of a pairable transaction holds a stale decision:
      the row is settled already. */
  ghost predicate GiveUpHarmless(st: Settings, plan: seq<Planned>, t: nat, db: Db, c: Facts) {
    forall k: nat :: c.tenant == t && Stores(plan, t, db, RefOf(c), k) && Pairable(plan[k], st.cfg)
      ==> !IsPending(db, RefOf(c))
  }

  predicate GivingUp(s: Sys, a: nat) { a in s.agents && s.agents[a].Sweeping? && s.agents[a].target.GiveUp? }

  ghost predicate SweepersHarmless(st: Settings, plan: seq<Planned>, t: nat, s: Sys) {
    forall a :: GivingUp(s, a) ==> GiveUpHarmless(st, plan, t, s.db, s.agents[a].target.candidate)
  }

  /* ------------------------- Rows follow the plan ------------------------- */

  lemma NextKeepsPlanned(st: Settings, plan: seq<Planned>, t: nat, s: Sys, step: Step)
    requires Enabled(st, s, step) && IdsBelowNext(s.db) && Conforms(plan, t, s, step) && RowsPlanned(plan, t, s.db)
    ensures RowsPlanned(plan, t, Exec(st, s, step).db)
  {
    var db' := Exec(st, s, step).db;
    StepEvolves(st, s, step);
    forall ref | ref in db'.rows && db'.rows[ref].facts.tenant == t
      ensures exists k: nat :: Stores(plan, t, db', ref, k)
    {
      if ref in s.db.rows {
        var k: nat :| Stores(plan, t, s.db, ref, k);
        assert Stores(plan, t, db', ref, k);
      } else {
        NewRowsAreIngested(st, s, step, ref);
        var k: nat :| Submittable(plan, step, k);
        assert Stores(plan, t, db', ref, k);
      }
    }
  }

  lemma NothingStored(run: Run)
    requires |run.states| > 0 && Init(run.states[0])
    ensures run.states[0].db.rows == map[]
  {
  }

  lemma {:induction false} RunKeepsPlanned(st: Settings, plan: seq<Planned>, t: nat, run: Run, i: nat)
    requires IsRun(st, run) && i < |run.states|
    requires forall k :: 0 <= k < i ==> Conforms(plan, t, run.states[k], run.steps[k])
    ensures RowsPlanned(plan, t, run.states[i].db)
  {
    hide Exec, Enabled, Conforms;
    if i == 0 {
      NothingStored(run);
    } else {
      RunKeepsPlanned(st, plan, t, run, i - 1);
      RunStep(st, run, i - 1);
      NextKeepsPlanned(st, plan, t, run.states[i - 1], run.steps[i - 1]);
    }
  }

  /** With distinct txn_ids a planned side is one row. */
  lemma OneRowPerSide(plan: seq<Planned>, t: nat, db: Db, a: Ref, b: Ref, j: nat, k: nat)
    requires DistinctIdsIn(plan) && KeysUnique(db)
    requires Stores(plan, t, db, a, j) && Stores(plan, t, db, b, k)
    requires a.side == b.side && plan[j].txn == plan[k].txn
    ensures a == b && j == k
  {
    assert SameKey(db, a, b);
  }

  /** The matcher's verdict on the stored rows of one planned transaction is its verdict on
      the plan. */
  lemma StoredVerdict(plan: seq<Planned>, t: nat, db: Db, g: Ref, l: Ref, k: nat, cfg: Config)
    requires g.side.Gateway? && l.side.Ledger?
    requires Stores(plan, t, db, g, k) && Stores(plan, t, db, l, k)
    ensures ClassifyPair(db.rows[g].facts, db.rows[l].facts, cfg) == PlanVerdict(plan[k], cfg)
  {
    VerdictIgnoresIds(plan[k], t, g.id, l.id, db.rows[g].facts.received, db.rows[l].facts.received, cfg);
  }

  /** A stored row of this tenant with a planned txn_id is a side of that transaction. */
  lemma RowOfTxn(plan: seq<Planned>, t: nat, db: Db, ref: Ref, k: nat)
    requires DistinctIdsIn(plan) && RowsPlanned(plan, t, db)
    requires k < |plan| && ref in db.rows && db.rows[ref].facts.tenant == t && db.rows[ref].facts.txn == plan[k].txn
    ensures Stores(plan, t, db, ref, k)
  {
    var j: nat :| Stores(plan, t, db, ref, j);
  }

  /** An active result on a planned row either breaks it or pairs the two rows of its own
      planned transaction, with the verdict the plan predicts. */
  lemma ActiveResultShape(st: Settings, plan: seq<Planned>, t: nat, db: Db, r: nat, ref: Ref, k: nat)
    returns (g: Ref, l: Ref)
    requires DistinctIdsIn(plan) && AllJustified(st, db) && RowsPlanned(plan, t, db)
    requires ActiveOn(db, r, ref) && !IsBreak(db.results[r]) && Stores(plan, t, db, ref, k)
    ensures g.side.Gateway? && l.side.Ledger? && Stores(plan, t, db, g, k) && Stores(plan, t, db, l, k)
    ensures ActiveOn(db, r, g) && ActiveOn(db, r, l) && (ref == g || ref == l)
    ensures PlanVerdict(plan[k], st.cfg) == Some(Verdict(db.results[r].status, db.results[r].layer))
  {
    var res := db.results[r];
    assert PairJustified(st, db, res) by { assert Justified(st, db, res); }
    g, l := Ref(Gateway, res.gateway.value), Ref(Ledger, res.ledger.value);
    ViableAgrees(db.rows[g].facts, db.rows[l].facts, st.cfg);
    RowOfTxn(plan, t, db, g, k);
    RowOfTxn(plan, t, db, l, k);
    StoredVerdict(plan, t, db, g, l, k, st.cfg);
  }

  /* ----------------------------- No false break ----------------------------- */

  /** What a sweeper's read establishes: if it found nobody although the plan pairs the row,
      the partner was settled, and by this very row. */
  lemma SweepReadHarmless(st: Settings, plan: seq<Planned>, t: nat, s: Sys, step: Step)
    requires DistinctIdsIn(plan) && WindowsNest(st.cfg)
    requires Enabled(st, s, step) && step.SweepRead? && step.partner.None? && Conforms(plan, t, s, step)
    requires DbInv(st, s.db) && RowsPlanned(plan, t, s.db) && NoFalseBreak(st, plan, t, s.db)
    requires Known(s.db, s.agents[step.agent].queue[0])
    ensures GiveUpHarmless(st, plan, t, s.db, s.agents[step.agent].queue[0])
  {
    var c := s.agents[step.agent].queue[0];
    forall k: nat | c.tenant == t && Stores(plan, t, s.db, RefOf(c), k) && Pairable(plan[k], st.cfg)
      ensures !IsPending(s.db, RefOf(c))
    {
      assert SideStored(plan, t, s.db, k, Other(c.side));
      var o: Ref :| o.side == Other(c.side) && Stores(plan, t, s.db, o, k);
      PartnerSettled(st, plan, t, s.db, c, o, k);
    }
  }

  lemma PartnerSettled(st: Settings, plan: seq<Planned>, t: nat, db: Db, c: Facts, o: Ref, k: nat)
    requires DistinctIdsIn(plan) && WindowsNest(st.cfg) && c.tenant == t
    requires IdsBelowNext(db) && KeysUnique(db) && AllJustified(st, db) && ReconciledByResult(db)
    requires RowsPlanned(plan, t, db) && NoFalseBreak(st, plan, t, db)
    requires BestPartner(c, Candidates(db, c, st.cfg), st.cfg, None)
    requires Stores(plan, t, db, RefOf(c), k) && db.rows[RefOf(c)].facts == c && Pairable(plan[k], st.cfg)
    requires o.side == Other(c.side) && Stores(plan, t, db, o, k)
    ensures !IsPending(db, RefOf(c))
  {
    var of := db.rows[o].facts;
    if c.side.Gateway? { StoredVerdict(plan, t, db, RefOf(c), o, k, st.cfg); }
    else { StoredVerdict(plan, t, db, o, RefOf(c), k, st.cfg); ClassifyPairSymmetric(c, of, st.cfg); }
    if IsPending(db, o) { DeferredFoundNobody(st, db, c, o); }
    var r :| ActiveOn(db, r, o);
    var g, l := ActiveResultShape(st, plan, t, db, r, o, k);
    OneRowPerSide(plan, t, db, if c.side.Gateway? then g else l, RefOf(c), k, k);
    assert ActiveOn(db, r, RefOf(c));
  }

  ghost predicate HonestSoFar(st: Settings, plan: seq<Planned>, t: nat, s: Sys) {
    RowsPlanned(plan, t, s.db) && NoFalseBreak(st, plan, t, s.db) && SweepersHarmless(st, plan, t, s)
  }

  lemma StoresBefore(plan: seq<Planned>, t: nat, db: Db, db': Db, retired: Option<nat>, ref: Ref, k: nat)
    requires RowsEvolve(db, db', retired) && ref in db.rows && Stores(plan, t, db', ref, k)
    ensures Stores(plan, t, db, ref, k)
  {
  }

  lemma NewBreakIsGiveUp(st: Settings, db: Db, now: int, i: Intent, ref: Ref)
    requires TenantsAgree(db) && ReconciledByResult(db) && IntentSound(st, db, now, i)
    requires OutcomeOf(db, DecisionOf(i, st.cfg), i.candidate.tenant).Written?
    requires DecisionOf(i, st.cfg).status in {UnmatchedGatewayOnly, UnmatchedLedgerOnly}
    requires DecisionNames(DecisionOf(i, st.cfg), ref)
    ensures i.GiveUp? && RefOf(i.candidate) == ref && IsPending(db, ref) && db.rows[ref].facts == i.candidate
  {
    if i.Pair? { ViableAgrees(i.candidate, i.partner, st.cfg); }
    IntentRowsFree(st, db, now, i);
    assert RowFree(db, DecisionOf(i, st.cfg), i.candidate.tenant, ref);
    IntentRows(st, db, now, i, ref);
  }

  lemma ApplyKeepsNoFalseBreak(st: Settings, plan: seq<Planned>, t: nat, db: Db, now: int, i: Intent)
    requires IdsBelowNext(db) && TenantsAgree(db) && ReconciledByResult(db) && IntentSound(st, db, now, i)
    requires NoFalseBreak(st, plan, t, db) && (i.GiveUp? ==> GiveUpHarmless(st, plan, t, db, i.candidate))
    ensures NoFalseBreak(st, plan, t, Apply(db, DecisionOf(i, st.cfg), i.candidate.tenant, now))
  {
    var d := DecisionOf(i, st.cfg);
    var db' := Apply(db, d, i.candidate.tenant, now);
    InsertedRows(db, d, i.candidate.tenant, now);
    forall r, ref, k: nat | ActiveOn(db', r, ref) && IsBreak(db'.results[r]) && Stores(plan, t, db', ref, k)
      ensures !Pairable(plan[k], st.cfg)
    {
      assert Stores(plan, t, db, ref, k);
      if r in db.results {
        assert ActiveOn(db, r, ref);
      } else {
        NewBreakIsGiveUp(st, db, now, i, ref);
      }
    }
  }

  /** A commit that breaks a row was not of a pairable transaction. */
  lemma CommitKeepsNoFalseBreak(st: Settings, plan: seq<Planned>, t: nat, s: Sys, step: Step)
    requires Enabled(st, s, step) && SysInv(st, s) && TasksNamed(s) && HonestSoFar(st, plan, t, s)
    requires Committed(s, step).Some?
    ensures NoFalseBreak(st, plan, t, Exec(st, s, step).db)
  {
    CommitIsApply(st, s, step);
    var i := Committed(s, step).value;
    assert TaskSound(st, s, s.agents[step.agent]) && TaskNamed(s, s.agents[step.agent]);
    if i.GiveUp? { assert GivingUp(s, step.agent); }
    ApplyKeepsNoFalseBreak(st, plan, t, s.db, s.now, i);
  }

  /** Steps that commit nothing add no results. */
  lemma OtherStepsAddNoResult(st: Settings, s: Sys, step: Step)
    requires Enabled(st, s, step) && Committed(s, step).None?
    ensures forall r :: r in Exec(st, s, step).db.results ==> r in s.db.results
  {
    if step.Retire? {
      RetireStepDb(st, s, step);
      DeleteLeavesOthers(s.db, step.tenant);
    } else if step.IngestKey? {
      IngestStepDb(st, s, step);
    } else if step.CloseException? {
      CloseStepDb(st, s, step);
    } else {
      QuietStepDb(st, s, step);
    }
    hide Exec, Enabled, DeleteTenant, LandsOn, MessageAfter;
  }

  lemma OtherKeepsNoFalseBreak(st: Settings, plan: seq<Planned>, t: nat, s: Sys, step: Step)
    requires Enabled(st, s, step) && IdsBelowNext(s.db) && ForeignKeys(s.db) && NoFalseBreak(st, plan, t, s.db)
    requires Committed(s, step).None?
    ensures NoFalseBreak(st, plan, t, Exec(st, s, step).db)
  {
    var db, db' := s.db, Exec(st, s, step).db;
    StepEvolves(st, s, step);
    OtherStepsAddNoResult(st, s, step);
    forall r, ref, k: nat | ActiveOn(db', r, ref) && IsBreak(db'.results[r]) && Stores(plan, t, db', ref, k)
      ensures !Pairable(plan[k], st.cfg)
    {
      assert ActiveOn(db, r, ref) && db.results[r].Names(ref);
      StoresBefore(plan, t, db, db', RetiredBy(step), ref, k);
    }
  }

  lemma HarmlessStays(st: Settings, plan: seq<Planned>, t: nat, s: Sys, step: Step, c: Facts)
    requires Enabled(st, s, step) && IdsBelowNext(s.db) && Known(s.db, c)
    requires GiveUpHarmless(st, plan, t, s.db, c)
    ensures GiveUpHarmless(st, plan, t, Exec(st, s, step).db, c)
  {
    StepEvolves(st, s, step);
    hide Exec, Enabled, IdsBelowNext, ResultsEvolve, CasesEvolve;
    forall k: nat | c.tenant == t && Stores(plan, t, Exec(st, s, step).db, RefOf(c), k) && Pairable(plan[k], st.cfg)
      ensures !IsPending(Exec(st, s, step).db, RefOf(c))
    {
      StoresBefore(plan, t, s.db, Exec(st, s, step).db, RetiredBy(step), RefOf(c), k);
    }
  }

  lemma NextKeepsHarmless(st: Settings, plan: seq<Planned>, t: nat, s: Sys, step: Step)
    requires DistinctIdsIn(plan) && WindowsNest(st.cfg)
    requires Enabled(st, s, step) && SysInv(st, s) && HonestSoFar(st, plan, t, s) && Conforms(plan, t, s, step)
    ensures SweepersHarmless(st, plan, t, Exec(st, s, step))
  {
    forall a | GivingUp(Exec(st, s, step), a)
      ensures GiveUpHarmless(st, plan, t, Exec(st, s, step).db, Exec(st, s, step).agents[a].target.candidate)
    {
      OtherAgentsIdle(st, s, step, a);
      if a in s.agents && Exec(st, s, step).agents[a] == s.agents[a] {
        assert GivingUp(s, a) && TaskSound(st, s, s.agents[a]);
        hide Exec, Enabled, AgentsSound, EntriesSane, Conforms, RowsPlanned, NoFalseBreak, GiveUpHarmless;
        HarmlessStays(st, plan, t, s, step, s.agents[a].target.candidate);
      } else {
        NewGiveUp(st, s, step, a);
        hide Exec, Enabled, AgentsSound, EntriesSane, Conforms, RowsPlanned, NoFalseBreak, GiveUpHarmless;
        SweepReadHarmless(st, plan, t, s, step);
      }
    }
  }

  /** A give-up begins with a read that found nobody for a listed, known row. */
  lemma NewGiveUp(st: Settings, s: Sys, step: Step, a: nat)
    requires Enabled(st, s, step) && AgentsSound(st, s) && GivingUp(Exec(st, s, step), a)
    requires !(a in s.agents && Exec(st, s, step).agents[a] == s.agents[a])
    ensures step.SweepRead? && step.agent == a && step.partner.None?
    ensures a in s.agents && s.agents[a].Listing? && s.agents[a].queue != []
    ensures Exec(st, s, step).agents[a].target.candidate == s.agents[a].queue[0] && Exec(st, s, step).db == s.db
    ensures Known(s.db, s.agents[a].queue[0])
  {
    OtherAgentsIdle(st, s, step, a);
    assert step.agent == a;
    if step.SweepRead? {
      assert TaskSound(st, s, s.agents[a]) && s.agents[a].queue[0] in s.agents[a].queue;
    }
    hide Apply, OutcomeOf, DecisionOf, BestPartner, Candidates, Stale;
  }

  lemma NextKeepsHonest(st: Settings, plan: seq<Planned>, t: nat, s: Sys, step: Step)
    requires DistinctIdsIn(plan) && WindowsNest(st.cfg)
    requires Enabled(st, s, step) && Tracked(st, s) && HonestSoFar(st, plan, t, s) && Conforms(plan, t, s, step)
    ensures HonestSoFar(st, plan, t, Exec(st, s, step))
  {
    NextKeepsPlanned(st, plan, t, s, step);
    NextKeepsHarmless(st, plan, t, s, step);
    if Committed(s, step).Some? {
      CommitKeepsNoFalseBreak(st, plan, t, s, step);
    } else {
      OtherKeepsNoFalseBreak(st, plan, t, s, step);
    }
  }

  lemma RunStepKeepsHonest(st: Settings, plan: seq<Planned>, t: nat, run: Run, i: nat)
    requires IsRun(st, run) && i < |run.steps| && DistinctIdsIn(plan) && WindowsNest(st.cfg)
    requires Conforms(plan, t, run.states[i], run.steps[i]) && HonestSoFar(st, plan, t, run.states[i])
    ensures HonestSoFar(st, plan, t, run.states[i + 1])
  {
    RunTracked(st, run, i);
    RunStep(st, run, i);
    NextKeepsHonest(st, plan, t, run.states[i], run.steps[i]);
  }

  lemma {:induction false} RunKeepsHonest(st: Settings, plan: seq<Planned>, t: nat, run: Run, i: nat)
    requires IsRun(st, run) && i < |run.states| && DistinctIdsIn(plan) && WindowsNest(st.cfg)
    requires forall k :: 0 <= k < i ==> Conforms(plan, t, run.states[k], run.steps[k])
    ensures HonestSoFar(st, plan, t, run.states[i])
  {
    if i > 0 {
      RunKeepsHonest(st, plan, t, run, i - 1);
      RunStepKeepsHonest(st, plan, t, run, i - 1);
    }
  }
}
