/** Breaks that should have been pairs: exactly which commits manufacture them.  Everything
    here is about all runs, with reads and commits split and decisions stale. */
module Breaks {
  import opened Matching
  import opened Tables
  import opened TablesProofs
  import opened Protocol
  import opened Safety
  import opened Delivery
  import opened Progress

  ghost predicate Paired(db: Db, ref: Ref) {
    exists r :: ActiveOn(db, r, ref) && db.results[r].status in {Matched, AmountDrift}
  }

  ghost predicate Broken(db: Db, ref: Ref) {
    exists r :: ActiveOn(db, r, ref) && db.results[r].status in {UnmatchedGatewayOnly, UnmatchedLedgerOnly}
  }

  ghost predicate StillWhole(db: Db, g: Facts, l: Facts) {
    || (PendingFacts(db, g) && PendingFacts(db, l))
    || Paired(db, RefOf(g)) || Paired(db, RefOf(l))
    || RefOf(g) !in db.rows || RefOf(l) !in db.rows
  }

  lemma PairWritePairs(st: Settings, db: Db, now: int, c: Facts, p: Facts, ref: Ref)
    requires Viable(c, p, st.cfg) && DecisionNames(PairDecision(c, p, st.cfg), ref)
    ensures Paired(InsertResult(db, PairDecision(c, p, st.cfg), c.tenant, now), ref)
  {
    ViableAgrees(c, p, st.cfg);
    assert ActiveOn(InsertResult(db, PairDecision(c, p, st.cfg), c.tenant, now), db.nextResult, ref);
  }

  /** A give-up on one of two rows, written while both are still pending. */
  predicate StaleGiveUp(s: Sys, step: Step, g: Facts, l: Facts) {
    && step.SweepCommit? && Committed(s, step).Some? && Committed(s, step).value.GiveUp?
    && (Committed(s, step).value.candidate == g || Committed(s, step).value.candidate == l)
    && PendingFacts(s.db, g) && PendingFacts(s.db, l)
  }

  /** Committing anything else while both rows are pending leaves both pending or pairs one. */
  lemma OtherCommitKeepsWhole(st: Settings, db: Db, now: int, i: Intent, g: Facts, l: Facts)
    requires IdsBelowNext(db) && IntentSound(st, db, now, i)
    requires PendingFacts(db, g) && PendingFacts(db, l)
    requires i.GiveUp? ==> i.candidate != g && i.candidate != l
    ensures StillWhole(Apply(db, DecisionOf(i, st.cfg), i.candidate.tenant, now), g, l)
  {
    var d := DecisionOf(i, st.cfg);
    if OutcomeOf(db, d, i.candidate.tenant).Written? {
      InsertedRows(db, d, i.candidate.tenant, now);
      match i
      case Pair(c, p) =>
        if DecisionNames(d, RefOf(g)) { PairWritePairs(st, db, now, c, p, RefOf(g)); }
        if DecisionNames(d, RefOf(l)) { PairWritePairs(st, db, now, c, p, RefOf(l)); }
      case Mark(c) =>
      case GiveUp(c) =>
    }
  }

  lemma PairedStays(st: Settings, s: Sys, step: Step, ref: Ref)
    requires Enabled(st, s, step) && IdsBelowNext(s.db) && TenantsAgree(s.db) && ForeignKeys(s.db) && Paired(s.db, ref)
    ensures Paired(Exec(st, s, step).db, ref) || ref !in Exec(st, s, step).db.rows
  {
    StepEvolves(st, s, step);
    var r :| ActiveOn(s.db, r, ref) && s.db.results[r].status in {Matched, AmountDrift};
    assert s.db.results[r].Names(ref);
    if step.Retire? {
      RetireStepDb(st, s, step);
      DeleteLeavesOthers(s.db, step.tenant);
    }
    hide Exec, Enabled, DeleteTenant, DbInv, RowsEvolve, CasesEvolve, SequencesAdvance;
    if r in Exec(st, s, step).db.results {
      assert ActiveOn(Exec(st, s, step).db, r, ref);
    }
  }

  lemma OtherStepsSettleNothing(st: Settings, s: Sys, step: Step, f: Facts)
    requires Enabled(st, s, step) && Committed(s, step).None? && PendingFacts(s.db, f)
    ensures PendingFacts(Exec(st, s, step).db, f) || RefOf(f) !in Exec(st, s, step).db.rows
  {
    if step.Retire? {
      RetireStepDb(st, s, step);
      DeleteLeavesOthers(s.db, step.tenant);
    } else if step.IngestKey? {
      IngestStepDb(st, s, step);
    } else if step.CloseException? {
      CloseStepDb(st, s, step);
    } else {
      QuietStepDb(st, s, step);
    }
    hide Exec, Enabled, DeleteTenant, LandsOn, MessageAfter;
  }

  lemma CommitKeepsWhole(st: Settings, s: Sys, step: Step, g: Facts, l: Facts)
    requires Enabled(st, s, step) && Tracked(st, s) && Committed(s, step).Some?
    requires PendingFacts(s.db, g) && PendingFacts(s.db, l) && !StaleGiveUp(s, step, g, l)
    ensures StillWhole(Exec(st, s, step).db, g, l)
  {
    hide Enabled, Exec, StillWhole, LogSound, LogFaithful, EntriesSane;
    assert TaskNamed(s, s.agents[step.agent]);
    CommittedSound(st, s, step);
    CommitIsApply(st, s, step);
    OtherCommitKeepsWhole(st, s.db, s.now, Committed(s, step).value, g, l);
  }

  lemma NextKeepsWhole(st: Settings, s: Sys, step: Step, g: Facts, l: Facts)
    requires Enabled(st, s, step) && Tracked(st, s) && StillWhole(s.db, g, l)
    requires Known(s.db, g) && Known(s.db, l) && !StaleGiveUp(s, step, g, l)
    ensures StillWhole(Exec(st, s, step).db, g, l)
  {
    StepEvolves(st, s, step);
    hide Exec, Enabled, Paired, StaleGiveUp, AgentsSound, EntriesSane, LogSound, LogFaithful, TasksNamed;
    hide KeysUnique, OneActive, OneMarker, ReconciledByResult, AllJustified, CasesMatch;
    if Paired(s.db, RefOf(g)) {
      PairedStays(st, s, step, RefOf(g));
    } else if Paired(s.db, RefOf(l)) {
      PairedStays(st, s, step, RefOf(l));
    } else if PendingFacts(s.db, g) && PendingFacts(s.db, l) {
      if Committed(s, step).Some? {
        CommitKeepsWhole(st, s, step, g, l);
      } else {
        OtherStepsSettleNothing(st, s, step, g);
        OtherStepsSettleNothing(st, s, step, l);
      }
    }
  }

  lemma FactsFixed(st: Settings, run: Run, i: nat, j: nat, f: Facts)
    requires IsRun(st, run) && i <= j < |run.states| && PendingFacts(run.states[i].db, f)
    ensures Known(run.states[j].db, f)
  {
    RowFactsFixed(st, run, i, j, RefOf(f));
  }

  /** No step from `i` up to `j` writes a stale give-up on either row. */
  predicate NoStaleGiveUp(run: Run, i: nat, j: nat, g: Facts, l: Facts)
    requires i <= j <= |run.steps| && |run.states| == |run.steps| + 1
  {
    forall k :: i <= k < j ==> !StaleGiveUp(run.states[k], run.steps[k], g, l)
  }

  lemma RunStepKeepsWhole(st: Settings, run: Run, k: nat, g: Facts, l: Facts)
    requires IsRun(st, run) && k < |run.steps| && StillWhole(run.states[k].db, g, l)
    requires Known(run.states[k].db, g) && Known(run.states[k].db, l)
    requires !StaleGiveUp(run.states[k], run.steps[k], g, l)
    ensures StillWhole(run.states[k + 1].db, g, l)
  {
    RunTracked(st, run, k);
    RunStep(st, run, k);
    NextKeepsWhole(st, run.states[k], run.steps[k], g, l);
  }

  lemma {:induction false} RunKeepsWhole(st: Settings, run: Run, i: nat, j: nat, g: Facts, l: Facts)
    requires IsRun(st, run) && i <= j < |run.states| && NoStaleGiveUp(run, i, j, g, l)
    requires PendingFacts(run.states[i].db, g) && PendingFacts(run.states[i].db, l)
    ensures StillWhole(run.states[j].db, g, l)
    decreases j - i
  {
    hide Enabled, Exec, StaleGiveUp;
    if i < j {
      RunKeepsWhole(st, run, i, j - 1, g, l);
      FactsFixed(st, run, i, j - 1, g);
      FactsFixed(st, run, i, j - 1, l);
      RunStepKeepsWhole(st, run, j - 1, g, l);
    }
  }

  lemma BrokenNotWhole(db: Db, g: Facts, l: Facts)
    requires ForeignKeys(db) && ReconciledByResult(db) && OneActive(db) && StillWhole(db, g, l)
    ensures !(Broken(db, RefOf(g)) && Broken(db, RefOf(l)))
  {
    BrokenIsSettled(db, RefOf(g));
    BrokenIsSettled(db, RefOf(l));
  }

  lemma BrokenIsSettled(db: Db, ref: Ref)
    requires ForeignKeys(db) && ReconciledByResult(db) && OneActive(db)
    ensures Broken(db, ref) ==> ref in db.rows && !IsPending(db, ref) && !Paired(db, ref)
  {
    forall r | ActiveOn(db, r, ref) ensures ref in db.rows { assert db.results[r].Names(ref); }
  }

  /** Necessity: in any run whatever, two rows that were ever pending together both end as
      unmatched only if a give-up on one of them was written while both were pending. */
  lemma BreaksOnlyByStaleGiveUp(st: Settings, run: Run, i: nat, j: nat, g: Ref, l: Ref) returns (k: nat)
    requires IsRun(st, run) && i <= j < |run.states|
    requires IsPending(run.states[i].db, g) && IsPending(run.states[i].db, l)
    requires Broken(run.states[j].db, g) && Broken(run.states[j].db, l)
    ensures i <= k < j
    ensures StaleGiveUp(run.states[k], run.steps[k], run.states[i].db.rows[g].facts, run.states[i].db.rows[l].facts)
  {
    var gf, lf := run.states[i].db.rows[g].facts, run.states[i].db.rows[l].facts;
    StoredIsKnown(st, run, i, g);
    StoredIsKnown(st, run, i, l);
    hide Enabled, Exec, Broken, StillWhole, StaleGiveUp;
    if NoStaleGiveUp(run, i, j, gf, lf) {
      RunKeepsWhole(st, run, i, j, gf, lf);
      RunNotWhole(st, run, j, gf, lf);
      assert false;
    }
    k :| i <= k < j && StaleGiveUp(run.states[k], run.steps[k], gf, lf);
  }

  lemma RunNotWhole(st: Settings, run: Run, j: nat, g: Facts, l: Facts)
    requires IsRun(st, run) && j < |run.states| && StillWhole(run.states[j].db, g, l)
    ensures !(Broken(run.states[j].db, RefOf(g)) && Broken(run.states[j].db, RefOf(l)))
  {
    hide Enabled, Exec, Broken, StillWhole;
    RunKeepsInv(st, run, j);
    BrokenNotWhole(run.states[j].db, g, l);
  }

  /* -------------------------------- Sufficiency -------------------------------- */

  /** A give-up on a pending row is always written. */
  lemma GiveUpIsWritten(db: Db, c: Facts)
    requires IdsBelowNext(db) && ForeignKeys(db) && ReconciledByResult(db) && PendingFacts(db, c)
    ensures OutcomeOf(db, UnmatchedDecision(c), c.tenant).Written?
  {
    var d := UnmatchedDecision(c);
    forall r | r in db.results ensures !Clashes(db.results[r], d, c.tenant) {
      assert !ActiveOn(db, r, RefOf(c));
    }
  }

  lemma GiveUpBreaks(st: Settings, run: Run, k: nat, g: Facts, l: Facts) returns (c: Facts)
    requires IsRun(st, run) && k < |run.steps| && StaleGiveUp(run.states[k], run.steps[k], g, l)
    ensures c == Committed(run.states[k], run.steps[k]).value.candidate && (c == g || c == l)
    ensures Broken(run.states[k + 1].db, RefOf(c))
  {
    var s := run.states[k];
    c := Committed(s, run.steps[k]).value.candidate;
    RunKeepsInv(st, run, k);
    RunStep(st, run, k);
    CommitIsApply(st, s, run.steps[k]);
    hide Enabled, Exec;
    GiveUpIsWritten(s.db, c);
    assert ActiveOn(run.states[k + 1].db, s.db.nextResult, RefOf(c));
  }

  lemma BrokenStays(st: Settings, s: Sys, step: Step, ref: Ref)
    requires Enabled(st, s, step) && IdsBelowNext(s.db) && TenantsAgree(s.db) && ForeignKeys(s.db) && Broken(s.db, ref)
    ensures Broken(Exec(st, s, step).db, ref) || Gone(Exec(st, s, step).db, ref)
  {
    StepEvolves(st, s, step);
    var r :| ActiveOn(s.db, r, ref) && s.db.results[r].status in {UnmatchedGatewayOnly, UnmatchedLedgerOnly};
    assert s.db.results[r].Names(ref);
    if step.Retire? {
      RetireStepDb(st, s, step);
      DeleteLeavesOthers(s.db, step.tenant);
    }
    hide Exec, Enabled, DeleteTenant, CasesEvolve;
    if r in Exec(st, s, step).db.results {
      assert ActiveOn(Exec(st, s, step).db, r, ref);
    }
  }

  lemma RunStepKeepsBroken(st: Settings, run: Run, k: nat, ref: Ref)
    requires IsRun(st, run) && k < |run.steps| && (Broken(run.states[k].db, ref) || Gone(run.states[k].db, ref))
    ensures Broken(run.states[k + 1].db, ref) || Gone(run.states[k + 1].db, ref)
  {
    hide Enabled, Exec, Broken;
    if Broken(run.states[k].db, ref) {
      RunKeepsInv(st, run, k);
      RunStep(st, run, k);
      BrokenStays(st, run.states[k], run.steps[k], ref);
    } else {
      RunStepKeepsGone(st, run, k, ref);
    }
  }

  lemma {:induction false} RunKeepsBroken(st: Settings, run: Run, i: nat, j: nat, ref: Ref)
    requires IsRun(st, run) && i <= j < |run.states| && Broken(run.states[i].db, ref)
    ensures Broken(run.states[j].db, ref) || Gone(run.states[j].db, ref)
    decreases j - i
  {
    hide Enabled, Exec, Broken;
    if i < j {
      RunKeepsBroken(st, run, i, j - 1, ref);
      RunStepKeepsBroken(st, run, j - 1, ref);
    }
  }

  /** With one half broken, the other half of a pair that had no other partner can only end
      as broken too. */
  lemma OtherHalfBroken(st: Settings, db: Db, c: Ref, o: Ref)
    requires IdsBelowNext(db) && ForeignKeys(db) && ReconciledByResult(db) && OneActive(db) && AllJustified(st, db)
    requires DistinctTxns(db) && Broken(db, c) && c in db.rows && o in db.rows && !db.rows[o].Pending()
    requires Viable(db.rows[c].facts, db.rows[o].facts, st.cfg)
    ensures Broken(db, o)
  {
    var b :| ActiveOn(db, b, c) && db.results[b].status in {UnmatchedGatewayOnly, UnmatchedLedgerOnly};
    var r :| ActiveOn(db, r, o);
    ViableAgrees(db.rows[c].facts, db.rows[o].facts, st.cfg);
    assert Justified(st, db, db.results[r]);
    if db.results[r].status in {Matched, AmountDrift} {
      var p := PartnerOf(st, db, r, o);
      assert SameTxn(db, p, c);
    }
  }

  /** The other row of a pairing: on the other side, with the same tenant and txn_id. */
  lemma PartnerOf(st: Settings, db: Db, r: nat, o: Ref) returns (p: Ref)
    requires IdsBelowNext(db) && ActiveOn(db, r, o) && o in db.rows && PairJustified(st, db, db.results[r])
    ensures ActiveOn(db, r, p) && p in db.rows && p.side == Other(o.side)
    ensures db.rows[p].facts.tenant == db.rows[o].facts.tenant && db.rows[p].facts.txn == db.rows[o].facts.txn
  {
    var g, l := Ref(Gateway, db.results[r].gateway.value), Ref(Ledger, db.results[r].ledger.value);
    ViableAgrees(db.rows[g].facts, db.rows[l].facts, st.cfg);
    p := if o.side.Gateway? then l else g;
  }

  /** The exact condition.  Two matchable rows with no other partner, once pending together
      and both settled since, are both breaks if and only if a give-up on one of them was
      written while the other was pending too. */
  lemma BrokenPairExactly(st: Settings, run: Run, i: nat, j: nat, g: Ref, l: Ref)
    requires IsRun(st, run) && i <= j < |run.states|
    requires Compatible(st, run.states[i].db, g, l)
    requires DistinctTxns(run.states[j].db)
    requires Settled(run.states[j].db, g) && Settled(run.states[j].db, l)
    ensures Broken(run.states[j].db, g) && Broken(run.states[j].db, l)
            <==> !NoStaleGiveUp(run, i, j, run.states[i].db.rows[g].facts, run.states[i].db.rows[l].facts)
  {
    var gf, lf := run.states[i].db.rows[g].facts, run.states[i].db.rows[l].facts;
    hide Enabled, Exec, Broken, StaleGiveUp;
    if Broken(run.states[j].db, g) && Broken(run.states[j].db, l) {
      var k := BreaksOnlyByStaleGiveUp(st, run, i, j, g, l);
    }
    if k :| i <= k < j && StaleGiveUp(run.states[k], run.steps[k], gf, lf) {
      StaleGiveUpBreaksBoth(st, run, i, j, k, g, l);
    }
  }

  predicate Settled(db: Db, ref: Ref) { ref in db.rows && !db.rows[ref].Pending() }

  lemma StaleGiveUpBreaksBoth(st: Settings, run: Run, i: nat, j: nat, k: nat, g: Ref, l: Ref)
    requires IsRun(st, run) && i <= k < j < |run.states|
    requires Compatible(st, run.states[i].db, g, l) && DistinctTxns(run.states[j].db)
    requires Settled(run.states[j].db, g) && Settled(run.states[j].db, l)
    requires StaleGiveUp(run.states[k], run.steps[k], run.states[i].db.rows[g].facts, run.states[i].db.rows[l].facts)
    ensures Broken(run.states[j].db, g) && Broken(run.states[j].db, l)
  {
    var gf, lf := run.states[i].db.rows[g].facts, run.states[i].db.rows[l].facts;
    RowFactsFixed(st, run, i, j, g);
    RowFactsFixed(st, run, i, j, l);
    var c := GiveUpBreaks(st, run, k, gf, lf);
    RunKeepsBroken(st, run, k + 1, j, RefOf(c));
    RunKeepsInv(st, run, j);
    ClassifyPairSymmetric(gf, lf, st.cfg);
    hide Enabled, Exec, Broken, StaleGiveUp;
    OtherHalfBroken(st, run.states[j].db, RefOf(c), if c == gf then l else g);
  }
}
