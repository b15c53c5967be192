/** Nothing that could be paired is left waiting silently, and nothing that could be paired is
    reported as two breaks. */
module Progress {
  import opened Basics
  import opened Matching
  import opened Tables
  import opened TablesProofs
  import opened Protocol
  import opened Safety
  import opened Delivery

  /** Two pending rows the matcher would pair. */
  predicate Compatible(st: Settings, db: Db, g: Ref, l: Ref) {
    IsPending(db, g) && IsPending(db, l) && Viable(db.rows[g].facts, db.rows[l].facts, st.cfg)
  }

  /** The message a row's first receipt produced. */
  predicate FirstReceipt(db: Db, e: nat, ref: Ref) {
    e in db.outbox && !db.outbox[e].msg.isDuplicate && MessageRef(db.outbox[e].msg) == ref
  }

  /** A row that could have been paired with `ref` has been settled otherwise. */
  ghost predicate Spent(st: Settings, db: Db, ref: Ref) {
    && ref in db.rows
    && exists o :: o in db.rows && !db.rows[o].Pending() && Viable(db.rows[ref].facts, db.rows[o].facts, st.cfg)
  }

  /* ---------------------------- Bookkeeping ---------------------------- */

  ghost predicate LogFaithful(s: Sys) {
    && (forall n :: n in s.log ==> s.log[n].event in s.db.outbox && s.db.outbox[s.log[n].event].msg == s.log[n].msg)
    && (forall e :: e in s.processed ==> e in s.db.outbox)
    && (forall ref :: ref in s.deferred ==> ref.id < NextId(s.db, ref.side))
  }

  predicate TaskNamed(s: Sys, t: Task) {
    t.Working? ==>
      && t.entry in s.log && s.log[t.entry] == t.item
      && match t.intent
         case None => !t.item.msg.isDuplicate && MessageRef(t.item.msg) in s.deferred
         case Some(Pair(c, _)) => !t.item.msg.isDuplicate && RefOf(c) == MessageRef(t.item.msg)
         case Some(Mark(c)) => t.item.msg.isDuplicate && RefOf(c) == MessageRef(t.item.msg)
         case Some(GiveUp(_)) => false
  }

  ghost predicate TasksNamed(s: Sys) { forall a :: a in s.agents ==> TaskNamed(s, s.agents[a]) }

  lemma LogAndHistoryGrow(st: Settings, s: Sys, step: Step)
    requires Enabled(st, s, step) && LogSound(s)
    ensures var s' := Exec(st, s, step);
      && (forall n :: n in s.log ==> n in s'.log && s'.log[n] == s.log[n])
      && s.deferred <= s'.deferred && s.processed <= s'.processed
  {
    hide Enabled, Ingest, Apply, CloseCase, DeleteTenant, MarkPublished, OutcomeOf, DecisionOf, ReadTask;
  }

  /** Where a newly processed event or a newly deferred row comes from. */
  lemma HistorySource(st: Settings, s: Sys, step: Step)
    requires Enabled(st, s, step) && TasksNamed(s)
    ensures var s' := Exec(st, s, step);
      && (forall e :: e in s'.processed && e !in s.processed ==>
            (step.WorkerRead? && e == s.log[step.entry].event && MessageRef(s.log[step.entry].msg) !in s.db.rows)
            || (step.WorkerCommit? && e == s.agents[step.agent].item.event && s.agents[step.agent].entry in s.log
                && s.agents[step.agent].item == s.log[s.agents[step.agent].entry]))
      && (forall ref :: ref in s'.deferred && ref !in s.deferred ==>
            step.WorkerRead? && ref == MessageRef(s.log[step.entry].msg) && ref in s.db.rows
            && !s.log[step.entry].msg.isDuplicate && step.partner.None?)
  {
    if step.WorkerCommit? { assert TaskNamed(s, s.agents[step.agent]); }
  }

  lemma LogSource(st: Settings, s: Sys, step: Step)
    requires Enabled(st, s, step)
    ensures forall n :: n in Exec(st, s, step).log && !(n in s.log && Exec(st, s, step).log[n] == s.log[n]) ==>
      Exec(st, s, step).log[n].event in s.db.outbox
      && Exec(st, s, step).log[n].msg == s.db.outbox[Exec(st, s, step).log[n].event].msg
  {
  }

  lemma NextKeepsFaithful(st: Settings, s: Sys, step: Step)
    requires Enabled(st, s, step) && IdsBelowNext(s.db) && LogFaithful(s) && TasksNamed(s)
    ensures LogFaithful(Exec(st, s, step))
  {
    OutboxGrows(st, s, step);
    StepEvolves(st, s, step);
    HistorySource(st, s, step);
    LogSource(st, s, step);
    FaithfulCarriesOver(s, Exec(st, s, step));
  }

  lemma FaithfulCarriesOver(s: Sys, s': Sys)
    requires LogFaithful(s) && IdsBelowNext(s.db) && SequencesAdvance(s.db, s'.db)
    requires forall n :: n in s'.log && !(n in s.log && s'.log[n] == s.log[n]) ==>
      s'.log[n].event in s.db.outbox && s'.log[n].msg == s.db.outbox[s'.log[n].event].msg
    requires forall e :: e in s'.processed && e !in s.processed ==> exists n :: n in s.log && s.log[n].event == e
    requires forall ref :: ref in s'.deferred && ref !in s.deferred ==> ref in s.db.rows
    ensures LogFaithful(s')
  {
  }

  lemma ReadNames(st: Settings, s: Sys, step: Step)
    requires Enabled(st, s, step) && step.WorkerRead? && IdsBelowNext(s.db)
    ensures TaskNamed(Exec(st, s, step), Exec(st, s, step).agents[step.agent])
  {
  }

  lemma NextKeepsNamed(st: Settings, s: Sys, step: Step)
    requires Enabled(st, s, step) && IdsBelowNext(s.db) && LogSound(s) && TasksNamed(s)
    ensures TasksNamed(Exec(st, s, step))
  {
    LogAndHistoryGrow(st, s, step);
    forall a | a in Exec(st, s, step).agents ensures TaskNamed(Exec(st, s, step), Exec(st, s, step).agents[a]) {
      OtherAgentsIdle(st, s, step, a);
      if step.WorkerRead? && step.agent == a {
        ReadNames(st, s, step);
      } else if a in s.agents && Exec(st, s, step).agents[a] == s.agents[a] {
        assert TaskNamed(s, s.agents[a]);
      }
    }
  }

  lemma {:induction false} RunKeepsNamed(st: Settings, run: Run, i: nat)
    requires IsRun(st, run) && i < |run.states|
    ensures LogFaithful(run.states[i]) && TasksNamed(run.states[i])
  {
    if i > 0 {
      RunKeepsNamed(st, run, i - 1);
      RunKeepsTransport(st, run, i - 1);
      RunStep(st, run, i - 1);
      NextKeepsFaithful(st, run.states[i - 1], run.steps[i - 1]);
      NextKeepsNamed(st, run.states[i - 1], run.steps[i - 1]);
    }
  }

  /* -------------- What a processed first receipt has achieved -------------- */

  /** A refused pairing means the candidate or its chosen partner was settled before. */
  lemma SkippedMeansSpent(st: Settings, db: Db, now: int, c: Facts, p: Facts)
    requires ForeignKeys(db) && ReconciledByResult(db) && IdsBelowNext(db)
    requires IntentSound(st, db, now, Pair(c, p))
    requires OutcomeOf(db, PairDecision(c, p, st.cfg), c.tenant).Skipped?
    ensures IsPending(db, RefOf(c)) ==> Spent(st, db, RefOf(c)) && !IsPending(db, RefOf(p))
  {
    ViableAgrees(c, p, st.cfg);
    var d := PairDecision(c, p, st.cfg);
    var r :| r in db.results && Clashes(db.results[r], d, c.tenant);
    if IsPending(db, RefOf(c)) {
      if db.results[r].Names(RefOf(c)) { assert ActiveOn(db, r, RefOf(c)); }
      assert db.results[r].Names(RefOf(p));
      assert ActiveOn(db, r, RefOf(p));
      assert RefOf(p) in db.rows && !db.rows[RefOf(p)].Pending();
    }
  }

  lemma WrittenSettles(db: Db, d: Decision, tenant: nat, now: int, ref: Ref)
    requires d.status != Duplicate && DecisionNames(d, ref)
    requires OutcomeOf(db, d, tenant).Written?
    ensures !IsPending(Apply(db, d, tenant, now), ref)
  {
    InsertedRows(db, d, tenant, now);
  }

  /** A pending row was pending before, unless it is new. */
  lemma PendingBefore(st: Settings, s: Sys, step: Step, ref: Ref)
    requires Enabled(st, s, step) && IdsBelowNext(s.db)
    requires IsPending(Exec(st, s, step).db, ref) && ref.id < NextId(s.db, ref.side)
    ensures IsPending(s.db, ref) && Exec(st, s, step).db.rows[ref].facts == s.db.rows[ref].facts
  {
    StepEvolves(st, s, step);
  }

  lemma SpentStays(st: Settings, s: Sys, step: Step, ref: Ref)
    requires Enabled(st, s, step) && IdsBelowNext(s.db)
    requires Spent(st, s.db, ref) && ref in Exec(st, s, step).db.rows
    ensures Spent(st, Exec(st, s, step).db, ref)
  {
    hide Enabled, Exec, IdsBelowNext, RowsEvolve, ResultsEvolve, CasesEvolve, SequencesAdvance, ClassifyPair;
    StepEvolves(st, s, step);
    var db' := Exec(st, s, step).db;
    var o :| o in s.db.rows && !s.db.rows[o].Pending() && Viable(s.db.rows[ref].facts, s.db.rows[o].facts, st.cfg);
    ViableAgrees(s.db.rows[ref].facts, s.db.rows[o].facts, st.cfg);
    SettledStays(st, s, step, o, ref);
    assert Viable(db'.rows[ref].facts, db'.rows[o].facts, st.cfg);
  }

  /** A settled row goes only with its tenant, and then takes every row of the tenant along. */
  lemma SettledStays(st: Settings, s: Sys, step: Step, o: Ref, ref: Ref)
    requires Enabled(st, s, step) && RowsEvolve(s.db, Exec(st, s, step).db, RetiredBy(step))
    requires o in s.db.rows && !s.db.rows[o].Pending() && ref in s.db.rows && ref in Exec(st, s, step).db.rows
    requires s.db.rows[o].facts.tenant == s.db.rows[ref].facts.tenant
    ensures var db' := Exec(st, s, step).db;
      o in db'.rows && !db'.rows[o].Pending() && db'.rows[o].facts == s.db.rows[o].facts
        && db'.rows[ref].facts == s.db.rows[ref].facts
  {
    if step.Retire? {
      RetireStepDb(st, s, step);
      DeleteLeavesOthers(s.db, step.tenant);
    }
    hide Enabled, Exec, DeleteTenant;
  }

  ghost predicate Tracked(st: Settings, s: Sys) {
    SysInv(st, s) && LogSound(s) && LogFaithful(s) && TasksNamed(s)
  }

  lemma RunTracked(st: Settings, run: Run, i: nat)
    requires IsRun(st, run) && i < |run.states|
    ensures Tracked(st, run.states[i])
  {
    RunKeepsInv(st, run, i);
    RunKeepsTransport(st, run, i);
    RunKeepsNamed(st, run, i);
  }

  /** A commit that finishes with an event was not rolled back. */
  lemma NotRolledBack(st: Settings, s: Sys, step: Step, e: nat)
    requires Enabled(st, s, step) && step.WorkerCommit? && e in Exec(st, s, step).processed && e !in s.processed
    ensures Exec(st, s, step).agents.Keys == s.agents.Keys
  {
    hide OutcomeOf, Apply, DecisionOf;
  }

  lemma ProcessedIsOld(st: Settings, s: Sys, step: Step, e: nat)
    requires Enabled(st, s, step) && LogFaithful(s) && TasksNamed(s)
    requires e in Exec(st, s, step).processed
    ensures e in s.db.outbox
  {
    HistorySource(st, s, step);
  }

  /** A worker commits the pairing that event `e` led to while the event's row is pending, and
      the insert is skipped: somebody else took the chosen partner first. */
  predicate Refusal(st: Settings, s: Sys, step: Step, e: nat, ref: Ref) {
    && step.WorkerCommit? && step.agent in s.agents && s.agents[step.agent].Working?
    && s.agents[step.agent].item.event == e && IsPending(s.db, ref)
    && match s.agents[step.agent].intent
       case Some(Pair(c, p)) =>
         RefOf(c) == ref && Viable(c, p, st.cfg) && OutcomeOf(s.db, PairDecision(c, p, st.cfg), c.tenant).Skipped?
       case _ => false
  }

  /** A worker finishes with event `e` having found nobody. */
  predicate Pass(s: Sys, step: Step, e: nat) {
    && step.WorkerCommit? && step.agent in s.agents && s.agents[step.agent].Working?
    && s.agents[step.agent].item.event == e && s.agents[step.agent].intent.None?
  }

  ghost predicate Refused(st: Settings, run: Run, i: nat, e: nat, ref: Ref)
    requires i <= |run.steps| < |run.states|
  {
    exists k :: 0 <= k < i && Refusal(st, run.states[k], run.steps[k], e, ref)
  }

  ghost predicate Passed(run: Run, i: nat, e: nat)
    requires i <= |run.steps| < |run.states|
  {
    exists k :: 0 <= k < i && Pass(run.states[k], run.steps[k], e)
  }

  /** A first receipt that leaves its row pending was refused or found nobody. */
  lemma CommitLeavesPending(st: Settings, s: Sys, step: Step, ref: Ref)
    requires Tracked(st, s) && Enabled(st, s, step) && step.WorkerCommit?
    requires !s.agents[step.agent].item.msg.isDuplicate && ref == MessageRef(s.agents[step.agent].item.msg)
    requires Exec(st, s, step).agents.Keys == s.agents.Keys && IsPending(Exec(st, s, step).db, ref)
    ensures var e := s.agents[step.agent].item.event; Refusal(st, s, step, e, ref) || Pass(s, step, e)
  {
    var t := s.agents[step.agent];
    assert TaskSound(st, s, t) && TaskNamed(s, t);
    if t.intent.Some? {
      var c, p := t.intent.value.candidate, t.intent.value.partner;
      ViableAgrees(c, p, st.cfg);
      match OutcomeOf(s.db, PairDecision(c, p, st.cfg), c.tenant)
      case Written => WrittenSettles(s.db, PairDecision(c, p, st.cfg), c.tenant, s.now, RefOf(c));
      case Skipped =>
      case Aborted =>
    }
  }

  lemma NewlyProcessed(st: Settings, s: Sys, step: Step, e: nat)
    requires Enabled(st, s, step) && Tracked(st, s)
    requires e in Exec(st, s, step).processed && e !in s.processed
    requires e in s.db.outbox && !s.db.outbox[e].msg.isDuplicate
    requires IsPending(Exec(st, s, step).db, MessageRef(s.db.outbox[e].msg))
    ensures Refusal(st, s, step, e, MessageRef(s.db.outbox[e].msg)) || Pass(s, step, e)
  {
    HistorySource(st, s, step);
    if step.WorkerCommit? {
      assert TaskNamed(s, s.agents[step.agent]);
      NotRolledBack(st, s, step, e);
      hide Exec, Enabled, DbInv, AgentsSound, EntriesSane, Refusal, Pass;
      CommitLeavesPending(st, s, step, MessageRef(s.db.outbox[e].msg));
    } else {
      hide Enabled, DbInv, AgentsSound, EntriesSane, LogFaithful, TasksNamed;
    }
  }

  /** The row of a first receipt processed by now was pending before, if it still is. */
  lemma ReceiptBefore(st: Settings, s: Sys, step: Step, e: nat, ref: Ref)
    requires Enabled(st, s, step) && Tracked(st, s)
    requires FirstReceipt(Exec(st, s, step).db, e, ref) && e in Exec(st, s, step).processed
    requires IsPending(Exec(st, s, step).db, ref)
    ensures FirstReceipt(s.db, e, ref) && IsPending(s.db, ref)
  {
    OutboxGrows(st, s, step);
    ProcessedIsOld(st, s, step, e);
    assert MessageSane(s.db, s.db.outbox[e].msg);
    PendingBefore(st, s, step, ref);
  }

  /** In a run, every first receipt that was processed and left its row pending was refused or
      found nobody. */
  lemma {:induction false} ProcessedReceipts(st: Settings, run: Run, i: nat, e: nat, ref: Ref)
    requires IsRun(st, run) && i < |run.states|
    requires FirstReceipt(run.states[i].db, e, ref) && e in run.states[i].processed && IsPending(run.states[i].db, ref)
    ensures Refused(st, run, i, e, ref) || Passed(run, i, e)
  {
    hide Enabled, Exec, Tracked, Refusal, Pass, IsPending;
    if i > 0 {
      var s, step := run.states[i - 1], run.steps[i - 1];
      RunTracked(st, run, i - 1);
      RunStep(st, run, i - 1);
      ReceiptBefore(st, s, step, e, ref);
      if e in s.processed {
        ProcessedReceipts(st, run, i - 1, e, ref);
      } else {
        NewlyProcessed(st, s, step, e);
      }
    }
  }

  /** History only grows. */
  lemma {:induction false} HistoryGrows(st: Settings, run: Run, i: nat, j: nat)
    requires IsRun(st, run) && i <= j < |run.states|
    ensures run.states[i].processed <= run.states[j].processed && run.states[i].deferred <= run.states[j].deferred
    ensures forall e :: e in run.states[i].db.outbox ==>
      e in run.states[j].db.outbox && run.states[j].db.outbox[e].msg == run.states[i].db.outbox[e].msg
    decreases j - i
  {
    hide Enabled, Exec;
    if i < j {
      HistoryGrows(st, run, i, j - 1);
      RunTracked(st, run, j - 1);
      RunStep(st, run, j - 1);
      LogAndHistoryGrow(st, run.states[j - 1], run.steps[j - 1]);
      OutboxGrows(st, run.states[j - 1], run.steps[j - 1]);
    }
  }

  lemma AnswerIsProcessed(st: Settings, s: Sys, step: Step, e: nat, ref: Ref)
    requires Enabled(st, s, step) && (Refusal(st, s, step, e, ref) || Pass(s, step, e))
    ensures e in Exec(st, s, step).processed
  {
  }

  lemma PassIsDeferred(s: Sys, step: Step, e: nat)
    requires LogFaithful(s) && TasksNamed(s) && Pass(s, step, e)
    ensures e in s.db.outbox && MessageRef(s.db.outbox[e].msg) in s.deferred
  {
    assert TaskNamed(s, s.agents[step.agent]);
  }

  /** A refused receipt was processed. */
  lemma RefusedIsProcessed(st: Settings, run: Run, i: nat, e: nat, ref: Ref)
    requires IsRun(st, run) && i < |run.states| && Refused(st, run, i, e, ref)
    ensures e in run.states[i].processed
  {
    var k :| 0 <= k < i && Refusal(st, run.states[k], run.steps[k], e, ref);
    RunStep(st, run, k);
    AnswerIsProcessed(st, run.states[k], run.steps[k], e, ref);
    HistoryGrows(st, run, k + 1, i);
  }

  /** A receipt that found nobody was processed, and its row is on record as deferred. */
  lemma PassedIsDeferred(st: Settings, run: Run, i: nat, e: nat)
    requires IsRun(st, run) && i < |run.states| && Passed(run, i, e)
    ensures e in run.states[i].processed && e in run.states[i].db.outbox
    ensures MessageRef(run.states[i].db.outbox[e].msg) in run.states[i].deferred
  {
    var k :| 0 <= k < i && Pass(run.states[k], run.steps[k], e);
    RunStep(st, run, k);
    RunTracked(st, run, k);
    AnswerIsProcessed(st, run.states[k], run.steps[k], e, Ref(Gateway, 0));
    PassIsDeferred(run.states[k], run.steps[k], e);
    HistoryGrows(st, run, k, i);
    HistoryGrows(st, run, k + 1, i);
  }

  /** A refusal means that a row the candidate could have been paired with was settled. */
  lemma RefusalMeansSpent(st: Settings, s: Sys, step: Step, e: nat, ref: Ref)
    requires Tracked(st, s) && Refusal(st, s, step, e, ref)
    ensures Spent(st, s.db, ref)
  {
    var t := s.agents[step.agent];
    assert TaskSound(st, s, t);
    SkippedMeansSpent(st, s.db, s.now, t.intent.value.candidate, t.intent.value.partner);
  }

  lemma RunStepKeepsSpent(st: Settings, run: Run, k: nat, ref: Ref)
    requires IsRun(st, run) && k < |run.steps| && (Spent(st, run.states[k].db, ref) || Gone(run.states[k].db, ref))
    ensures Spent(st, run.states[k + 1].db, ref) || Gone(run.states[k + 1].db, ref)
  {
    hide Enabled, Exec, Spent;
    RunKeepsInv(st, run, k);
    RunStep(st, run, k);
    if Gone(run.states[k].db, ref) {
      RunStepKeepsGone(st, run, k, ref);
    } else if ref in run.states[k + 1].db.rows {
      SpentStays(st, run.states[k], run.steps[k], ref);
    } else {
      SpentIsStored(st, run.states[k].db, ref);
      RunStepEvolves(st, run, k);
    }
  }

  lemma SpentIsStored(st: Settings, db: Db, ref: Ref)
    requires Spent(st, db, ref)
    ensures ref in db.rows
  {
  }

  lemma {:induction false} RunKeepsSpent(st: Settings, run: Run, i: nat, j: nat, ref: Ref)
    requires IsRun(st, run) && i <= j < |run.states| && Spent(st, run.states[i].db, ref)
    ensures Spent(st, run.states[j].db, ref) || Gone(run.states[j].db, ref)
    decreases j - i
  {
    hide Enabled, Exec, Spent;
    if i < j {
      RunKeepsSpent(st, run, i, j - 1, ref);
      RunStepKeepsSpent(st, run, j - 1, ref);
    }
  }

  lemma RefusedMeansSpent(st: Settings, run: Run, i: nat, e: nat, ref: Ref)
    requires IsRun(st, run) && i < |run.states| && Refused(st, run, i, e, ref) && IsPending(run.states[i].db, ref)
    ensures Spent(st, run.states[i].db, ref)
  {
    hide Enabled, Exec, Spent, Refusal;
    var k :| 0 <= k < i && Refusal(st, run.states[k], run.steps[k], e, ref);
    RunTracked(st, run, k);
    RefusalMeansSpent(st, run.states[k], run.steps[k], e, ref);
    RunKeepsSpent(st, run, k, i, ref);
  }

  /* ------------- Two compatible rows are never both deferred ------------- */

  ghost predicate DeferredApart(st: Settings, s: Sys) {
    forall g, l :: g in s.deferred && l in s.deferred ==> !Compatible(st, s.db, g, l)
  }

  /** A row that finds nobody has no compatible pending row at that moment. */
  lemma DeferredFoundNobody(st: Settings, db: Db, c: Facts, l: Ref)
    requires WindowsNest(st.cfg) && IdsBelowNext(db)
    requires BestPartner(c, Candidates(db, c, st.cfg), st.cfg, None)
    requires IsPending(db, l)
    ensures !Viable(c, db.rows[l].facts, st.cfg)
  {
    var o := db.rows[l].facts;
    assert o in PendingPool(db);
    ViableInWindow(c, o, st.cfg);
    assert InWindow(c, o, st.cfg) ==> o in Candidates(db, c, st.cfg);
  }

  lemma ReadDefersAlone(st: Settings, s: Sys, step: Step, l: Ref)
    requires Enabled(st, s, step) && IdsBelowNext(s.db) && WindowsNest(st.cfg)
    requires step.WorkerRead? && MessageRef(s.log[step.entry].msg) in s.db.rows
    requires !s.log[step.entry].msg.isDuplicate && step.partner.None?
    ensures !Compatible(st, s.db, MessageRef(s.log[step.entry].msg), l)
    ensures !Compatible(st, s.db, l, MessageRef(s.log[step.entry].msg))
  {
    var c := s.db.rows[MessageRef(s.log[step.entry].msg)].facts;
    if IsPending(s.db, l) {
      DeferredFoundNobody(st, s.db, c, l);
      ClassifyPairSymmetric(c, s.db.rows[l].facts, st.cfg);
    }
  }

  lemma NextKeepsApart(st: Settings, s: Sys, step: Step)
    requires Enabled(st, s, step) && Tracked(st, s) && WindowsNest(st.cfg) && DeferredApart(st, s)
    ensures DeferredApart(st, Exec(st, s, step))
  {
    HistorySource(st, s, step);
    forall g, l | g in Exec(st, s, step).deferred && l in Exec(st, s, step).deferred
      ensures !Compatible(st, Exec(st, s, step).db, g, l)
    {
      if Compatible(st, Exec(st, s, step).db, g, l) {
        PendingBefore(st, s, step, g);
        PendingBefore(st, s, step, l);
        assert Compatible(st, s.db, g, l);
        if g !in s.deferred { ReadDefersAlone(st, s, step, l); }
        if l !in s.deferred { ReadDefersAlone(st, s, step, g); }
      }
    }
  }

  lemma {:induction false} RunKeepsApart(st: Settings, run: Run, i: nat)
    requires IsRun(st, run) && i < |run.states| && WindowsNest(st.cfg)
    ensures DeferredApart(st, run.states[i])
  {
    if i > 0 {
      RunKeepsApart(st, run, i - 1);
      RunTracked(st, run, i - 1);
      RunStep(st, run, i - 1);
      NextKeepsApart(st, run.states[i - 1], run.steps[i - 1]);
    }
  }

  /* ------------------------- No stuck pair, split ------------------------- */

  /** An event somebody still has to act on. */
  ghost predicate Open(s: Sys, e: nat) {
    (e in s.db.outbox && s.db.outbox[e].publishedAt.None?) || Carried(s, e)
  }

  /** At most one row per side, tenant and txn_id. */
  ghost predicate DistinctTxns(db: Db) {
    forall a, b :: a in db.rows && b in db.rows && SameTxn(db, a, b) ==> a == b
  }

  predicate SameTxn(db: Db, a: Ref, b: Ref)
    requires a in db.rows && b in db.rows
  {
    && a.side == b.side
    && db.rows[a].facts.tenant == db.rows[b].facts.tenant
    && db.rows[a].facts.txn == db.rows[b].facts.txn
  }

  lemma DistinctNotSpent(st: Settings, db: Db, a: Ref, b: Ref)
    requires IdsBelowNext(db) && DistinctTxns(db) && Compatible(st, db, a, b)
    ensures !Spent(st, db, a)
  {
    if Spent(st, db, a) {
      var o :| o in db.rows && !db.rows[o].Pending() && Viable(db.rows[a].facts, db.rows[o].facts, st.cfg);
      ViableAgrees(db.rows[a].facts, db.rows[o].facts, st.cfg);
      ViableAgrees(db.rows[a].facts, db.rows[b].facts, st.cfg);
      assert RefOf(db.rows[o].facts) == o && RefOf(db.rows[b].facts) == b;
      assert SameTxn(db, o, b);
    }
  }

  lemma UnprocessedIsOpen(st: Settings, run: Run, i: nat, e: nat)
    requires IsRun(st, run) && i < |run.states| && NoTrimBefore(run, i)
    requires e in run.states[i].db.outbox && e !in run.states[i].processed
    ensures Open(run.states[i], e)
  {
    RunLosesNothing(st, run, i);
  }

  /** Both receipts answered, and at least one of them by a refusal. */
  ghost predicate LeftWaiting(st: Settings, run: Run, i: nat, g: Ref, l: Ref, eg: nat, el: nat)
    requires i <= |run.steps| < |run.states|
  {
    || (Refused(st, run, i, eg, g) && (Refused(st, run, i, el, l) || Passed(run, i, el)))
    || (Passed(run, i, eg) && Refused(st, run, i, el, l))
  }

  /** The exact condition, with reads and commits split, any crashes, any redelivery and any
      txn_ids: the first receipts of two matchable pending rows have both been processed if and
      only if one of them was refused its chosen partner at the commit, and the other was
      refused too or had found nobody. */
  lemma BothProcessedExactly(st: Settings, run: Run, i: nat, g: Ref, l: Ref, eg: nat, el: nat)
    requires IsRun(st, run) && i < |run.states| && WindowsNest(st.cfg)
    requires Compatible(st, run.states[i].db, g, l)
    requires FirstReceipt(run.states[i].db, eg, g) && FirstReceipt(run.states[i].db, el, l)
    ensures eg in run.states[i].processed && el in run.states[i].processed <==> LeftWaiting(st, run, i, g, l, eg, el)
  {
    hide Enabled, Exec, Refused, Passed;
    var s := run.states[i];
    if eg in s.processed { ProcessedReceipts(st, run, i, eg, g); }
    if el in s.processed { ProcessedReceipts(st, run, i, el, l); }
    if Refused(st, run, i, eg, g) { RefusedIsProcessed(st, run, i, eg, g); }
    if Refused(st, run, i, el, l) { RefusedIsProcessed(st, run, i, el, l); }
    if Passed(run, i, eg) { PassedIsDeferred(st, run, i, eg); }
    if Passed(run, i, el) { PassedIsDeferred(st, run, i, el); }
    RunKeepsApart(st, run, i);
  }

  /** No stuck pair: if two rows the matcher would pair are both pending then the first-receipt
      message of one of them is still unpublished, undelivered or unacked, unless the pair was
      left waiting by a refusal. */
  lemma NoStuckPair(st: Settings, run: Run, i: nat, g: Ref, l: Ref, eg: nat, el: nat)
    requires IsRun(st, run) && i < |run.states| && NoTrimBefore(run, i) && WindowsNest(st.cfg)
    requires Compatible(st, run.states[i].db, g, l)
    requires FirstReceipt(run.states[i].db, eg, g) && FirstReceipt(run.states[i].db, el, l)
    ensures Open(run.states[i], eg) || Open(run.states[i], el) || LeftWaiting(st, run, i, g, l, eg, el)
  {
    hide Enabled, Exec, Open, LeftWaiting;
    BothProcessedExactly(st, run, i, g, l, eg, el);
    if eg !in run.states[i].processed { UnprocessedIsOpen(st, run, i, eg); }
    if el !in run.states[i].processed { UnprocessedIsOpen(st, run, i, el); }
  }

  /** So another row that one of them could have been paired with was settled under it. */
  lemma StuckMeansSpent(st: Settings, run: Run, i: nat, g: Ref, l: Ref, eg: nat, el: nat)
    requires IsRun(st, run) && i < |run.states| && NoTrimBefore(run, i) && WindowsNest(st.cfg)
    requires Compatible(st, run.states[i].db, g, l)
    requires FirstReceipt(run.states[i].db, eg, g) && FirstReceipt(run.states[i].db, el, l)
    ensures Open(run.states[i], eg) || Open(run.states[i], el)
         || Spent(st, run.states[i].db, g) || Spent(st, run.states[i].db, l)
  {
    hide Enabled, Exec, Open, Spent, Refused, Passed;
    NoStuckPair(st, run, i, g, l, eg, el);
    if Refused(st, run, i, eg, g) { RefusedMeansSpent(st, run, i, eg, g); }
    if Refused(st, run, i, el, l) { RefusedMeansSpent(st, run, i, el, l); }
  }

  /** With distinct txn_ids there is no such other row. */
  lemma NoStuckPairDistinct(st: Settings, run: Run, i: nat, g: Ref, l: Ref, eg: nat, el: nat)
    requires IsRun(st, run) && i < |run.states| && NoTrimBefore(run, i) && WindowsNest(st.cfg)
    requires DistinctTxns(run.states[i].db)
    requires Compatible(st, run.states[i].db, g, l)
    requires FirstReceipt(run.states[i].db, eg, g) && FirstReceipt(run.states[i].db, el, l)
    ensures Open(run.states[i], eg) || Open(run.states[i], el)
  {
    hide Enabled, Exec, Open, Spent;
    StuckMeansSpent(st, run, i, g, l, eg, el);
    RunKeepsInv(st, run, i);
    ClassifyPairSymmetric(run.states[i].db.rows[g].facts, run.states[i].db.rows[l].facts, st.cfg);
    DistinctNotSpent(st, run.states[i].db, g, l);
    DistinctNotSpent(st, run.states[i].db, l, g);
  }

  /* ------------------------- Nothing is beyond finishing ------------------------- */

  /** How an idle worker gets hold of an entry: delivery if nobody has it, adoption otherwise. */
  function Take(s: Sys, a: nat, n: nat): Step { if n in s.undelivered then Deliver(a, n) else Claim(a, n) }

  lemma TakeEnabled(st: Settings, s: Sys, a: nat, n: nat)
    requires LogSound(s) && InTransit(s, n) && a !in s.agents
    ensures Enabled(st, s, Take(s, a, n))
    ensures Exec(st, s, Take(s, a, n))
         == s.(undelivered := s.undelivered - {n}, inFlight := s.inFlight[n := a])
  {
    assert n !in s.undelivered ==> s.undelivered - {n} == s.undelivered;
    hide BestPartner, Candidates;
  }

  /** A worker's decision can be committed: its pairing is one, and its rows are stored. */
  predicate Committable(st: Settings, s: Sys, t: Task) {
    && t.Working? && IntentUsable(st, t.intent)
    && (t.intent.Some? ==>
          ReferencesHold(s.db, DecisionOf(t.intent.value, st.cfg), t.intent.value.candidate.tenant))
  }

  lemma CommitFinishes(st: Settings, s: Sys, a: nat)
    requires a in s.agents && Committable(st, s, s.agents[a])
    ensures Enabled(st, s, WorkerCommit(a))
    ensures var t, done := s.agents[a], Exec(st, s, WorkerCommit(a));
      && t.item.event in done.processed && done.agents == s.agents[a := Acking(t.entry)]
      && done.inFlight == s.inFlight && done.undelivered == s.undelivered
  {
    hide ReferencesHold, Conflicts, InsertResult, DecisionOf;
  }

  /** What is decided on a stored row can be committed at once. */
  lemma ReadIsCommittable(st: Settings, s: Sys, n: nat, partner: Option<Facts>)
    requires ForeignKeys(s.db) && IdsBelowNext(s.db) && n in s.log && MessageRef(s.log[n].msg) in s.db.rows
    requires var c := s.db.rows[MessageRef(s.log[n].msg)].facts;
      if s.log[n].msg.isDuplicate then partner.None? else BestPartner(c, Candidates(s.db, c, st.cfg), st.cfg, partner)
    ensures Committable(st, s, ReadTask(s, n, partner))
  {
    var c := s.db.rows[MessageRef(s.log[n].msg)].facts;
    if partner.Some? {
      CandidateIsRow(s.db, c, st.cfg, partner.value);
      ViableAgrees(c, partner.value, st.cfg);
    }
    hide BestPartner, Candidates, ClassifyPair;
  }

  /** Read at once, and committed at once, the decision about a stored row is never aborted. */
  lemma ReadFinishes(st: Settings, s: Sys, a: nat, n: nat) returns (partner: Option<Facts>, done: Sys)
    requires ForeignKeys(s.db) && IdsBelowNext(s.db)
    requires n in s.log && n in s.inFlight && s.inFlight[n] == a && a !in s.agents
    ensures Enabled(st, s, WorkerRead(a, n, partner))
    ensures var read := Exec(st, s, WorkerRead(a, n, partner));
      done == read || (Enabled(st, read, WorkerCommit(a)) && done == Exec(st, read, WorkerCommit(a)))
    ensures s.log[n].event in done.processed && a in done.agents && done.agents[a] == Acking(n)
    ensures done.inFlight == s.inFlight && done.undelivered == s.undelivered
  {
    var msg := s.log[n].msg;
    partner := None;
    if MessageRef(msg) in s.db.rows && !msg.isDuplicate {
      var c := s.db.rows[MessageRef(msg)].facts;
      partner := BestPartnerExists(c, Candidates(s.db, c, st.cfg), st.cfg);
    }
    var read := Exec(st, s, WorkerRead(a, n, partner));
    done := read;
    if MessageRef(msg) in s.db.rows {
      ReadIsCommittable(st, s, n, partner);
      assert Committable(st, read, read.agents[a]);
      hide Committable;
      CommitFinishes(st, read, a);
      done := Exec(st, read, WorkerCommit(a));
    }
    hide Exec, BestPartner, Candidates;
  }

  /** From every reachable state any idle worker can finish with any entry that is still in the
      stream, whoever holds it: take it, read, commit, ack, and it is gone. */
  lemma AnyEntryCanBeFinished(st: Settings, run: Run, i: nat, a: nat,
                              n: nat) returns (partner: Option<Facts>, done: Sys)
    requires IsRun(st, run) && i < |run.states| && InTransit(run.states[i], n) && a !in run.states[i].agents
    ensures Enabled(st, run.states[i], Take(run.states[i], a, n))
    ensures var taken := Exec(st, run.states[i], Take(run.states[i], a, n));
      && Enabled(st, taken, WorkerRead(a, n, partner))
      && var read := Exec(st, taken, WorkerRead(a, n, partner));
         done == read || (Enabled(st, read, WorkerCommit(a)) && done == Exec(st, read, WorkerCommit(a)))
    ensures run.states[i].log[n].event in done.processed
    ensures Enabled(st, done, Ack(a)) && !InTransit(Exec(st, done, Ack(a)), n)
  {
    var s := run.states[i];
    RunKeepsInv(st, run, i);
    RunKeepsTransport(st, run, i);
    TakeEnabled(st, s, a, n);
    var taken := Exec(st, s, Take(s, a, n));
    partner, done := ReadFinishes(st, taken, a, n);
    AckedIsGone(st, done, a, n);
    hide Exec, Enabled, DbInv;
  }

  lemma AckedIsGone(st: Settings, s: Sys, a: nat, n: nat)
    requires a in s.agents && s.agents[a] == Acking(n) && n !in s.undelivered
    ensures Enabled(st, s, Ack(a)) && !InTransit(Exec(st, s, Ack(a)), n)
  {
  }
}
