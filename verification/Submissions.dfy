/** Counting submissions: over a whole run a row's counter is one less than the number of times
    its key was submitted, the first payload is the one kept, and every retry that was
    processed left its duplicate marker. */
module Submissions {
  import opened Matching
  import opened Tables
  import opened TablesProofs
  import opened Protocol
  import opened Safety
  import opened Delivery
  import opened Progress

  /** Whether a step submits this key of this tenant on this side. */
  predicate Submits(step: Step, side: Side, tenant: nat, key: string) {
    step.IngestKey? && step.ref.side == side && step.tenant == tenant && step.sub.key == key
  }

  /** How often the key was submitted in the first `i` steps. */
  function Submitted(steps: seq<Step>, i: nat, side: Side, tenant: nat, key: string): nat
    requires i <= |steps|
  {
    if i == 0 then 0
    else Submitted(steps, i - 1, side, tenant, key)
         + (if Submits(steps[i - 1], side, tenant, key) then steps[i - 1].count else 0)
  }

  /** Everything an ingest does not submit keeps its row, key and counter. */
  lemma UnsubmittedUnchanged(st: Settings, s: Sys, step: Step, side: Side, tenant: nat, key: string, ref: Ref)
    requires Enabled(st, s, step) && IdsBelowNext(s.db)
    requires !Submits(step, side, tenant, key) && step != Retire(tenant)
    ensures HoldsKey(Exec(st, s, step).db, tenant, side, key, ref) <==> HoldsKey(s.db, tenant, side, key, ref)
    ensures HoldsKey(s.db, tenant, side, key, ref) ==>
      Exec(st, s, step).db.rows[ref].dupCount == s.db.rows[ref].dupCount
  {
    var db' := Exec(st, s, step).db;
    if step.IngestKey? {
      IngestStepDb(st, s, step);
      hide Exec, Enabled, IdsBelowNext;
    } else if IsCommit(step) {
      CommittedRows(st, s, step);
      hide Exec, Enabled, IdsBelowNext;
    } else if step.Retire? {
      RetireStepDb(st, s, step);
      DeleteLeavesOthers(s.db, step.tenant);
      hide Exec, Enabled, IdsBelowNext, DeleteTenant;
    } else if step.CloseException? {
      CloseStepDb(st, s, step);
      hide Exec, Enabled, IdsBelowNext;
    } else {
      QuietStepDb(st, s, step);
      hide Exec, Enabled, IdsBelowNext;
    }
  }

  predicate IsCommit(step: Step) { step.WorkerCommit? || step.SweepCommit? }

  lemma CommittedRows(st: Settings, s: Sys, step: Step)
    requires Enabled(st, s, step) && IsCommit(step)
    ensures Exec(st, s, step).db.rows.Keys == s.db.rows.Keys
    ensures forall ref :: ref in s.db.rows ==>
      && Exec(st, s, step).db.rows[ref].dupCount == s.db.rows[ref].dupCount
      && Exec(st, s, step).db.rows[ref].facts == s.db.rows[ref].facts
      && Exec(st, s, step).db.rows[ref].key == s.db.rows[ref].key
  {
    hide Exec, Enabled, DecisionOf, OutcomeOf;
    if Committed(s, step).Some? {
      CommitIsApply(st, s, step);
      var i := Committed(s, step).value;
      InsertedRows(s.db, DecisionOf(i, st.cfg), i.candidate.tenant, s.now);
    } else {
      QuietStepDb(st, s, step);
    }
    hide InsertResult;
  }

  /** `total` submissions are accounted for: no row and none, or one row and its counter. */
  ghost predicate CountedAs(db: Db, side: Side, tenant: nat, key: string, total: nat) {
    && (total == 0 ==> forall ref :: !HoldsKey(db, tenant, side, key, ref))
    && (total > 0 ==> exists ref :: HoldsKey(db, tenant, side, key, ref))
    && (forall ref :: HoldsKey(db, tenant, side, key, ref) ==> db.rows[ref].dupCount + 1 == total)
  }

  lemma IngestCounts(st: Settings, s: Sys, step: Step, side: Side, tenant: nat, key: string, total: nat)
    requires Enabled(st, s, step) && KeysUnique(s.db) && Submits(step, side, tenant, key)
    requires CountedAs(s.db, side, tenant, key, total)
    ensures CountedAs(Exec(st, s, step).db, side, tenant, key, total + step.count)
  {
    var db, db' := s.db, Exec(st, s, step).db;
    assert HoldsKey(db', tenant, side, key, step.ref);
    forall ref | HoldsKey(db', tenant, side, key, ref) ensures db'.rows[ref].dupCount + 1 == total + step.count {
      if step.ref in db.rows {
        assert HoldsKey(db, tenant, side, key, step.ref);
        if ref != step.ref {
          assert HoldsKey(db, tenant, side, key, ref) && SameKey(db, ref, step.ref);
        }
      } else {
        assert forall r :: !HoldsKey(db, tenant, side, key, r);
        assert total == 0;
      }
    }
  }

  /** Over a whole run, `duplicate_count + 1` is the number of submissions. */
  lemma {:induction false} CounterIsSubmissions(st: Settings, run: Run, i: nat, side: Side, tenant: nat, key: string)
    requires IsRun(st, run) && i < |run.states| && NotRetired(run, tenant, 0, i)
    ensures CountedAs(run.states[i].db, side, tenant, key, Submitted(run.steps, i, side, tenant, key))
  {
    hide Exec, Enabled, CountedAs, Submits, IdsBelowNext, KeysUnique;
    if i == 0 {
      NothingSubmitted(st, run, side, tenant, key);
    } else {
      CounterIsSubmissions(st, run, i - 1, side, tenant, key);
      RunKeysUnique(st, run, i - 1);
      RunStep(st, run, i - 1);
      var s, step := run.states[i - 1], run.steps[i - 1];
      if Submits(step, side, tenant, key) {
        IngestCounts(st, s, step, side, tenant, key, Submitted(run.steps, i - 1, side, tenant, key));
      } else {
        CountCarriesOver(st, s, step, side, tenant, key, Submitted(run.steps, i - 1, side, tenant, key));
      }
    }
  }

  lemma NothingSubmitted(st: Settings, run: Run, side: Side, tenant: nat, key: string)
    requires IsRun(st, run)
    ensures CountedAs(run.states[0].db, side, tenant, key, 0)
  {
  }

  lemma RunKeysUnique(st: Settings, run: Run, i: nat)
    requires IsRun(st, run) && i < |run.states|
    ensures KeysUnique(run.states[i].db)
  {
    hide Exec, Enabled;
    RunKeepsInv(st, run, i);
  }

  lemma CountCarriesOver(st: Settings, s: Sys, step: Step, side: Side, tenant: nat, key: string, total: nat)
    requires Enabled(st, s, step) && IdsBelowNext(s.db)
    requires !Submits(step, side, tenant, key) && step != Retire(tenant)
    requires CountedAs(s.db, side, tenant, key, total)
    ensures CountedAs(Exec(st, s, step).db, side, tenant, key, total)
  {
    forall ref
      ensures HoldsKey(Exec(st, s, step).db, tenant, side, key, ref) <==> HoldsKey(s.db, tenant, side, key, ref)
      ensures HoldsKey(s.db, tenant, side, key, ref) ==>
        Exec(st, s, step).db.rows[ref].dupCount == s.db.rows[ref].dupCount
    {
      UnsubmittedUnchanged(st, s, step, side, tenant, key, ref);
    }
  }

  /** The stored payload is the one of the first submission, received when that was. */
  lemma {:induction false} FirstPayloadKept(st: Settings, run: Run, i: nat, ref: Ref) returns (k: nat)
    requires IsRun(st, run) && i < |run.states| && ref in run.states[i].db.rows
    requires NotRetired(run, run.states[i].db.rows[ref].facts.tenant, 0, i)
    ensures k < i && i > 0
    ensures var row := run.states[i].db.rows[ref];
      && Submits(run.steps[k], ref.side, row.facts.tenant, row.key)
      && (forall j :: 0 <= j < k ==> !Submits(run.steps[j], ref.side, row.facts.tenant, row.key))
      && var sub := run.steps[k].sub;
         row.facts == Facts(ref.side, row.facts.tenant, ref.id, sub.txn, sub.amount, sub.currency, sub.occurred,
           run.states[k].now)
  {
    if ref in run.states[i - 1].db.rows {
      RowUnchanged(st, run, i - 1, ref);
      k := FirstPayloadKept(st, run, i - 1, ref);
    } else {
      k := i - 1;
      NewRowPayload(st, run, k, ref);
    }
  }

  lemma RowUnchanged(st: Settings, run: Run, k: nat, ref: Ref)
    requires IsRun(st, run) && k < |run.steps|
    requires ref in run.states[k].db.rows && ref in run.states[k + 1].db.rows
    ensures run.states[k + 1].db.rows[ref].facts == run.states[k].db.rows[ref].facts
    ensures run.states[k + 1].db.rows[ref].key == run.states[k].db.rows[ref].key
  {
    RunStepEvolves(st, run, k);
  }

  lemma NewRowPayload(st: Settings, run: Run, k: nat, ref: Ref)
    requires IsRun(st, run) && k < |run.steps|
    requires ref in run.states[k + 1].db.rows && ref !in run.states[k].db.rows
    requires NotRetired(run, run.states[k + 1].db.rows[ref].facts.tenant, 0, k)
    ensures var row := run.states[k + 1].db.rows[ref];
      && Submits(run.steps[k], ref.side, row.facts.tenant, row.key)
      && (forall j :: 0 <= j < k ==> !Submits(run.steps[j], ref.side, row.facts.tenant, row.key))
      && var sub := run.steps[k].sub;
         row.facts == Facts(ref.side, row.facts.tenant, ref.id, sub.txn, sub.amount, sub.currency, sub.occurred,
           run.states[k].now)
  {
    RunStep(st, run, k);
    NewRowsAreIngested(st, run.states[k], run.steps[k], ref);
    var row := run.states[k + 1].db.rows[ref];
    CounterIsSubmissions(st, run, k, ref.side, row.facts.tenant, row.key);
    assert forall r :: !HoldsKey(run.states[k].db, row.facts.tenant, ref.side, row.key, r);
    NeverSubmitted(run.steps, k, ref.side, row.facts.tenant, row.key);
    AllCountsPositive(st, run);
  }

  lemma AllCountsPositive(st: Settings, run: Run)
    requires IsRun(st, run)
    ensures forall j :: 0 <= j < |run.steps| && run.steps[j].IngestKey? ==> run.steps[j].count >= 1
  {
    forall j | 0 <= j < |run.steps| && run.steps[j].IngestKey? ensures run.steps[j].count >= 1 {
      assert Next(st, run.states[j], run.steps[j], run.states[j + 1]);
    }
  }

  lemma {:induction false} NeverSubmitted(steps: seq<Step>, i: nat, side: Side, tenant: nat, key: string)
    requires i <= |steps| && Submitted(steps, i, side, tenant, key) == 0
    ensures forall j :: 0 <= j < i && Submits(steps[j], side, tenant, key) ==> steps[j].count == 0
  {
    if i > 0 { NeverSubmitted(steps, i - 1, side, tenant, key); }
  }

  /* --------------------------- Duplicate markers --------------------------- */

  predicate Retry(db: Db, e: nat, ref: Ref) {
    e in db.outbox && db.outbox[e].msg.isDuplicate && MessageRef(db.outbox[e].msg) == ref
  }

  ghost predicate HasMarker(db: Db, ref: Ref) { exists r :: MarkerOn(db, r, ref) }

  /** A row whose counter moved has a retry message, and a processed retry of a stored row
      has a marker. */
  ghost predicate RetriesMarked(s: Sys) {
    && (forall ref :: ref in s.db.rows && s.db.rows[ref].dupCount >= 1 ==> exists e :: Retry(s.db, e, ref))
    && (forall e, ref :: Retry(s.db, e, ref) && e in s.processed && ref in s.db.rows ==> HasMarker(s.db, ref))
  }

  lemma MarkerStays(st: Settings, s: Sys, step: Step, ref: Ref)
    requires Enabled(st, s, step) && IdsBelowNext(s.db) && TenantsAgree(s.db)
    requires HasMarker(s.db, ref) && ref in s.db.rows && ref in Exec(st, s, step).db.rows
    ensures HasMarker(Exec(st, s, step).db, ref)
  {
    StepEvolves(st, s, step);
    var r :| MarkerOn(s.db, r, ref);
    assert s.db.results[r].Names(ref);
    if step.Retire? {
      RetireStepDb(st, s, step);
      DeleteLeavesOthers(s.db, step.tenant);
    }
    hide Exec, Enabled, IdsBelowNext, DeleteTenant;
    assert MarkerOn(Exec(st, s, step).db, r, ref);
  }

  lemma CommitMarks(st: Settings, s: Sys, step: Step)
    requires SysInv(st, s) && TasksNamed(s) && Enabled(st, s, step) && step.WorkerCommit?
    requires s.agents[step.agent].item.msg.isDuplicate
    requires Exec(st, s, step).agents.Keys == s.agents.Keys
    ensures HasMarker(Exec(st, s, step).db, MessageRef(s.agents[step.agent].item.msg))
  {
    var t := s.agents[step.agent];
    assert TaskNamed(s, t);
    var c := t.intent.value.candidate;
    var d := DuplicateDecision(c);
    if OutcomeOf(s.db, d, c.tenant).Skipped? {
      var r :| r in s.db.results && Clashes(s.db.results[r], d, c.tenant);
      assert MarkerOn(Exec(st, s, step).db, r, RefOf(c));
    } else {
      assert MarkerOn(Exec(st, s, step).db, s.db.nextResult, RefOf(c));
    }
  }

  lemma RetryEventsStay(st: Settings, s: Sys, step: Step)
    requires Enabled(st, s, step) && IdsBelowNext(s.db)
    requires forall ref :: ref in s.db.rows && s.db.rows[ref].dupCount >= 1 ==> exists e :: Retry(s.db, e, ref)
    ensures var db' := Exec(st, s, step).db;
      forall ref :: ref in db'.rows && db'.rows[ref].dupCount >= 1 ==> exists e :: Retry(db', e, ref)
  {
    var db' := Exec(st, s, step).db;
    OutboxGrows(st, s, step);
    hide IdsBelowNext, LandsOn;
    forall ref | ref in db'.rows && db'.rows[ref].dupCount >= 1 ensures exists e :: Retry(db', e, ref) {
      if step.IngestKey? && step.ref == ref {
        IngestStepDb(st, s, step);
        hide Exec, Enabled;
        assert Retry(db', s.db.nextEvent, ref);
      } else {
        OtherCountersKept(st, s, step, ref);
        hide Exec, Enabled;
        var e :| Retry(s.db, e, ref);
        assert Retry(db', e, ref);
      }
    }
  }

  lemma OtherCountersKept(st: Settings, s: Sys, step: Step, ref: Ref)
    requires Enabled(st, s, step) && IdsBelowNext(s.db) && ref in Exec(st, s, step).db.rows
    requires !(step.IngestKey? && step.ref == ref)
    ensures ref in s.db.rows && Exec(st, s, step).db.rows[ref].dupCount == s.db.rows[ref].dupCount
  {
    if ref !in s.db.rows { NewRowsAreIngested(st, s, step, ref); }
    if step.IngestKey? {
      IngestStepDb(st, s, step);
    } else if IsCommit(step) {
      CommittedRows(st, s, step);
    } else if step.Retire? {
      RetireStepDb(st, s, step);
      DeleteLeavesOthers(s.db, step.tenant);
    } else if step.CloseException? {
      CloseStepDb(st, s, step);
    } else {
      QuietStepDb(st, s, step);
    }
    hide Exec, Enabled, IdsBelowNext, DeleteTenant, LandsOn, MessageAfter;
  }

  lemma ProcessedRetryMarked(st: Settings, s: Sys, step: Step, e: nat, ref: Ref)
    requires Enabled(st, s, step) && Tracked(st, s)
    requires e in Exec(st, s, step).processed && e !in s.processed && Retry(s.db, e, ref)
    requires ref in Exec(st, s, step).db.rows && ref in s.db.rows
    ensures HasMarker(Exec(st, s, step).db, ref)
  {
    HistorySource(st, s, step);
    if step.WorkerCommit? {
      assert TaskNamed(s, s.agents[step.agent]);
      NotRolledBack(st, s, step, e);
      hide Exec, Enabled, DbInv, AgentsSound, EntriesSane, HasMarker;
      CommitMarks(st, s, step);
    }
  }

  lemma NextKeepsMarked(st: Settings, s: Sys, step: Step)
    requires Enabled(st, s, step) && Tracked(st, s) && RetriesMarked(s)
    ensures RetriesMarked(Exec(st, s, step))
  {
    RetryEventsStay(st, s, step);
    OutboxGrows(st, s, step);
    StepEvolves(st, s, step);
    forall e, ref | Retry(Exec(st, s, step).db, e, ref) && e in Exec(st, s, step).processed
                    && ref in Exec(st, s, step).db.rows
      ensures HasMarker(Exec(st, s, step).db, ref)
    {
      ProcessedIsOld(st, s, step, e);
      assert MessageSane(s.db, s.db.outbox[e].msg);
      assert Retry(s.db, e, ref) && ref in s.db.rows;
      if e in s.processed {
        MarkerStays(st, s, step, ref);
      } else {
        ProcessedRetryMarked(st, s, step, e, ref);
      }
    }
  }

  lemma {:induction false} RunKeepsMarked(st: Settings, run: Run, i: nat)
    requires IsRun(st, run) && i < |run.states|
    ensures RetriesMarked(run.states[i])
  {
    if i > 0 {
      RunKeepsMarked(st, run, i - 1);
      RunTracked(st, run, i - 1);
      RunStep(st, run, i - 1);
      NextKeepsMarked(st, run.states[i - 1], run.steps[i - 1]);
    }
  }

  /** A row is marked duplicate only if its key was submitted again, and is once some retry
      of it was processed. */
  lemma MarkedExactlyWhenRetried(st: Settings, run: Run, i: nat, ref: Ref)
    requires IsRun(st, run) && i < |run.states| && ref in run.states[i].db.rows
    requires forall e :: Retry(run.states[i].db, e, ref) ==> e in run.states[i].processed
    ensures HasMarker(run.states[i].db, ref) <==> run.states[i].db.rows[ref].dupCount >= 1
  {
    if HasMarker(run.states[i].db, ref) { RunMarkersJustified(st, run, i, ref); }
    RunKeepsMarked(st, run, i);
    hide Exec, Enabled, HasMarker;
  }

  lemma RunMarkersJustified(st: Settings, run: Run, i: nat, ref: Ref)
    requires IsRun(st, run) && i < |run.states| && ref in run.states[i].db.rows && HasMarker(run.states[i].db, ref)
    ensures run.states[i].db.rows[ref].dupCount >= 1
  {
    hide Exec, Enabled;
    RunKeepsInv(st, run, i);
    MarkerJustified(st, run.states[i].db, ref);
  }

  lemma MarkerJustified(st: Settings, db: Db, ref: Ref)
    requires AllJustified(st, db) && ref in db.rows && HasMarker(db, ref)
    ensures db.rows[ref].dupCount >= 1
  {
    var r :| MarkerOn(db, r, ref);
    assert Justified(st, db, db.results[r]) && db.results[r].Names(ref);
  }
}
