/** Where everything in the tables came from: over any run each result, exception, timestamp and
    last visit is the work of one step, at that step's clock. */
module History {
  import opened Basics
  import opened Matching
  import opened Tables
  import opened TablesProofs
  import opened Protocol
  import opened Safety
  import opened Stats
  import opened Conservation

  /* --------------------------------- Results --------------------------------- */

  /** The step commits a decision and it is written. */
  predicate Writes(st: Settings, s: Sys, step: Step) {
    && Committed(s, step).Some?
    && var i := Committed(s, step).value;
       && (i.Pair? ==> Viable(i.candidate, i.partner, st.cfg))
       && OutcomeOf(s.db, DecisionOf(i, st.cfg), i.candidate.tenant).Written?
  }

  function WrittenBy(st: Settings, s: Sys, step: Step): Decision
    requires Writes(st, s, step)
  {
    DecisionOf(Committed(s, step).value, st.cfg)
  }

  function WriterTenant(st: Settings, s: Sys, step: Step): nat
    requires Writes(st, s, step)
  {
    Committed(s, step).value.candidate.tenant
  }

  /** What a commit writes, in plain terms. */
  lemma WriteEffect(st: Settings, s: Sys, step: Step)
    requires Enabled(st, s, step) && Writes(st, s, step)
    ensures var d, t, db' := WrittenBy(st, s, step), WriterTenant(st, s, step), Exec(st, s, step).db;
      && db'.results == s.db.results[s.db.nextResult := Result(t, d.gateway, d.ledger, d.status, d.layer, s.now)]
      && db'.cases == (if NeedsHuman(d.status)
                       then s.db.cases[s.db.nextCase := Case(t, s.db.nextResult, None, None)]
                       else s.db.cases)
      && db'.rows == (if d.status == Duplicate then s.db.rows else MarkReconciled(s.db.rows, d, s.now))
      && db'.accounts == s.db.accounts
  {
    CommitIsApply(st, s, step);
    hide Exec, Enabled, OutcomeOf, DecisionOf, MarkReconciled;
  }

  lemma SkipEffect(st: Settings, s: Sys, step: Step)
    requires Enabled(st, s, step) && Committed(s, step).Some? && !Writes(st, s, step)
    ensures Exec(st, s, step).db == s.db
  {
    CommitIsApply(st, s, step);
    hide Exec, Enabled, OutcomeOf, DecisionOf, InsertResult;
  }

  /** Any other step but a close and a deletion leaves results and cases alone, and rows unless
      it ingests. */
  lemma OthersWriteNothing(st: Settings, s: Sys, step: Step)
    requires Enabled(st, s, step) && !Writes(st, s, step) && !step.CloseException? && !step.Retire?
    ensures Exec(st, s, step).db.results == s.db.results && Exec(st, s, step).db.cases == s.db.cases
    ensures !step.IngestKey? ==> Exec(st, s, step).db.rows == s.db.rows
  {
    if step.IngestKey? {
      IngestStepDb(st, s, step);
    } else if Committed(s, step).Some? {
      SkipEffect(st, s, step);
    } else {
      QuietStepDb(st, s, step);
    }
    hide Exec, Enabled, Writes, LandsOn, MessageAfter, RowAfter;
  }

  /** A result after a step was there before, or the step wrote it. */
  lemma ResultsAfter(st: Settings, s: Sys, step: Step, r: nat)
    requires Enabled(st, s, step) && r in Exec(st, s, step).db.results
    ensures var res := Exec(st, s, step).db.results[r];
      || (r in s.db.results && res == s.db.results[r])
      || (Writes(st, s, step) && r == s.db.nextResult
          && var d := WrittenBy(st, s, step);
             res == Result(WriterTenant(st, s, step), d.gateway, d.ledger, d.status, d.layer, s.now))
  {
    if step.CloseException? {
      CloseStepDb(st, s, step);
    } else if step.Retire? {
      RetireStepDb(st, s, step);
      DeleteLeavesOthers(s.db, step.tenant);
    } else if Writes(st, s, step) {
      WriteEffect(st, s, step);
    } else {
      OthersWriteNothing(st, s, step);
    }
    hide Exec, Enabled, DeleteTenant, LandsOn, MessageAfter, Writes, RowAfter;
  }

  /** Every result was written by one commit, with that commit's decision and clock. */
  lemma {:induction false} ResultHistory(st: Settings, run: Run, i: nat, r: nat) returns (k: nat)
    requires IsRun(st, run) && i < |run.states| && r in run.states[i].db.results
    ensures k < i && Writes(st, run.states[k], run.steps[k]) && r == run.states[k].db.nextResult
    ensures var d := WrittenBy(st, run.states[k], run.steps[k]);
      run.states[i].db.results[r] == Result(WriterTenant(st, run.states[k], run.steps[k]),
        d.gateway, d.ledger, d.status, d.layer, run.states[k].now)
  {
    hide Enabled, Exec, Writes;
    if i == 0 {
      StartsEmpty(run);
      assert false;
    } else {
      RunStep(st, run, i - 1);
      ResultsAfter(st, run.states[i - 1], run.steps[i - 1], r);
      if r in run.states[i - 1].db.results && run.states[i].db.results[r] == run.states[i - 1].db.results[r] {
        k := ResultHistory(st, run, i - 1, r);
      } else {
        k := i - 1;
      }
    }
  }

  lemma StartsEmpty(run: Run)
    requires |run.states| > 0 && Init(run.states[0])
    ensures run.states[0].db == EMPTY_DB
  {
  }

  /* -------------------------------- Timestamps -------------------------------- */

  /** The step settles the row: a written decision, not a marker, that names it. */
  predicate Settles(st: Settings, s: Sys, step: Step, ref: Ref) {
    Writes(st, s, step) && WrittenBy(st, s, step).status != Duplicate && DecisionNames(WrittenBy(st, s, step), ref)
  }

  lemma StampsAfter(st: Settings, s: Sys, step: Step, ref: Ref)
    requires Enabled(st, s, step) && ref in Exec(st, s, step).db.rows
    requires Exec(st, s, step).db.rows[ref].reconciledAt.Some?
    ensures var stamp := Exec(st, s, step).db.rows[ref].reconciledAt;
      || (ref in s.db.rows && s.db.rows[ref].reconciledAt == stamp)
      || (Settles(st, s, step, ref) && stamp == Some(s.now))
  {
    if step.IngestKey? {
      IngestStepDb(st, s, step);
    } else if step.CloseException? {
      CloseStepDb(st, s, step);
    } else if step.Retire? {
      RetireStepDb(st, s, step);
      DeleteLeavesOthers(s.db, step.tenant);
    } else if Writes(st, s, step) {
      WriteEffect(st, s, step);
    } else {
      OthersWriteNothing(st, s, step);
    }
    hide Exec, Enabled, DeleteTenant, LandsOn, MessageAfter, Writes, ResultsEvolve, CasesEvolve, OutcomeOf, DecisionOf;
  }

  /** A row's `reconciled_at` is the clock of the commit that settled it. */
  lemma {:induction false} StampHistory(st: Settings, run: Run, i: nat, ref: Ref) returns (k: nat)
    requires IsRun(st, run) && i < |run.states| && ref in run.states[i].db.rows
    requires run.states[i].db.rows[ref].reconciledAt.Some?
    ensures k < i && Settles(st, run.states[k], run.steps[k], ref)
    ensures run.states[i].db.rows[ref].reconciledAt == Some(run.states[k].now)
  {
    hide Enabled, Exec, Settles;
    if i == 0 {
      StartsEmpty(run);
      assert false;
    } else {
      RunStep(st, run, i - 1);
      StampsAfter(st, run.states[i - 1], run.steps[i - 1], ref);
      var before := run.states[i - 1].db.rows;
      if ref in before && before[ref].reconciledAt == run.states[i].db.rows[ref].reconciledAt {
        k := StampHistory(st, run, i - 1, ref);
      } else {
        k := i - 1;
      }
    }
  }

  /* -------------------------------- Exceptions -------------------------------- */

  /** The step closes exception `c`: its own tenant asks for it by id while it is open. */
  predicate Closes(s: Sys, step: Step, c: nat) {
    && step.CloseException? && step.id == c
    && c in s.db.cases && s.db.cases[c].tenant == step.tenant && s.db.cases[c].closedAt.None?
  }

  /** The step opens exception `c`: it writes a drift or a break. */
  predicate Opens(st: Settings, s: Sys, step: Step, c: nat) {
    && Writes(st, s, step) && c == s.db.nextCase
    && WrittenBy(st, s, step).status in {AmountDrift, UnmatchedGatewayOnly, UnmatchedLedgerOnly}
  }

  /** An exception after a step was closed by it, opened by it, or is as it was. */
  lemma CasesAfter(st: Settings, s: Sys, step: Step, c: nat)
    requires Enabled(st, s, step) && IdsBelowNext(s.db) && c in Exec(st, s, step).db.cases
    ensures var case' := Exec(st, s, step).db.cases[c];
      if Closes(s, step, c)
      then case' == Case(s.db.cases[c].tenant, s.db.cases[c].result, Some(s.now), Some(step.notes))
      else if c in s.db.cases
      then case' == s.db.cases[c]
      else Opens(st, s, step, c) && case' == Case(WriterTenant(st, s, step), s.db.nextResult, None, None)
  {
    if step.CloseException? {
      CloseStepDb(st, s, step);
    } else if step.Retire? {
      RetireStepDb(st, s, step);
      DeleteLeavesOthers(s.db, step.tenant);
    } else if Writes(st, s, step) {
      WriteEffect(st, s, step);
    } else {
      OthersWriteNothing(st, s, step);
    }
    hide Exec, Enabled, DeleteTenant, LandsOn, MessageAfter, Writes, RowAfter;
  }

  /** A case just opened never existed before. */
  lemma {:induction false} IdsOnlyGrow(st: Settings, run: Run, i: nat, j: nat)
    requires IsRun(st, run) && i <= j < |run.states|
    ensures run.states[i].db.nextCase <= run.states[j].db.nextCase
    ensures forall c :: c in run.states[i].db.cases ==> c < run.states[j].db.nextCase
    decreases j - i
  {
    hide Enabled, Exec;
    RunKeepsInv(st, run, i);
    if i < j {
      IdsOnlyGrow(st, run, i, j - 1);
      RunStepEvolves(st, run, j - 1);
    }
  }

  ghost predicate ClosedBy(run: Run, i: nat, c: nat)
    requires i <= |run.steps| < |run.states|
  {
    exists k :: 0 <= k < i && Closes(run.states[k], run.steps[k], c)
  }

  /** The life of an exception.  It is closed if and only if its own tenant asked for that while
      it was open, and then it carries the notes and the clock of that request; an open one
      carries neither. */
  lemma {:induction false} CaseHistory(st: Settings, run: Run, i: nat, c: nat)
    requires IsRun(st, run) && i < |run.states| && c in run.states[i].db.cases
    ensures run.states[i].db.cases[c].closedAt.Some? <==> ClosedBy(run, i, c)
    ensures forall k :: 0 <= k < i && Closes(run.states[k], run.steps[k], c) ==>
      && run.states[i].db.cases[c].closedAt == Some(run.states[k].now)
      && run.states[i].db.cases[c].notes == Some(run.steps[k].notes)
    ensures run.states[i].db.cases[c].closedAt.None? ==> run.states[i].db.cases[c].notes.None?
  {
    hide Enabled, Exec, Opens, Closes;
    if i == 0 {
      StartsEmpty(run);
    } else {
      var s, step := run.states[i - 1], run.steps[i - 1];
      CaseStep(st, run, i - 1, c);
      if c in s.db.cases {
        CaseHistory(st, run, i - 1, c);
        ClosesOpen(s, step, c);
      } else {
        NewNeverClosed(st, run, i - 1, c);
      }
    }
  }

  lemma CaseStep(st: Settings, run: Run, k: nat, c: nat)
    requires IsRun(st, run) && k < |run.steps| && c in run.states[k + 1].db.cases
    ensures var s, step, case' := run.states[k], run.steps[k], run.states[k + 1].db.cases[c];
      if Closes(s, step, c)
      then case'.closedAt == Some(s.now) && case'.notes == Some(step.notes)
      else if c in s.db.cases then case' == s.db.cases[c]
      else c == s.db.nextCase && case'.closedAt.None? && case'.notes.None?
  {
    RunKeepsInv(st, run, k);
    RunStep(st, run, k);
    CasesAfter(st, run.states[k], run.steps[k], c);
    hide Enabled, Exec, Writes;
  }

  lemma ClosesOpen(s: Sys, step: Step, c: nat)
    ensures Closes(s, step, c) ==> step.CloseException? && c in s.db.cases && s.db.cases[c].closedAt.None?
  {
  }

  lemma NewNeverClosed(st: Settings, run: Run, i: nat, c: nat)
    requires IsRun(st, run) && i < |run.steps| && c in run.states[i + 1].db.cases && c !in run.states[i].db.cases
    ensures forall k :: 0 <= k <= i ==> !Closes(run.states[k], run.steps[k], c)
  {
    hide Enabled, Exec, Closes;
    CaseStep(st, run, i, c);
    ClosesOpen(run.states[i], run.steps[i], c);
    forall k | 0 <= k <= i ensures !Closes(run.states[k], run.steps[k], c) {
      IdsOnlyGrow(st, run, k, i);
      ClosesOpen(run.states[k], run.steps[k], c);
    }
  }

  /** And it was opened by the commit that wrote its result. */
  lemma {:induction false} CaseOpening(st: Settings, run: Run, i: nat, c: nat) returns (k: nat)
    requires IsRun(st, run) && i < |run.states| && c in run.states[i].db.cases
    ensures k < i && Opens(st, run.states[k], run.steps[k], c)
    ensures run.states[i].db.cases[c].tenant == WriterTenant(st, run.states[k], run.steps[k])
    ensures run.states[i].db.cases[c].result == run.states[k].db.nextResult
  {
    hide Enabled, Exec, Writes;
    if i == 0 {
      StartsEmpty(run);
      assert false;
    } else {
      RunKeepsInv(st, run, i - 1);
      RunStep(st, run, i - 1);
      CasesAfter(st, run.states[i - 1], run.steps[i - 1], c);
      if c in run.states[i - 1].db.cases {
        k := CaseOpening(st, run, i - 1, c);
      } else {
        k := i - 1;
      }
    }
  }

  /** The requests so far that closed an exception the tenant still has. */
  function ClosingSteps(run: Run, i: nat, t: nat): set<nat>
    requires i <= |run.steps| < |run.states|
  {
    set k | 0 <= k < i && run.steps[k].CloseException? && run.steps[k].tenant == t
            && Closes(run.states[k], run.steps[k], run.steps[k].id) && run.steps[k].id in CasesOf(run.states[i].db, t)
  }

  function ClosedOf(db: Db, t: nat): set<nat> { set c | c in CasesOf(db, t) && db.cases[c].closedAt.Some? }

  /** No exception is closed twice. */
  lemma ClosedOnce(st: Settings, run: Run, k: nat, c: nat)
    requires IsRun(st, run) && k < |run.steps| && Closes(run.states[k], run.steps[k], c)
    ensures forall j :: 0 <= j < k ==> !Closes(run.states[j], run.steps[j], c)
  {
    hide Enabled, Exec, Closes;
    ClosesOpen(run.states[k], run.steps[k], c);
    CaseHistory(st, run, k, c);
  }

  lemma ClosedByRequests(st: Settings, run: Run, i: nat, t: nat)
    requires IsRun(st, run) && i < |run.states|
    ensures |ClosingSteps(run, i, t)| == |ClosedOf(run.states[i].db, t)|
  {
    hide Enabled, Exec;
    var db := run.states[i].db;
    var m := map k | k in ClosingSteps(run, i, t) :: run.steps[k].id;
    forall k | k in m ensures m[k] in ClosedOf(db, t) { CaseHistory(st, run, i, m[k]); }
    forall c | c in ClosedOf(db, t) ensures exists k :: k in m && m[k] == c {
      CaseHistory(st, run, i, c);
      var k :| 0 <= k < i && Closes(run.states[k], run.steps[k], c);
      SameOwner(st, run, k, i, c);
      assert k in m && m[k] == c;
    }
    forall j, k | j in m && k in m && m[j] == m[k] ensures j == k {
      ClosedOnce(st, run, j, m[j]);
      ClosedOnce(st, run, k, m[k]);
    }
    SameCard(ClosingSteps(run, i, t), ClosedOf(db, t), m);
  }

  /** A case keeps its tenant for as long as it exists. */
  lemma {:induction false} SameOwner(st: Settings, run: Run, i: nat, j: nat, c: nat)
    requires IsRun(st, run) && i <= j < |run.states|
    requires c in run.states[i].db.cases && c in run.states[j].db.cases
    ensures run.states[j].db.cases[c].tenant == run.states[i].db.cases[c].tenant
    decreases j - i
  {
    hide Enabled, Exec;
    if i < j {
      RunStepEvolves(st, run, j - 1);
      IdsOnlyGrow(st, run, i, j - 1);
      if c in run.states[j - 1].db.cases { SameOwner(st, run, i, j - 1, c); }
    }
  }

  /** In every reachable state the open exceptions are the tenant's exceptions less its own
      requests to close one. */
  lemma OpenExceptionsCounted(st: Settings, run: Run, i: nat, t: nat, cutoff: int)
    requires IsRun(st, run) && i < |run.states|
    ensures FetchStats(run.states[i].db, t, cutoff).openExceptions + |ClosingSteps(run, i, t)|
         == |CasesOf(run.states[i].db, t)|
  {
    hide Enabled, Exec, Closes;
    var db := run.states[i].db;
    ClosedByRequests(st, run, i, t);
    assert CasesOf(db, t) == OpenCases(db, t) + ClosedOf(db, t) && OpenCases(db, t) !! ClosedOf(db, t);
  }

  /* --------------------------------- Last visits --------------------------------- */

  /** The account is created or used. */
  predicate Visits(step: Step, a: nat) {
    (step.CreateAccount? && step.id == a) || (step.TouchAccount? && step.id == a)
  }

  /** Only visits and deletions touch the accounts. */
  lemma OthersLeaveAccounts(st: Settings, s: Sys, step: Step)
    requires Enabled(st, s, step) && !step.CreateAccount? && !step.TouchAccount? && !step.Retire?
    ensures Exec(st, s, step).db.accounts == s.db.accounts
  {
    if step.IngestKey? {
      IngestStepDb(st, s, step);
    } else if step.CloseException? {
      CloseStepDb(st, s, step);
    } else if Committed(s, step).Some? {
      CommitIsApply(st, s, step);
    }
    if step.IngestKey? || step.CloseException? || Committed(s, step).Some? {
      hide Exec, Enabled, LandsOn, MessageAfter, RowAfter, DecisionOf, OutcomeOf, MarkReconciled;
    } else {
      QuietLeavesAccounts(st, s, step);
      hide Exec, Enabled;
    }
  }

  lemma QuietLeavesAccounts(st: Settings, s: Sys, step: Step)
    requires Enabled(st, s, step) && Quiet(s, step) && !step.CreateAccount? && !step.TouchAccount?
    ensures Exec(st, s, step).db.accounts == s.db.accounts
  {
    hide LandsOn, Stale, BestPartner, Candidates, ReadTask, IntentUsable, OutcomeOf, Apply, DecisionOf, Ingest,
      DeleteTenant, CloseCase;
  }

  lemma AccountsAfter(st: Settings, s: Sys, step: Step, a: nat)
    requires Enabled(st, s, step) && a in Exec(st, s, step).db.accounts
    ensures if Visits(step, a) then Exec(st, s, step).db.accounts[a].lastSeen == s.now
            else a in s.db.accounts && Exec(st, s, step).db.accounts[a] == s.db.accounts[a]
    ensures step.CreateAccount? && step.id == a ==> Exec(st, s, step).db.accounts[a].kind == step.kind
    ensures a in s.db.accounts ==> Exec(st, s, step).db.accounts[a].kind == s.db.accounts[a].kind
  {
    if step.Retire? {
      RetireStepDb(st, s, step);
      DeleteLeavesOthers(s.db, step.tenant);
      hide Exec, Enabled, DeleteTenant;
    } else if !step.CreateAccount? && !step.TouchAccount? {
      OthersLeaveAccounts(st, s, step);
      hide Exec, Enabled;
    } else {
      hide DeleteTenant, LandsOn, Stale, BestPartner, Candidates, ReadTask, IntentUsable, OutcomeOf, DecisionOf;
    }
  }

  /** An account was last seen at the step that created it or refreshed it last. */
  lemma {:induction false} LastSeenIsLastVisit(st: Settings, run: Run, i: nat, a: nat) returns (k: nat)
    requires IsRun(st, run) && i < |run.states| && a in run.states[i].db.accounts
    ensures k < i && Visits(run.steps[k], a) && run.states[i].db.accounts[a].lastSeen == run.states[k].now
    ensures forall j :: k < j < i ==> !Visits(run.steps[j], a)
  {
    hide Enabled, Exec;
    if i == 0 {
      StartsEmpty(run);
      assert false;
    } else {
      RunStep(st, run, i - 1);
      AccountsAfter(st, run.states[i - 1], run.steps[i - 1], a);
      if Visits(run.steps[i - 1], a) {
        k := i - 1;
      } else {
        k := LastSeenIsLastVisit(st, run, i - 1, a);
      }
    }
  }
}
