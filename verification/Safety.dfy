/** What holds in every reachable state, whatever crashes, is redelivered, or goes stale. */
module Safety {
  import opened Basics
  import opened Matching
  import opened Tables
  import opened TablesProofs
  import opened Protocol

  /* ---------------------- How the tables may evolve ---------------------- */

  ghost predicate RowsEvolve(db: Db, db': Db, retired: Option<nat>) {
    && (forall ref :: ref in db.rows && retired != Some(db.rows[ref].facts.tenant) ==> ref in db'.rows)
    && (forall ref :: ref in db.rows && ref in db'.rows ==>
          && db'.rows[ref].facts == db.rows[ref].facts
          && db'.rows[ref].key == db.rows[ref].key
          && db'.rows[ref].dupCount >= db.rows[ref].dupCount
          && (db.rows[ref].reconciledAt.Some? ==> db'.rows[ref].reconciledAt == db.rows[ref].reconciledAt))
    && (forall ref :: ref in db'.rows && ref !in db.rows ==> ref.id >= NextId(db, ref.side))
  }

  ghost predicate ResultsEvolve(db: Db, db': Db, retired: Option<nat>) {
    && (forall r :: r in db.results && retired != Some(db.results[r].tenant) ==> r in db'.results)
    && (forall r :: r in db.results && r in db'.results ==> db'.results[r] == db.results[r])
    && (forall r :: r in db'.results && r !in db.results ==> r >= db.nextResult)
  }

  ghost predicate CasesEvolve(db: Db, db': Db, retired: Option<nat>) {
    && (forall c :: c in db.cases && retired != Some(db.cases[c].tenant) ==> c in db'.cases)
    && (forall c :: c in db.cases && c in db'.cases ==>
          && db'.cases[c].tenant == db.cases[c].tenant
          && db'.cases[c].result == db.cases[c].result
          && (db.cases[c].closedAt.Some? ==> db'.cases[c] == db.cases[c]))
    && (forall c :: c in db'.cases && c !in db.cases ==> c >= db.nextCase)
  }

  ghost predicate SequencesAdvance(db: Db, db': Db) {
    && db'.nextGateway >= db.nextGateway && db'.nextLedger >= db.nextLedger
    && db'.nextResult >= db.nextResult && db'.nextCase >= db.nextCase && db'.nextEvent >= db.nextEvent
    && (forall e :: e in db.outbox ==> e in db'.outbox && db'.outbox[e].msg == db.outbox[e].msg)
  }

  ghost predicate Evolves(db: Db, db': Db, retired: Option<nat>) {
    RowsEvolve(db, db', retired) && ResultsEvolve(db, db', retired) && CasesEvolve(db, db', retired)
    && SequencesAdvance(db, db')
  }

  function RetiredBy(step: Step): Option<nat> { if step.Retire? then Some(step.tenant) else None }

  lemma IngestEvolves(db: Db, ref: Ref, tenant: nat, sub: Submission, count: nat, now: int)
    requires IdsBelowNext(db) && count >= 1 && LandsOn(db, tenant, ref.side, sub.key, ref)
    ensures Evolves(db, Ingest(db, ref, tenant, sub, count, now), None)
  {
    IngestRowsEvolve(db, ref, tenant, sub, count, now);
    IngestElsewhere(db, ref, tenant, sub, count, now);
    hide RowsEvolve, Ingest, IdsBelowNext, LandsOn;
  }

  lemma IngestElsewhere(db: Db, ref: Ref, tenant: nat, sub: Submission, count: nat, now: int)
    requires count >= 1 && forall e :: e in db.outbox ==> e < db.nextEvent
    ensures var db' := Ingest(db, ref, tenant, sub, count, now);
      db'.results == db.results && db'.cases == db.cases && SequencesAdvance(db, db')
  {
    hide RowAfter, MessageAfter;
  }

  lemma IngestRowsEvolve(db: Db, ref: Ref, tenant: nat, sub: Submission, count: nat, now: int)
    requires count >= 1 && LandsOn(db, tenant, ref.side, sub.key, ref)
    ensures RowsEvolve(db, Ingest(db, ref, tenant, sub, count, now), None)
  {
    hide MessageAfter;
  }

  lemma ApplyEvolves(db: Db, d: Decision, tenant: nat, now: int)
    requires IdsBelowNext(db)
    ensures Evolves(db, Apply(db, d, tenant, now), None)
  {
    InsertedRows(db, d, tenant, now);
  }

  lemma CloseEvolves(db: Db, tenant: nat, cid: nat, notes: string, now: int)
    ensures Evolves(db, CloseCase(db, tenant, cid, notes, now), None)
  {
  }

  lemma DeleteEvolves(db: Db, tenant: nat)
    ensures Evolves(db, DeleteTenant(db, tenant), Some(tenant))
  {
    DeleteLeavesOthers(db, tenant);
  }

  lemma SameRecordsEvolve(db: Db, db': Db)
    requires SameRecords(db, db')
    ensures Evolves(db, db', None)
  {
  }

  /** The intent a step commits, if it commits one. */
  function Committed(s: Sys, step: Step): Option<Intent> {
    match step
    case WorkerCommit(a) => if a in s.agents && s.agents[a].Working? then s.agents[a].intent else None
    case SweepCommit(a) => if a in s.agents && s.agents[a].Sweeping? then Some(s.agents[a].target) else None
    case _ => None
  }

  lemma CommitIsApply(st: Settings, s: Sys, step: Step)
    requires Enabled(st, s, step) && Committed(s, step).Some?
    ensures var i := Committed(s, step).value;
      && (i.Pair? ==> Viable(i.candidate, i.partner, st.cfg))
      && Exec(st, s, step).db == Apply(s.db, DecisionOf(i, st.cfg), i.candidate.tenant, s.now)
  {
    hide Conflicts, ReferencesHold, InsertResult, BestPartner, Candidates, Stale, LandsOn, ClassifyPair;
  }

  lemma IngestStepDb(st: Settings, s: Sys, step: Step)
    requires Enabled(st, s, step) && step.IngestKey?
    ensures step.tenant in s.db.accounts && step.count >= 1
    ensures LandsOn(s.db, step.tenant, step.ref.side, step.sub.key, step.ref)
    ensures Exec(st, s, step).db == Ingest(s.db, step.ref, step.tenant, step.sub, step.count, s.now)
  {
    hide Ingest, LandsOn;
  }

  lemma CloseStepDb(st: Settings, s: Sys, step: Step)
    requires Enabled(st, s, step) && step.CloseException?
    ensures Exec(st, s, step).db == CloseCase(s.db, step.tenant, step.id, step.notes, s.now)
  {
    hide CloseCase;
  }

  lemma RetireStepDb(st: Settings, s: Sys, step: Step)
    requires Enabled(st, s, step) && step.Retire?
    ensures Exec(st, s, step).db == DeleteTenant(s.db, step.tenant)
  {
    hide DeleteTenant;
  }

  /** Every other step leaves rows, results and cases alone. */
  predicate Quiet(s: Sys, step: Step) {
    !step.IngestKey? && !step.CloseException? && !step.Retire? && Committed(s, step).None?
  }

  lemma QuietStepDb(st: Settings, s: Sys, step: Step)
    requires Enabled(st, s, step) && Quiet(s, step)
    ensures SameRecords(s.db, Exec(st, s, step).db)
  {
    hide LandsOn, Stale, BestPartner, Candidates, ReadTask, IntentUsable, OutcomeOf, DecisionOf;
  }

  /** What one step does to the tables: an ingest, a commit, a close, a tenant's deletion, or
      nothing that touches rows, results or cases. */
  lemma StepEvolves(st: Settings, s: Sys, step: Step)
    requires Enabled(st, s, step) && IdsBelowNext(s.db)
    ensures Evolves(s.db, Exec(st, s, step).db, RetiredBy(step))
  {
    hide Evolves, IdsBelowNext, Ingest, Apply, CloseCase, DeleteTenant, SameRecords, LandsOn, Exec, Enabled, DecisionOf;
    if step.IngestKey? {
      IngestStepDb(st, s, step);
      IngestEvolves(s.db, step.ref, step.tenant, step.sub, step.count, s.now);
    } else if step.CloseException? {
      CloseStepDb(st, s, step);
      CloseEvolves(s.db, step.tenant, step.id, step.notes, s.now);
    } else if step.Retire? {
      RetireStepDb(st, s, step);
      DeleteEvolves(s.db, step.tenant);
    } else if Committed(s, step).Some? {
      CommitIsApply(st, s, step);
      var i := Committed(s, step).value;
      ApplyEvolves(s.db, DecisionOf(i, st.cfg), i.candidate.tenant, s.now);
    } else {
      QuietStepDb(st, s, step);
      SameRecordsEvolve(s.db, Exec(st, s, step).db);
    }
  }

  /* ------------------------- What processes hold ------------------------- */

  ghost predicate ListingSound(st: Settings, s: Sys, queue: seq<Facts>) {
    forall f :: f in queue ==> Known(s.db, f) && f.received + st.unmatchedAfter < s.now
  }

  ghost predicate TaskSound(st: Settings, s: Sys, t: Task) {
    match t
    case Working(_, _, intent) => intent.Some? ==> IntentSound(st, s.db, s.now, intent.value)
    case Acking(_) => true
    case Listing(queue) => ListingSound(st, s, queue)
    case Sweeping(i, rest) => IntentSound(st, s.db, s.now, i) && ListingSound(st, s, rest)
  }

  ghost predicate AgentsSound(st: Settings, s: Sys) {
    forall a :: a in s.agents ==> TaskSound(st, s, s.agents[a])
  }

  ghost predicate EntriesSane(s: Sys) {
    forall n :: n in s.log ==> MessageSane(s.db, s.log[n].msg)
  }

  ghost predicate SysInv(st: Settings, s: Sys) {
    DbInv(st, s.db) && AgentsSound(st, s) && EntriesSane(s)
  }

  lemma KnownPersists(db: Db, db': Db, retired: Option<nat>, f: Facts)
    requires RowsEvolve(db, db', retired) && SequencesAdvance(db, db') && Known(db, f)
    ensures Known(db', f)
  {
  }

  lemma MessagePersists(db: Db, db': Db, retired: Option<nat>, m: Message)
    requires RowsEvolve(db, db', retired) && SequencesAdvance(db, db') && MessageSane(db, m)
    ensures MessageSane(db', m)
  {
  }

  lemma IntentPersists(st: Settings, db: Db, db': Db, retired: Option<nat>, now: int, now': int, i: Intent)
    requires RowsEvolve(db, db', retired) && SequencesAdvance(db, db') && now <= now'
    requires IntentSound(st, db, now, i)
    ensures IntentSound(st, db', now', i)
  {
    KnownPersists(db, db', retired, i.candidate);
    if i.Pair? { KnownPersists(db, db', retired, i.partner); }
  }

  lemma TaskPersists(st: Settings, s: Sys, s': Sys, retired: Option<nat>, t: Task)
    requires RowsEvolve(s.db, s'.db, retired) && SequencesAdvance(s.db, s'.db) && s.now <= s'.now
    requires TaskSound(st, s, t)
    ensures TaskSound(st, s', t)
  {
    match t
    case Working(_, _, intent) =>
      if intent.Some? { IntentPersists(st, s.db, s'.db, retired, s.now, s'.now, intent.value); }
    case Acking(_) =>
    case Listing(queue) => QueuePersists(st, s, s', retired, queue);
    case Sweeping(i, rest) =>
      IntentPersists(st, s.db, s'.db, retired, s.now, s'.now, i);
      QueuePersists(st, s, s', retired, rest);
  }

  lemma QueuePersists(st: Settings, s: Sys, s': Sys, retired: Option<nat>, queue: seq<Facts>)
    requires RowsEvolve(s.db, s'.db, retired) && SequencesAdvance(s.db, s'.db) && s.now <= s'.now
    requires ListingSound(st, s, queue)
    ensures ListingSound(st, s', queue)
  {
    forall f | f in queue ensures Known(s'.db, f) { KnownPersists(s.db, s'.db, retired, f); }
  }

  /** A candidate read from the tables is one of its rows, on the other side, pending. */
  lemma CandidateIsRow(db: Db, c: Facts, cfg: Config, o: Facts)
    requires IdsBelowNext(db) && o in Candidates(db, c, cfg)
    ensures PendingFacts(db, o) && InWindow(c, o, cfg)
  {
  }

  lemma ReadIsSound(st: Settings, s: Sys, step: Step, a: nat)
    requires SysInv(st, s) && Enabled(st, s, step) && step.WorkerRead? && step.agent == a
    ensures TaskSound(st, Exec(st, s, step), Exec(st, s, step).agents[a])
  {
    var t := ReadTask(s, step.entry, step.partner);
    if t.Working? {
      var msg := s.log[step.entry].msg;
      var c := s.db.rows[MessageRef(msg)].facts;
      assert Known(s.db, c);
      assert MessageSane(s.db, msg);
      if step.partner.Some? { CandidateIsRow(s.db, c, st.cfg, step.partner.value); }
    }
  }

  lemma SweepReadIsSound(st: Settings, s: Sys, step: Step, a: nat)
    requires SysInv(st, s) && Enabled(st, s, step) && step.SweepRead? && step.agent == a
    ensures TaskSound(st, Exec(st, s, step), Exec(st, s, step).agents[a])
  {
    var queue := s.agents[a].queue;
    assert TaskSound(st, s, s.agents[a]);
    assert queue[0] in queue;
    if step.partner.Some? { CandidateIsRow(s.db, queue[0], st.cfg, step.partner.value); }
    assert forall f :: f in queue[1..] ==> f in queue;
  }

  lemma SweepListIsSound(st: Settings, s: Sys, step: Step)
    requires SysInv(st, s) && Enabled(st, s, step) && step.SweepList?
    ensures TaskSound(st, Exec(st, s, step), Exec(st, s, step).agents[step.agent])
  {
    forall f | f in step.queue ensures Known(s.db, f) && f.received + st.unmatchedAfter < s.now {
      assert Stale(st, s, f);
    }
  }

  /** A step changes what at most one process is doing: the one it belongs to. */
  lemma OtherAgentsIdle(st: Settings, s: Sys, step: Step, a: nat)
    requires Enabled(st, s, step) && a in Exec(st, s, step).agents
    ensures (a in s.agents && Exec(st, s, step).agents[a] == s.agents[a])
         || ((step.WorkerRead? || step.WorkerCommit? || step.SweepList? || step.SweepRead? || step.SweepCommit?)
           && step.agent == a)
  {
    hide Enabled, Ingest, Apply, CloseCase, DeleteTenant, MarkPublished, OutcomeOf, DecisionOf, ReadTask;
  }

  lemma SweepCommitIsSound(st: Settings, s: Sys, step: Step, a: nat)
    requires SysInv(st, s) && Enabled(st, s, step) && step.SweepCommit? && step.agent == a
    requires a in Exec(st, s, step).agents
    ensures TaskSound(st, Exec(st, s, step), Exec(st, s, step).agents[a])
  {
    StepEvolves(st, s, step);
    assert TaskSound(st, s, s.agents[a]);
    SweepCommitLeaves(st, s, step);
    hide Enabled, Exec, DbInv, EntriesSane, AgentsSound;
    QueuePersists(st, s, Exec(st, s, step), None, s.agents[a].rest);
  }

  lemma SweepCommitLeaves(st: Settings, s: Sys, step: Step)
    requires Enabled(st, s, step) && step.SweepCommit?
    ensures step.agent in s.agents && s.agents[step.agent].Sweeping? && Exec(st, s, step).now == s.now
    ensures step.agent in Exec(st, s, step).agents
      ==> Exec(st, s, step).agents[step.agent] == Listing(s.agents[step.agent].rest)
  {
    hide Apply, OutcomeOf, DecisionOf;
  }

  lemma NewTaskSound(st: Settings, s: Sys, step: Step, a: nat)
    requires SysInv(st, s) && Enabled(st, s, step)
    requires step.WorkerRead? || step.WorkerCommit? || step.SweepList? || step.SweepRead? || step.SweepCommit?
    requires step.agent == a && a in Exec(st, s, step).agents
    ensures TaskSound(st, Exec(st, s, step), Exec(st, s, step).agents[a])
  {
    if step.WorkerRead? {
      ReadIsSound(st, s, step, a);
    } else if step.SweepRead? {
      SweepReadIsSound(st, s, step, a);
    } else if step.SweepList? {
      SweepListIsSound(st, s, step);
    } else if step.SweepCommit? {
      SweepCommitIsSound(st, s, step, a);
    } else {
      CommitLeavesAck(st, s, step, a);
    }
    hide Exec, Enabled, SysInv;
  }

  lemma CommitLeavesAck(st: Settings, s: Sys, step: Step, a: nat)
    requires Enabled(st, s, step) && step.WorkerCommit? && step.agent == a && a in Exec(st, s, step).agents
    ensures Exec(st, s, step).agents[a].Acking?
  {
    hide Apply, OutcomeOf, DecisionOf;
  }

  lemma NextKeepsAgents(st: Settings, s: Sys, step: Step)
    requires SysInv(st, s) && Enabled(st, s, step)
    ensures AgentsSound(st, Exec(st, s, step))
  {
    StepEvolves(st, s, step);
    forall a | a in Exec(st, s, step).agents ensures TaskSound(st, Exec(st, s, step), Exec(st, s, step).agents[a]) {
      OtherAgentsIdle(st, s, step, a);
      if a in s.agents && Exec(st, s, step).agents[a] == s.agents[a] {
        ClockAdvances(st, s, step);
        TaskPersists(st, s, Exec(st, s, step), RetiredBy(step), s.agents[a]);
      } else {
        NewTaskSound(st, s, step, a);
      }
    }
  }

  lemma ClockAdvances(st: Settings, s: Sys, step: Step)
    requires Enabled(st, s, step)
    ensures s.now <= Exec(st, s, step).now
  {
    hide Ingest, Apply, CloseCase, DeleteTenant, MarkPublished, OutcomeOf, DecisionOf, ReadTask, LandsOn, BestPartner,
      Candidates, Stale;
  }

  lemma NewEntries(st: Settings, s: Sys, step: Step, n: nat)
    requires Enabled(st, s, step) && n in Exec(st, s, step).log
    ensures (n in s.log && Exec(st, s, step).log[n] == s.log[n])
         || exists e :: e in s.db.outbox && Exec(st, s, step).log[n] == Entry(e, s.db.outbox[e].msg)
  {
    if step.RelayPublish? {
      var e := s.relays[step.relay].events[s.relays[step.relay].done];
      assert e in s.db.outbox;
    }
    hide Ingest, Apply, CloseCase, DeleteTenant, MarkPublished, OutcomeOf, LandsOn, BestPartner, Candidates, Stale,
      DecisionOf;
  }

  lemma NextKeepsEntries(st: Settings, s: Sys, step: Step)
    requires SysInv(st, s) && Enabled(st, s, step)
    ensures EntriesSane(Exec(st, s, step))
  {
    var s' := Exec(st, s, step);
    StepEvolves(st, s, step);
    hide Enabled, Exec, IdsBelowNext, KeysUnique, ForeignKeys, TenantsAgree, OneActive, OneMarker, ReconciledByResult,
      AllJustified, CasesMatch, AgentsSound, RowsEvolve, ResultsEvolve, CasesEvolve, SequencesAdvance, MessageSane;
    forall n | n in s'.log ensures MessageSane(s'.db, s'.log[n].msg) {
      NewEntries(st, s, step, n);
      MessagePersists(s.db, s'.db, RetiredBy(step), s'.log[n].msg);
    }
  }

  /** What a step commits was sound when it was read and is sound still. */
  lemma CommittedSound(st: Settings, s: Sys, step: Step)
    requires AgentsSound(st, s) && Committed(s, step).Some?
    ensures IntentSound(st, s.db, s.now, Committed(s, step).value)
  {
    assert TaskSound(st, s, s.agents[step.agent]);
  }

  lemma NextKeepsDb(st: Settings, s: Sys, step: Step)
    requires SysInv(st, s) && Enabled(st, s, step)
    ensures DbInv(st, Exec(st, s, step).db)
  {
    hide DbInv, AgentsSound, EntriesSane, Ingest, Apply, CloseCase, DeleteTenant, SameRecords, LandsOn, Exec, Enabled,
      DecisionOf, IntentSound;
    if step.IngestKey? {
      IngestStepDb(st, s, step);
      IngestKeepsInv(st, s.db, step.ref, step.tenant, step.sub, step.count, s.now);
    } else if step.CloseException? {
      CloseStepDb(st, s, step);
      CloseKeepsInv(st, s.db, step.tenant, step.id, step.notes, s.now);
    } else if step.Retire? {
      RetireStepDb(st, s, step);
      DeleteKeepsInv(st, s.db, step.tenant);
    } else if Committed(s, step).Some? {
      CommittedSound(st, s, step);
      CommitIsApply(st, s, step);
      ApplyKeepsInv(st, s.db, s.now, Committed(s, step).value);
    } else {
      QuietStepDb(st, s, step);
      SameRecordsKeepInv(st, s.db, Exec(st, s, step).db);
    }
  }

  lemma NextKeepsInv(st: Settings, s: Sys, step: Step)
    requires SysInv(st, s) && Enabled(st, s, step)
    ensures SysInv(st, Exec(st, s, step))
  {
    NextKeepsDb(st, s, step);
    NextKeepsAgents(st, s, step);
    NextKeepsEntries(st, s, step);
  }

  lemma InitInv(st: Settings, s: Sys)
    requires Init(s)
    ensures SysInv(st, s)
  {
  }

  /** The invariant holds in every state of every run. */
  lemma {:induction false} RunKeepsInv(st: Settings, run: Run, i: nat)
    requires IsRun(st, run) && i < |run.states|
    ensures SysInv(st, run.states[i])
  {
    hide SysInv, Init, Enabled, Exec;
    if i == 0 {
      InitInv(st, run.states[0]);
    } else {
      RunKeepsInv(st, run, i - 1);
      assert Next(st, run.states[i - 1], run.steps[i - 1], run.states[i]);
      NextKeepsInv(st, run.states[i - 1], run.steps[i - 1]);
    }
  }

  lemma RunStep(st: Settings, run: Run, k: nat)
    requires IsRun(st, run) && k < |run.steps|
    ensures Next(st, run.states[k], run.steps[k], run.states[k + 1])
    ensures IdsBelowNext(run.states[k].db)
  {
    RunKeepsInv(st, run, k);
  }

  lemma RunStepEvolves(st: Settings, run: Run, k: nat)
    requires IsRun(st, run) && k < |run.steps|
    ensures Evolves(run.states[k].db, run.states[k + 1].db, RetiredBy(run.steps[k]))
  {
    RunKeepsInv(st, run, k);
    assert Next(st, run.states[k], run.steps[k], run.states[k + 1]);
    StepEvolves(st, run.states[k], run.steps[k]);
  }

  /* ------------------------------ Theorems ------------------------------ */

  /** Effectively-once: in every reachable state, with any number of workers and sweepers
      holding stale decisions, a raw row has at most one active result and at most one
      duplicate marker, and its `reconciled_at` is set exactly when an active result names it. */
  lemma EffectivelyOnce(st: Settings, run: Run, i: nat, ref: Ref)
    requires IsRun(st, run) && i < |run.states|
    ensures var db := run.states[i].db;
      && (forall a, b :: ActiveOn(db, a, ref) && ActiveOn(db, b, ref) ==> a == b)
      && (forall a, b :: MarkerOn(db, a, ref) && MarkerOn(db, b, ref) ==> a == b)
      && (ref in db.rows ==> (!db.rows[ref].Pending() <==> exists r :: ActiveOn(db, r, ref)))
      && (forall r :: ActiveOn(db, r, ref) ==> ref in db.rows && !db.rows[ref].Pending())
  {
    RunKeepsInv(st, run, i);
    var db := run.states[i].db;
    forall r | ActiveOn(db, r, ref) ensures ref in db.rows { assert db.results[r].Names(ref); }
  }

  /** Every stored pairing is the matcher's verdict on two stored rows of the result's own
      tenant, and every break was declared only after the configured wait. */
  lemma ResultsJustified(st: Settings, run: Run, i: nat, r: nat)
    requires IsRun(st, run) && i < |run.states| && r in run.states[i].db.results
    ensures var db := run.states[i].db;
      var res := db.results[r];
      && Justified(st, db, res)
      && (forall ref: Ref :: res.Names(ref) ==> ref in db.rows && db.rows[ref].facts.tenant == res.tenant)
      && (NeedsHuman(res.status) <==> exists c :: c in db.cases && db.cases[c].result == r)
      && (forall a, b :: a in db.cases && b in db.cases && db.cases[a].result == r && db.cases[b].result == r
            ==> a == b)
  {
    RunKeepsInv(st, run, i);
  }

  predicate NotRetired(run: Run, tenant: nat, i: nat, j: nat)
    requires i <= j <= |run.steps|
  {
    forall k :: i <= k < j ==> run.steps[k] != Retire(tenant)
  }

  lemma RunStepKeepsStamp(st: Settings, run: Run, k: nat, ref: Ref)
    requires IsRun(st, run) && k < |run.steps| && ref in run.states[k].db.rows
    requires run.steps[k] != Retire(run.states[k].db.rows[ref].facts.tenant)
    ensures var row := run.states[k].db.rows[ref];
      && ref in run.states[k + 1].db.rows && run.states[k + 1].db.rows[ref].facts == row.facts
      && (row.reconciledAt.Some? ==> run.states[k + 1].db.rows[ref].reconciledAt == row.reconciledAt)
  {
    hide Enabled, Exec, ResultsEvolve, CasesEvolve, SequencesAdvance;
    RunStepEvolves(st, run, k);
  }

  /** A row outlives everything but its tenant, and a timestamp once set never moves. */
  lemma {:induction false} StampNeverMoves(st: Settings, run: Run, i: nat, j: nat, ref: Ref)
    requires IsRun(st, run) && i <= j <= |run.steps| && ref in run.states[i].db.rows
    requires NotRetired(run, run.states[i].db.rows[ref].facts.tenant, i, j)
    ensures var row := run.states[i].db.rows[ref];
      && ref in run.states[j].db.rows && run.states[j].db.rows[ref].facts == row.facts
      && (row.reconciledAt.Some? ==> run.states[j].db.rows[ref].reconciledAt == row.reconciledAt)
    decreases j - i
  {
    hide Enabled, Exec;
    if i < j {
      StampNeverMoves(st, run, i, j - 1, ref);
      RunStepKeepsStamp(st, run, j - 1, ref);
    }
  }

  /** Stability: until its tenant is deleted, a result never changes, the rows it names keep
      their facts and their `reconciled_at`, and no other active result ever names them. */
  lemma ResultsAreFinal(st: Settings, run: Run, i: nat, j: nat, r: nat)
    requires IsRun(st, run) && i <= j <= |run.steps|
    requires r in run.states[i].db.results && run.states[i].db.results[r].status != Duplicate
    requires NotRetired(run, run.states[i].db.results[r].tenant, i, j)
    ensures var db, db' := run.states[i].db, run.states[j].db;
      && r in db'.results && db'.results[r] == db.results[r]
      && (forall ref: Ref :: db.results[r].Names(ref) ==>
            && ref in db.rows && ref in db'.rows
            && db'.rows[ref].facts == db.rows[ref].facts
            && db.rows[ref].reconciledAt.Some? && db'.rows[ref].reconciledAt == db.rows[ref].reconciledAt
            && forall other :: ActiveOn(db', other, ref) ==> other == r)
  {
    hide Enabled, Exec;
    ResultPersists(st, run, i, j, r);
    RunKeepsInv(st, run, i);
    var db, db' := run.states[i].db, run.states[j].db;
    forall ref: Ref | db.results[r].Names(ref)
      ensures ref in db.rows && ref in db'.rows
      ensures db'.rows[ref].facts == db.rows[ref].facts
      ensures db.rows[ref].reconciledAt.Some? && db'.rows[ref].reconciledAt == db.rows[ref].reconciledAt
      ensures forall other :: ActiveOn(db', other, ref) ==> other == r
    {
      NamedRowFinal(st, run, i, j, r, ref);
    }
  }

  lemma NamedRowFinal(st: Settings, run: Run, i: nat, j: nat, r: nat, ref: Ref)
    requires IsRun(st, run) && i <= j <= |run.steps|
    requires ActiveOn(run.states[i].db, r, ref)
    requires NotRetired(run, run.states[i].db.results[r].tenant, i, j)
    ensures var db, db' := run.states[i].db, run.states[j].db;
      && ref in db.rows && ref in db'.rows
      && db'.rows[ref].facts == db.rows[ref].facts
      && db.rows[ref].reconciledAt.Some? && db'.rows[ref].reconciledAt == db.rows[ref].reconciledAt
      && forall other :: ActiveOn(db', other, ref) ==> other == r
  {
    hide Enabled, Exec, NotRetired;
    EffectivelyOnce(st, run, i, ref);
    EffectivelyOnce(st, run, j, ref);
    NamesOwnTenant(st, run, i, r, ref);
    StampNeverMoves(st, run, i, j, ref);
    ResultPersists(st, run, i, j, r);
    assert ActiveOn(run.states[j].db, r, ref);
  }

  lemma NamesOwnTenant(st: Settings, run: Run, i: nat, r: nat, ref: Ref)
    requires IsRun(st, run) && i < |run.states| && ActiveOn(run.states[i].db, r, ref)
    ensures ref in run.states[i].db.rows
    ensures run.states[i].db.rows[ref].facts.tenant == run.states[i].db.results[r].tenant
  {
    hide Enabled, Exec;
    RunKeepsInv(st, run, i);
    assert run.states[i].db.results[r].Names(ref);
  }

  lemma {:induction false} ResultPersists(st: Settings, run: Run, i: nat, j: nat, r: nat)
    requires IsRun(st, run) && i <= j <= |run.steps|
    requires r in run.states[i].db.results
    requires NotRetired(run, run.states[i].db.results[r].tenant, i, j)
    ensures r in run.states[j].db.results && run.states[j].db.results[r] == run.states[i].db.results[r]
    decreases j - i
  {
    if i < j {
      ResultPersists(st, run, i, j - 1, r);
      RunStepEvolves(st, run, j - 1);
    }
  }

  lemma StoredIsKnown(st: Settings, run: Run, i: nat, ref: Ref)
    requires IsRun(st, run) && i < |run.states| && ref in run.states[i].db.rows
    ensures Known(run.states[i].db, run.states[i].db.rows[ref].facts) && RefOf(run.states[i].db.rows[ref].facts) == ref
  {
    RunKeepsInv(st, run, i);
    hide Enabled, Exec;
  }

  lemma RunStepKeepsKnown(st: Settings, run: Run, k: nat, f: Facts)
    requires IsRun(st, run) && k < |run.steps| && Known(run.states[k].db, f)
    ensures Known(run.states[k + 1].db, f)
  {
    hide Enabled, Exec, Known, RowsEvolve, ResultsEvolve, CasesEvolve, SequencesAdvance;
    RunStepEvolves(st, run, k);
    KnownPersists(run.states[k].db, run.states[k + 1].db, RetiredBy(run.steps[k]), f);
  }

  /** A row id always denotes the same facts: ids are not reused and rows not rewritten. */
  lemma {:induction false} RowFactsFixed(st: Settings, run: Run, i: nat, j: nat, ref: Ref)
    requires IsRun(st, run) && i <= j <= |run.steps|
    requires ref in run.states[i].db.rows
    ensures Known(run.states[j].db, run.states[i].db.rows[ref].facts)
    ensures RefOf(run.states[i].db.rows[ref].facts) == ref
    decreases j - i
  {
    hide Enabled, Exec, Known;
    StoredIsKnown(st, run, i, ref);
    if i < j {
      RowFactsFixed(st, run, i, j - 1, ref);
      RunStepKeepsKnown(st, run, j - 1, run.states[i].db.rows[ref].facts);
    }
  }

  /** Not stored, and its id already issued. */
  ghost predicate Gone(db: Db, ref: Ref) { ref !in db.rows && ref.id < NextId(db, ref.side) }

  lemma EvolutionKeepsGone(db: Db, db': Db, retired: Option<nat>, ref: Ref)
    requires RowsEvolve(db, db', retired) && SequencesAdvance(db, db') && Gone(db, ref)
    ensures Gone(db', ref)
  {
  }

  lemma RunStepKeepsGone(st: Settings, run: Run, k: nat, ref: Ref)
    requires IsRun(st, run) && k < |run.steps| && Gone(run.states[k].db, ref)
    ensures Gone(run.states[k + 1].db, ref)
  {
    RunStepEvolves(st, run, k);
    EvolutionKeepsGone(run.states[k].db, run.states[k + 1].db, RetiredBy(run.steps[k]), ref);
  }

  /** A closed exception keeps its notes and its closing time. */
  lemma {:induction false} ClosedStaysClosed(st: Settings, run: Run, i: nat, j: nat, c: nat)
    requires IsRun(st, run) && i <= j <= |run.steps|
    requires c in run.states[i].db.cases && run.states[i].db.cases[c].closedAt.Some?
    requires NotRetired(run, run.states[i].db.cases[c].tenant, i, j)
    ensures c in run.states[j].db.cases && run.states[j].db.cases[c] == run.states[i].db.cases[c]
    decreases j - i
  {
    if i < j {
      ClosedStaysClosed(st, run, i, j - 1, c);
      RunStepEvolves(st, run, j - 1);
    }
  }
}
