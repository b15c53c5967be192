/** Runs in which no step comes between a read and its commit.  Here a decision is never
    stale, and two guarantees hold for all workloads that split runs give only for some. */
module Atomic {
  import opened Basics
  import opened Matching
  import opened Tables
  import opened Protocol
  import opened Safety
  import opened Delivery
  import opened Progress
  import opened Breaks

  predicate Deciding(s: Sys, a: nat) { a in s.agents && (s.agents[a].Working? || s.agents[a].Sweeping?) }

  /** After a read, the next step is a commit or a crash. */
  ghost predicate AtomicRun(run: Run)
    requires |run.states| == |run.steps| + 1
  {
    forall i, a :: 0 <= i < |run.steps| && Deciding(run.states[i], a) ==>
      run.steps[i].WorkerCommit? || run.steps[i].SweepCommit? || run.steps[i].Crash?
  }

  /** The decision in hand is what the tables say now. */
  ghost predicate Current(st: Settings, db: Db, t: Task) {
    match t
    case Working(_, _, Some(Pair(c, p))) => PendingFacts(db, p)
    case Sweeping(Pair(c, p), _) => PendingFacts(db, p)
    case Sweeping(GiveUp(c), _) => BestPartner(c, Candidates(db, c, st.cfg), st.cfg, None)
    case _ => true
  }

  ghost predicate AtomicInv(st: Settings, s: Sys) {
    && (forall a, b :: Deciding(s, a) && Deciding(s, b) ==> a == b)
    && (forall a :: Deciding(s, a) ==> Current(st, s.db, s.agents[a]))
  }

  ghost predicate AtomicStep(s: Sys, step: Step) {
    step.WorkerCommit? || step.SweepCommit? || step.Crash? || forall a :: a in s.agents ==> !Deciding(s, a)
  }

  lemma ReadIsCurrent(st: Settings, s: Sys, step: Step)
    requires Enabled(st, s, step) && IdsBelowNext(s.db) && (step.WorkerRead? || step.SweepRead?)
    ensures Current(st, Exec(st, s, step).db, Exec(st, s, step).agents[step.agent])
  {
    if step.WorkerRead? && MessageRef(s.log[step.entry].msg) in s.db.rows && step.partner.Some? {
      CandidateIsRow(s.db, s.db.rows[MessageRef(s.log[step.entry].msg)].facts, st.cfg, step.partner.value);
    }
    if step.SweepRead? && step.partner.Some? {
      CandidateIsRow(s.db, s.agents[step.agent].queue[0], st.cfg, step.partner.value);
    }
  }

  /** Who is deciding after a step: whoever just read, or whoever was and did nothing. */
  lemma DecidingAfter(st: Settings, s: Sys, step: Step, a: nat)
    requires Enabled(st, s, step) && Deciding(Exec(st, s, step), a)
    ensures ((step.WorkerRead? || step.SweepRead?) && step.agent == a)
         || (Deciding(s, a) && Exec(st, s, step).agents[a] == s.agents[a]
             && !((step.WorkerCommit? || step.SweepCommit?) && step.agent == a))
  {
    OtherAgentsIdle(st, s, step, a);
  }

  lemma NextKeepsAtomic(st: Settings, s: Sys, step: Step)
    requires Enabled(st, s, step) && IdsBelowNext(s.db) && AtomicInv(st, s) && AtomicStep(s, step)
    ensures AtomicInv(st, Exec(st, s, step))
  {
    forall a | Deciding(Exec(st, s, step), a)
      ensures Current(st, Exec(st, s, step).db, Exec(st, s, step).agents[a])
      ensures forall b :: Deciding(Exec(st, s, step), b) ==> a == b
    {
      DecidingAfter(st, s, step, a);
      forall b | Deciding(Exec(st, s, step), b) ensures a == b { DecidingAfter(st, s, step, b); }
      if step.WorkerRead? || step.SweepRead? {
        ReadIsCurrent(st, s, step);
      } else {
        assert Deciding(s, a);
        assert step.WorkerCommit? || step.SweepCommit? ==> Deciding(s, step.agent);
      }
    }
  }

  lemma RunStepIsAtomic(run: Run, i: nat)
    requires |run.states| == |run.steps| + 1 && AtomicRun(run) && i < |run.steps|
    ensures AtomicStep(run.states[i], run.steps[i])
  {
  }

  lemma RunStepKeepsAtomic(st: Settings, run: Run, i: nat)
    requires IsRun(st, run) && AtomicRun(run) && i < |run.steps| && AtomicInv(st, run.states[i])
    ensures AtomicInv(st, run.states[i + 1])
  {
    var s, step, s' := run.states[i], run.steps[i], run.states[i + 1];
    RunStep(st, run, i);
    RunStepIsAtomic(run, i);
    NextKeepsAtomic(st, s, step);
    assert s' == Exec(st, s, step);
  }

  lemma {:induction false} RunKeepsAtomic(st: Settings, run: Run, i: nat)
    requires IsRun(st, run) && AtomicRun(run) && i < |run.states|
    ensures AtomicInv(st, run.states[i])
  {
    if i > 0 {
      RunKeepsAtomic(st, run, i - 1);
      RunStepKeepsAtomic(st, run, i - 1);
    }
  }

  /* ---------------- No stuck pair, for every workload ---------------- */

  /** A current choice is still pending when it is committed, so no index refuses it. */
  lemma CurrentNeverRefused(st: Settings, s: Sys, step: Step, e: nat, ref: Ref)
    requires Tracked(st, s) && AtomicInv(st, s)
    ensures !Refusal(st, s, step, e, ref)
  {
    if Refusal(st, s, step, e, ref) {
      var t := s.agents[step.agent];
      assert TaskSound(st, s, t) && Deciding(s, step.agent);
      var c, p := t.intent.value.candidate, t.intent.value.partner;
      assert PendingFacts(s.db, p);
      SkippedMeansSpent(st, s.db, s.now, c, p);
    }
  }

  lemma AtomicNeverRefused(st: Settings, run: Run, i: nat, e: nat, ref: Ref)
    requires IsRun(st, run) && AtomicRun(run) && i < |run.states|
    ensures !Refused(st, run, i, e, ref)
  {
    hide Enabled, Exec, Refusal, AtomicInv;
    forall k | 0 <= k < i ensures !Refusal(st, run.states[k], run.steps[k], e, ref) {
      RunTracked(st, run, k);
      RunKeepsAtomic(st, run, k);
      CurrentNeverRefused(st, run.states[k], run.steps[k], e, ref);
    }
  }

  /** No stuck pair when processing is atomic: for any txn_ids, repeated or not. */
  lemma NoStuckPairAtomic(st: Settings, run: Run, i: nat, g: Ref, l: Ref, eg: nat, el: nat)
    requires IsRun(st, run) && AtomicRun(run) && i < |run.states| && NoTrimBefore(run, i) && WindowsNest(st.cfg)
    requires Compatible(st, run.states[i].db, g, l)
    requires FirstReceipt(run.states[i].db, eg, g) && FirstReceipt(run.states[i].db, el, l)
    ensures Open(run.states[i], eg) || Open(run.states[i], el)
  {
    hide Enabled, Exec, Open, Refused, Passed;
    NoStuckPair(st, run, i, g, l, eg, el);
    AtomicNeverRefused(st, run, i, eg, g);
    AtomicNeverRefused(st, run, i, el, l);
  }

  /* ----------------------------- Honest breaks ----------------------------- */

  /** A current give-up is never one of two matchable pending rows. */
  lemma AtomicGivesUpHonestly(st: Settings, s: Sys, step: Step, g: Facts, l: Facts)
    requires IdsBelowNext(s.db) && AtomicInv(st, s) && WindowsNest(st.cfg) && Viable(g, l, st.cfg)
    ensures !StaleGiveUp(s, step, g, l)
  {
    if StaleGiveUp(s, step, g, l) {
      var c := Committed(s, step).value.candidate;
      assert Deciding(s, step.agent);
      DeferredFoundNobody(st, s.db, c, RefOf(l));
      DeferredFoundNobody(st, s.db, c, RefOf(g));
      ClassifyPairSymmetric(g, l, st.cfg);
    }
  }

  /** Honest breaks: when no step comes between a read and its commit, two rows that the
      matcher would pair and that were ever pending at the same time never both end as
      unmatched. */
  lemma HonestBreaks(st: Settings, run: Run, i: nat, j: nat, g: Ref, l: Ref)
    requires IsRun(st, run) && AtomicRun(run) && WindowsNest(st.cfg) && i <= j < |run.states|
    requires Compatible(st, run.states[i].db, g, l)
    ensures !(Broken(run.states[j].db, g) && Broken(run.states[j].db, l))
  {
    hide Enabled, Exec, Broken, StaleGiveUp;
    if Broken(run.states[j].db, g) && Broken(run.states[j].db, l) {
      var k := BreaksOnlyByStaleGiveUp(st, run, i, j, g, l);
      RunStep(st, run, k);
      RunKeepsAtomic(st, run, k);
      AtomicGivesUpHonestly(st, run.states[k], run.steps[k], run.states[i].db.rows[g].facts,
        run.states[i].db.rows[l].facts);
    }
  }
}
