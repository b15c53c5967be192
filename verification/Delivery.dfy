/** The transport: outbox, relays, stream and pending list lose nothing and, when no relay
    crashes, publish each event once. */
module Delivery {
  import opened Basics
  import opened Matching
  import opened Tables
  import opened TablesProofs
  import opened Protocol
  import opened Safety

  /** An entry the group can still be handed: never delivered, or delivered and not acked. */
  predicate InTransit(s: Sys, n: nat) { n in s.log && (n in s.undelivered || n in s.inFlight) }

  ghost predicate Carried(s: Sys, e: nat) { exists n :: InTransit(s, n) && s.log[n].event == e }

  ghost predicate Handled(s: Sys, e: nat) { e in s.processed || Carried(s, e) }

  predicate PublishedBy(s: Sys, r: nat, e: nat) {
    r in s.relays && s.relays[r].done <= |s.relays[r].events| && e in s.relays[r].events[..s.relays[r].done]
  }

  ghost predicate LogSound(s: Sys) {
    && (forall n :: n in s.log ==> n < s.nextEntry && s.log[n].event in s.db.outbox)
    && (forall n :: n in s.undelivered ==> n in s.log)
    && (forall n :: n in s.inFlight ==> n in s.log)
  }

  /** Relays hold disjoint claims on unpublished rows. */
  ghost predicate ClaimsSound(s: Sys) {
    && (forall r :: r in s.relays ==> s.relays[r].done <= |s.relays[r].events| && Distinct(s.relays[r].events))
    && (forall r, e :: r in s.relays && e in s.relays[r].events ==>
          e in s.db.outbox && s.db.outbox[e].publishedAt.None?)
    && (forall q, r, e :: q in s.relays && r in s.relays && e in s.relays[q].events && e in s.relays[r].events
          ==> q == r)
  }

  predicate TaskTracked(s: Sys, t: Task) {
    match t
    case Working(n, item, _) => n in s.log && s.log[n] == item
    case Acking(n) => n in s.log && s.log[n].event in s.processed
    case _ => true
  }

  ghost predicate TasksTracked(s: Sys) { forall a :: a in s.agents ==> TaskTracked(s, s.agents[a]) }

  ghost predicate NothingLost(s: Sys) {
    && (forall e :: e in s.db.outbox && s.db.outbox[e].publishedAt.Some? ==> Handled(s, e))
    && (forall r, e :: PublishedBy(s, r, e) ==> Handled(s, e))
  }

  ghost predicate TransportInv(s: Sys) { LogSound(s) && ClaimsSound(s) && TasksTracked(s) }

  lemma OutboxUntouched(st: Settings, s: Sys, step: Step)
    requires Enabled(st, s, step) && !step.IngestKey? && !step.RelayCommit?
    ensures Exec(st, s, step).db.outbox == s.db.outbox
  {
    hide Enabled, OutcomeOf, MarkReconciled, DecisionOf, ReadTask;
  }

  lemma OutboxAppended(st: Settings, s: Sys, step: Step)
    requires Enabled(st, s, step) && step.IngestKey?
    ensures var msg := MessageAfter(s.db, step.ref, step.tenant, step.sub, step.count, s.now);
            Exec(st, s, step).db.outbox == s.db.outbox[s.db.nextEvent := Event(msg, None, 0)]
  {
    hide LandsOn, RowAfter, MessageAfter;
  }

  lemma OutboxMarked(st: Settings, s: Sys, step: Step)
    requires Enabled(st, s, step) && step.RelayCommit?
    ensures Exec(st, s, step).db == MarkPublished(s.db, s.relays[step.relay].events, s.now)
  {
    hide MarkPublished;
  }

  lemma OutboxGrows(st: Settings, s: Sys, step: Step)
    requires Enabled(st, s, step) && IdsBelowNext(s.db)
    ensures var s' := Exec(st, s, step);
      && (forall e :: e in s.db.outbox ==> e in s'.db.outbox && s'.db.outbox[e].msg == s.db.outbox[e].msg)
      && (forall e :: e in s.db.outbox && !(step.RelayCommit? && e in s.relays[step.relay].events) ==>
            s'.db.outbox[e] == s.db.outbox[e])
      && (forall e :: e in s'.db.outbox && e !in s.db.outbox ==>
            s'.db.outbox[e].publishedAt.None? && e == s.db.nextEvent && step.IngestKey?)
  {
    if step.IngestKey? {
      OutboxAppended(st, s, step);
    } else if step.RelayCommit? {
      OutboxMarked(st, s, step);
    } else {
      OutboxUntouched(st, s, step);
    }
    hide Exec, MessageAfter;
  }

  predicate PublishEntry(s: Sys, s': Sys, e: nat) {
    && e in s.db.outbox && s'.log == s.log[s.nextEntry := Entry(e, s.db.outbox[e].msg)]
    && s'.undelivered == s.undelivered + {s.nextEntry} && s'.inFlight == s.inFlight && s'.db == s.db
    && s'.nextEntry == s.nextEntry + 1 && s'.processed == s.processed
  }

  function NextToPublish(s: Sys, r: nat): nat
    requires r in s.relays && s.relays[r].done < |s.relays[r].events|
  {
    s.relays[r].events[s.relays[r].done]
  }

  lemma PublishAfter(st: Settings, s: Sys, step: Step)
    requires Enabled(st, s, step) && step.RelayPublish?
    ensures step.relay in s.relays && s.relays[step.relay].done < |s.relays[step.relay].events|
    ensures PublishEntry(s, Exec(st, s, step), NextToPublish(s, step.relay))
    ensures Exec(st, s, step).relays == s.relays[step.relay :=
      s.relays[step.relay].(done := s.relays[step.relay].done + 1)]
  {
  }

  /** Every other step leaves the log alone; an entry leaves transit only by a trim, or by
      the ack of an agent that is done with it, and an acked one returns only by a regroup. */
  lemma LogUntouched(st: Settings, s: Sys, step: Step)
    requires Enabled(st, s, step) && !step.RelayPublish?
    ensures var s' := Exec(st, s, step);
      && s'.log == s.log && s'.nextEntry == s.nextEntry && s.processed <= s'.processed
      && (!step.Regroup? ==> s'.undelivered <= s.undelivered)
      && (forall n :: n in s'.inFlight ==> n in s.inFlight || n in s.undelivered || (step.Deliver? && n == step.entry))
      && (!step.Trim? ==> forall n :: (n in s.undelivered || n in s.inFlight) ==>
            n in s'.undelivered || n in s'.inFlight || (step.Ack? && n == AckedBy(s, step.agent)))
  {
    assert step.Claim? ==> step.entry in s.inFlight;
    hide Enabled, Ingest, Apply, CloseCase, DeleteTenant, MarkPublished, OutcomeOf, DecisionOf;
  }

  function AckedBy(s: Sys, a: nat): nat { if a in s.agents && s.agents[a].Acking? then s.agents[a].entry else 0 }

  lemma PublishKeepsLog(s: Sys, s': Sys, e: nat)
    requires LogSound(s) && PublishEntry(s, s', e)
    ensures LogSound(s')
  {
  }

  lemma NextKeepsLog(st: Settings, s: Sys, step: Step)
    requires Enabled(st, s, step) && IdsBelowNext(s.db) && LogSound(s)
    ensures LogSound(Exec(st, s, step))
  {
    if step.RelayPublish? {
      PublishAfter(st, s, step);
      PublishKeepsLog(s, Exec(st, s, step), NextToPublish(s, step.relay));
      hide Enabled, Exec, IdsBelowNext, LogSound, PublishEntry;
    } else {
      OutboxGrows(st, s, step);
      LogUntouched(st, s, step);
      assert step.Deliver? ==> step.entry in s.undelivered;
      assert step.Regroup? ==> Exec(st, s, step).undelivered <= s.log.Keys;
      hide Enabled, Exec, IdsBelowNext;
    }
  }

  lemma RelaysAfter(st: Settings, s: Sys, step: Step)
    requires Enabled(st, s, step)
    ensures var s' := Exec(st, s, step);
      && (forall r :: r in s'.relays && !(step.RelayClaim? && step.relay == r) ==>
            && r in s.relays && s'.relays[r].events == s.relays[r].events
            && (s'.relays[r].done == s.relays[r].done
                || (s'.relays[r].done == s.relays[r].done + 1 && s.relays[r].done < |s.relays[r].events|)))
      && (step.RelayCommit? ==> step.relay !in s'.relays)
      && (step.RelayClaim? ==> step.relay in s'.relays && s'.relays[step.relay] == Claimed(step.events, 0))
  {
    hide Ingest, Apply, CloseCase, DeleteTenant, MarkPublished, OutcomeOf, DecisionOf, LandsOn, BestPartner, Candidates,
      Stale;
  }

  /** Skipping locked rows keeps a new claim apart from every open one. */
  lemma NewClaimDisjoint(st: Settings, s: Sys, step: Step)
    requires Enabled(st, s, step) && step.RelayClaim?
    ensures forall r, e :: r in s.relays && e in s.relays[r].events ==> e !in step.events
  {
    forall r, e | r in s.relays && e in s.relays[r].events ensures e !in step.events {
      assert Locked(s, e);
    }
  }

  lemma NextKeepsClaims(st: Settings, s: Sys, step: Step)
    requires Enabled(st, s, step) && IdsBelowNext(s.db) && ClaimsSound(s)
    ensures ClaimsSound(Exec(st, s, step))
  {
    OutboxGrows(st, s, step);
    RelaysAfter(st, s, step);
    if step.RelayClaim? { NewClaimDisjoint(st, s, step); }
    ClaimsCarryOver(s, Exec(st, s, step), step);
  }

  lemma ClaimsCarryOver(s: Sys, s': Sys, step: Step)
    requires ClaimsSound(s)
    requires forall r :: r in s'.relays && !(step.RelayClaim? && step.relay == r) ==>
      && r in s.relays && s'.relays[r].events == s.relays[r].events
      && (s'.relays[r].done == s.relays[r].done
          || (s'.relays[r].done == s.relays[r].done + 1 && s.relays[r].done < |s.relays[r].events|))
    requires step.RelayCommit? ==> step.relay in s.relays && step.relay !in s'.relays
    requires forall e :: e in s.db.outbox && !(step.RelayCommit? && e in s.relays[step.relay].events) ==>
      e in s'.db.outbox && s'.db.outbox[e] == s.db.outbox[e]
    requires step.RelayClaim? ==>
      && step.relay in s'.relays && s'.relays[step.relay] == Claimed(step.events, 0) && Distinct(step.events)
      && (forall e :: e in step.events ==> e in s'.db.outbox && s'.db.outbox[e].publishedAt.None?)
      && (forall r, e :: r in s.relays && e in s.relays[r].events ==> e !in step.events)
    ensures ClaimsSound(s')
  {
  }

  lemma NextKeepsTracking(st: Settings, s: Sys, step: Step)
    requires Enabled(st, s, step) && LogSound(s) && TasksTracked(s)
    ensures TasksTracked(Exec(st, s, step))
  {
    var s' := Exec(st, s, step);
    if step.RelayPublish? { PublishAfter(st, s, step); } else { LogUntouched(st, s, step); }
    forall a | a in s'.agents ensures TaskTracked(s', s'.agents[a]) {
      OtherAgentsIdle(st, s, step, a);
      if a in s.agents && s'.agents[a] == s.agents[a] {
        hide Enabled, Exec;
        assert TaskTracked(s, s.agents[a]);
      } else {
        OwnTaskTracked(st, s, step, a);
      }
    }
  }

  lemma ReadTaskTracked(st: Settings, s: Sys, step: Step)
    requires Enabled(st, s, step) && step.WorkerRead?
    ensures step.agent in Exec(st, s, step).agents
    ensures TaskTracked(Exec(st, s, step), Exec(st, s, step).agents[step.agent])
  {
    hide BestPartner, Candidates;
  }

  lemma CommitTaskTracked(st: Settings, s: Sys, step: Step)
    requires Enabled(st, s, step) && step.WorkerCommit? && TaskTracked(s, s.agents[step.agent])
    requires step.agent in Exec(st, s, step).agents
    ensures TaskTracked(Exec(st, s, step), Exec(st, s, step).agents[step.agent])
  {
    hide Apply, OutcomeOf, DecisionOf, BestPartner, Candidates;
  }

  /** Sweepers' tasks name no entry. */
  lemma SweepTaskTracked(st: Settings, s: Sys, step: Step)
    requires Enabled(st, s, step) && (step.SweepList? || step.SweepRead? || step.SweepCommit?)
    requires step.agent in Exec(st, s, step).agents
    ensures TaskTracked(Exec(st, s, step), Exec(st, s, step).agents[step.agent])
  {
    hide Apply, OutcomeOf, DecisionOf, BestPartner, Candidates, Stale;
  }

  lemma OwnTaskTracked(st: Settings, s: Sys, step: Step, a: nat)
    requires Enabled(st, s, step) && TasksTracked(s)
    requires a in Exec(st, s, step).agents && !(a in s.agents && Exec(st, s, step).agents[a] == s.agents[a])
    ensures TaskTracked(Exec(st, s, step), Exec(st, s, step).agents[a])
  {
    assert a in s.agents ==> TaskTracked(s, s.agents[a]);
    OtherAgentsIdle(st, s, step, a);
    if step.WorkerRead? {
      ReadTaskTracked(st, s, step);
    } else if step.WorkerCommit? {
      CommitTaskTracked(st, s, step);
    } else if step.SweepList? || step.SweepRead? || step.SweepCommit? {
      SweepTaskTracked(st, s, step);
    }
    hide Exec, Enabled, TaskTracked;
  }

  /** Only an ack takes an entry out of transit, and only after its event was processed. */
  lemma StaysHandled(st: Settings, s: Sys, step: Step, e: nat)
    requires Enabled(st, s, step) && LogSound(s) && TasksTracked(s)
    requires !step.Trim? && Handled(s, e)
    ensures Handled(Exec(st, s, step), e)
  {
    var s' := Exec(st, s, step);
    if step.RelayPublish? { PublishAfter(st, s, step); } else { LogUntouched(st, s, step); }
    assert step.Ack? ==> step.agent in s.agents && s.agents[step.agent].Acking?;
    hide Enabled, Exec;
    if e !in s.processed {
      var n :| InTransit(s, n) && s.log[n].event == e;
      assert step.Ack? ==> s.log[AckedBy(s, step.agent)].event in s.processed;
      assert InTransit(s', n) && s'.log[n].event == e;
    }
  }

  lemma PublishedIsHandled(st: Settings, s: Sys, step: Step, r: nat, e: nat)
    requires Enabled(st, s, step) && PublishedBy(Exec(st, s, step), r, e) && !PublishedBy(s, r, e)
    ensures Carried(Exec(st, s, step), e)
  {
    var s' := Exec(st, s, step);
    NewlyPublished(st, s, step, r, e);
    PublishAfter(st, s, step);
    hide Enabled, Exec;
    assert InTransit(s', s.nextEntry) && s'.log[s.nextEntry].event == e;
  }

  lemma CommitWasPublished(st: Settings, s: Sys, step: Step, e: nat)
    requires Enabled(st, s, step) && step.RelayCommit? && e in s.relays[step.relay].events
    ensures PublishedBy(s, step.relay, e)
  {
    assert s.relays[step.relay].events[..s.relays[step.relay].done] == s.relays[step.relay].events;
  }

  lemma NextKeepsNothingLost(st: Settings, s: Sys, step: Step)
    requires Enabled(st, s, step) && IdsBelowNext(s.db) && TransportInv(s) && NothingLost(s)
    requires !step.Trim?
    ensures NothingLost(Exec(st, s, step))
  {
    var s' := Exec(st, s, step);
    OutboxGrows(st, s, step);
    hide Enabled, Exec, Handled, LogSound, ClaimsSound, TasksTracked;
    forall e | e in s'.db.outbox && s'.db.outbox[e].publishedAt.Some? ensures Handled(s', e) {
      if s.db.outbox[e].publishedAt.None? {
        CommitWasPublished(st, s, step, e);
      }
      StaysHandled(st, s, step, e);
    }
    forall r, e | PublishedBy(s', r, e) ensures Handled(s', e) {
      if PublishedBy(s, r, e) {
        StaysHandled(st, s, step, e);
      } else {
        PublishedIsHandled(st, s, step, r, e);
        CarriedIsHandled(s', e);
      }
    }
  }

  lemma CarriedIsHandled(s: Sys, e: nat)
    requires Carried(s, e)
    ensures Handled(s, e)
  {
  }

  lemma {:induction false} RunKeepsTransport(st: Settings, run: Run, i: nat)
    requires IsRun(st, run) && i < |run.states|
    ensures TransportInv(run.states[i])
  {
    if i > 0 {
      RunKeepsTransport(st, run, i - 1);
      RunStep(st, run, i - 1);
      var s, step := run.states[i - 1], run.steps[i - 1];
      NextKeepsLog(st, s, step);
      NextKeepsClaims(st, s, step);
      NextKeepsTracking(st, s, step);
    }
  }

  predicate NoTrimBefore(run: Run, i: nat)
    requires i <= |run.steps|
  {
    forall k :: 0 <= k < i ==> !run.steps[k].Trim?
  }

  lemma {:induction false} RunLosesNothing(st: Settings, run: Run, i: nat)
    requires IsRun(st, run) && i < |run.states| && NoTrimBefore(run, i)
    ensures NothingLost(run.states[i])
  {
    if i > 0 {
      RunLosesNothing(st, run, i - 1);
      RunKeepsTransport(st, run, i - 1);
      RunStep(st, run, i - 1);
      NextKeepsNothingLost(st, run.states[i - 1], run.steps[i - 1]);
    }
  }

  /** Every event is unpublished, undelivered, in the pending list, or processed by a
      committed transaction, as long as the stream was not trimmed. */
  lemma NoLostEvent(st: Settings, run: Run, i: nat, e: nat)
    requires IsRun(st, run) && i < |run.states| && NoTrimBefore(run, i)
    requires e in run.states[i].db.outbox
    ensures var s := run.states[i];
      || s.db.outbox[e].publishedAt.None?
      || (exists n :: n in s.undelivered && n in s.log && s.log[n].event == e)
      || (exists n :: n in s.inFlight && n in s.log && s.log[n].event == e)
      || e in s.processed
  {
    RunLosesNothing(st, run, i);
    var s := run.states[i];
    if s.db.outbox[e].publishedAt.Some? && e !in s.processed {
      var n :| InTransit(s, n) && s.log[n].event == e;
    }
  }

  /** Two relays never hold the same outbox row. */
  lemma ClaimsDisjoint(st: Settings, run: Run, i: nat, q: nat, r: nat)
    requires IsRun(st, run) && i < |run.states|
    requires q in run.states[i].relays && r in run.states[i].relays && q != r
    ensures forall e :: e in run.states[i].relays[q].events ==> e !in run.states[i].relays[r].events
  {
    RunKeepsTransport(st, run, i);
  }

  /* ------------------- Every row comes with its event ------------------- */

  ghost predicate RowsAnnounced(db: Db) {
    forall ref :: ref in db.rows ==> exists e :: e in db.outbox && MessageRef(db.outbox[e].msg) == ref
  }

  lemma NextKeepsAnnounced(st: Settings, s: Sys, step: Step)
    requires Enabled(st, s, step) && IdsBelowNext(s.db) && RowsAnnounced(s.db)
    ensures RowsAnnounced(Exec(st, s, step).db)
  {
    var db, db' := s.db, Exec(st, s, step).db;
    OutboxGrows(st, s, step);
    StepEvolves(st, s, step);
    forall ref | ref in db'.rows ensures exists e :: e in db'.outbox && MessageRef(db'.outbox[e].msg) == ref {
      if ref in db.rows {
        var e :| e in db.outbox && MessageRef(db.outbox[e].msg) == ref;
        assert MessageRef(db'.outbox[e].msg) == ref;
      } else {
        NewRowsAreIngested(st, s, step, ref);
        assert MessageRef(db'.outbox[db.nextEvent].msg) == ref;
      }
    }
  }

  lemma NewRowsAreIngested(st: Settings, s: Sys, step: Step, ref: Ref)
    requires Enabled(st, s, step) && ref in Exec(st, s, step).db.rows && ref !in s.db.rows
    ensures step.IngestKey? && step.ref == ref
  {
    if Committed(s, step).Some? {
      CommitIsApply(st, s, step);
      hide Exec, Enabled;
      var i := Committed(s, step).value;
      InsertedRows(s.db, DecisionOf(i, st.cfg), i.candidate.tenant, s.now);
      hide InsertResult, OutcomeOf, DecisionOf;
    } else if step.Retire? {
      DeleteLeavesOthers(s.db, step.tenant);
    } else {
      hide Enabled, OutcomeOf, DecisionOf, InsertResult, ReadTask;
    }
  }

  /** There is no window in which a raw row is stored and its event is not. */
  lemma {:induction false} EveryRowAnnounced(st: Settings, run: Run, i: nat)
    requires IsRun(st, run) && i < |run.states|
    ensures RowsAnnounced(run.states[i].db)
  {
    if i > 0 {
      EveryRowAnnounced(st, run, i - 1);
      RunStep(st, run, i - 1);
      NextKeepsAnnounced(st, run.states[i - 1], run.steps[i - 1]);
    }
  }

  /* --------------------------- Copies published --------------------------- */

  function Copies(s: Sys, e: nat): set<nat> { set n | n in s.log && s.log[n].event == e }

  ghost predicate Announced(s: Sys, e: nat) {
    (e in s.db.outbox && s.db.outbox[e].publishedAt.Some?) || exists r :: PublishedBy(s, r, e)
  }

  /** No event has two copies, and only published ones have any. */
  ghost predicate SingleCopies(s: Sys) {
    && (forall m, n :: m in s.log && n in s.log && s.log[m].event == s.log[n].event ==> m == n)
    && (forall n :: n in s.log ==> Announced(s, s.log[n].event))
  }

  lemma StaysAnnounced(st: Settings, s: Sys, step: Step, e: nat)
    requires Enabled(st, s, step) && IdsBelowNext(s.db) && ClaimsSound(s)
    requires !step.RelayCrash? && Announced(s, e)
    ensures Announced(Exec(st, s, step), e)
  {
    OutboxGrows(st, s, step);
    if step.RelayCommit? { OutboxMarked(st, s, step); }
    if !(e in s.db.outbox && s.db.outbox[e].publishedAt.Some?) {
      var r :| PublishedBy(s, r, e);
      if step.RelayCommit? && step.relay == r {
        CommitMarks(st, s, step, e);
      } else {
        ClaimStaysPublished(st, s, step, r, e);
      }
    } else if step.RelayCommit? {
      hide Enabled, Exec;
    } else {
      hide Enabled, Exec;
    }
  }

  lemma CommitMarks(st: Settings, s: Sys, step: Step, e: nat)
    requires Enabled(st, s, step) && step.RelayCommit? && PublishedBy(s, step.relay, e)
    ensures e in Exec(st, s, step).db.outbox ==> Exec(st, s, step).db.outbox[e].publishedAt.Some?
    ensures e in s.relays[step.relay].events && (e in s.db.outbox ==> e in Exec(st, s, step).db.outbox)
  {
    OutboxMarked(st, s, step);
    assert e in s.relays[step.relay].events;
    hide Exec;
  }

  lemma ClaimStaysPublished(st: Settings, s: Sys, step: Step, r: nat, e: nat)
    requires Enabled(st, s, step) && PublishedBy(s, r, e)
    requires !step.RelayCrash? && !(step.RelayCommit? && step.relay == r)
    ensures PublishedBy(Exec(st, s, step), r, e)
  {
    if step.RelayPublish? {
      PublishAfter(st, s, step);
      var c := s.relays[r];
      if step.relay == r { assert c.events[..c.done + 1] == c.events[..c.done] + [c.events[c.done]]; }
      hide Enabled, Exec;
    } else {
      OtherRelaysKept(st, s, step, r);
      hide Enabled, Exec;
    }
  }

  lemma OtherRelaysKept(st: Settings, s: Sys, step: Step, r: nat)
    requires Enabled(st, s, step) && r in s.relays && !step.RelayPublish?
    requires !step.RelayCrash? && !(step.RelayCommit? && step.relay == r)
    ensures r in Exec(st, s, step).relays && Exec(st, s, step).relays[r] == s.relays[r]
  {
    hide Ingest, Apply, CloseCase, DeleteTenant, MarkPublished, OutcomeOf, DecisionOf, LandsOn, BestPartner, Candidates,
      Stale;
  }

  lemma PublishIsFirst(s: Sys, r: nat, e: nat)
    requires TransportInv(s) && SingleCopies(s)
    requires r in s.relays && s.relays[r].done < |s.relays[r].events| && s.relays[r].events[s.relays[r].done] == e
    ensures Copies(s, e) == {}
  {
    var claim := s.relays[r];
    assert e in claim.events && e !in claim.events[..claim.done];
    assert forall q :: PublishedBy(s, q, e) ==> e in s.relays[q].events;
    assert !Announced(s, e);
    assert forall n :: n in s.log ==> s.log[n].event != e;
  }

  lemma PublishedAnnounces(s: Sys, r: nat, e: nat)
    requires PublishedBy(s, r, e)
    ensures Announced(s, e)
  {
  }

  lemma NextKeepsAnnouncing(st: Settings, s: Sys, step: Step)
    requires Enabled(st, s, step) && IdsBelowNext(s.db) && TransportInv(s) && SingleCopies(s)
    requires !step.RelayCrash?
    ensures forall n :: n in Exec(st, s, step).log ==> Announced(Exec(st, s, step), Exec(st, s, step).log[n].event)
  {
    var s' := Exec(st, s, step);
    if step.RelayPublish? { PublishAfter(st, s, step); } else { LogUntouched(st, s, step); }
    hide Enabled, Exec, Announced, IdsBelowNext;
    forall n | n in s'.log ensures Announced(s', s'.log[n].event) {
      if n in s.log {
        assert s'.log[n] == s.log[n];
        StaysAnnounced(st, s, step, s.log[n].event);
      } else {
        var c := s.relays[step.relay];
        assert c.events[..c.done + 1] == c.events[..c.done] + [c.events[c.done]];
        PublishedAnnounces(s', step.relay, s'.log[n].event);
      }
    }
  }

  lemma PublishKeepsSingle(s: Sys, s': Sys, e: nat)
    requires LogSound(s) && SingleCopies(s) && Copies(s, e) == {}
    requires s.nextEntry in s'.log && s'.log[s.nextEntry].event == e
    requires forall n :: n in s'.log && n != s.nextEntry ==> n in s.log && s'.log[n] == s.log[n]
    ensures forall m, n :: m in s'.log && n in s'.log && s'.log[m].event == s'.log[n].event ==> m == n
  {
    forall n | n in s.log ensures s.log[n].event != e {
      assert n !in Copies(s, e);
    }
  }

  lemma NextKeepsSingle(st: Settings, s: Sys, step: Step)
    requires Enabled(st, s, step) && IdsBelowNext(s.db) && TransportInv(s) && SingleCopies(s)
    requires !step.RelayCrash?
    ensures SingleCopies(Exec(st, s, step))
  {
    NextKeepsAnnouncing(st, s, step);
    var s' := Exec(st, s, step);
    if step.RelayPublish? {
      PublishAfter(st, s, step);
      hide Enabled, Exec, Announced, IdsBelowNext, ClaimsSound, TasksTracked;
      PublishIsFirst(s, step.relay, NextToPublish(s, step.relay));
      PublishKeepsSingle(s, s', NextToPublish(s, step.relay));
    } else {
      LogUntouched(st, s, step);
      hide Enabled, Exec, Announced, IdsBelowNext;
    }
  }

  predicate NoRelayCrashBefore(run: Run, i: nat)
    requires i <= |run.steps|
  {
    forall k :: 0 <= k < i ==> !run.steps[k].RelayCrash?
  }

  lemma {:induction false} RunKeepsSingle(st: Settings, run: Run, i: nat)
    requires IsRun(st, run) && i < |run.states| && NoRelayCrashBefore(run, i)
    ensures SingleCopies(run.states[i])
  {
    if i > 0 {
      RunKeepsSingle(st, run, i - 1);
      RunKeepsTransport(st, run, i - 1);
      RunStep(st, run, i - 1);
      NextKeepsSingle(st, run.states[i - 1], run.steps[i - 1]);
    }
  }

  /** A published event has at least one copy, whatever crashed. */
  ghost predicate CopiesExist(s: Sys) {
    forall e :: Announced(s, e) ==> Copies(s, e) != {}
  }

  lemma CopiesGrow(st: Settings, s: Sys, step: Step, e: nat)
    requires Enabled(st, s, step) && LogSound(s)
    ensures Copies(s, e) <= Copies(Exec(st, s, step), e)
  {
    if step.RelayPublish? { PublishAfter(st, s, step); } else { LogUntouched(st, s, step); }
    hide Enabled, Exec;
  }

  /** Committing a relay's batch announces nothing new: each row of it was published. */
  lemma CommitAnnouncesNothing(st: Settings, s: Sys, step: Step, e: nat)
    requires Enabled(st, s, step) && ClaimsSound(s)
    requires e in s.db.outbox && e in Exec(st, s, step).db.outbox
    requires s.db.outbox[e].publishedAt.None? && Exec(st, s, step).db.outbox[e].publishedAt.Some?
    requires step.RelayCommit?
    ensures Announced(s, e)
  {
    assert s.relays[step.relay].events[..s.relays[step.relay].done] == s.relays[step.relay].events;
    assert PublishedBy(s, step.relay, e);
  }

  lemma NewlyPublished(st: Settings, s: Sys, step: Step, r: nat, e: nat)
    requires Enabled(st, s, step)
    requires PublishedBy(Exec(st, s, step), r, e) && !PublishedBy(s, r, e)
    ensures step.RelayPublish? && step.relay == r && s.nextEntry in Copies(Exec(st, s, step), e)
  {
    RelaysAfter(st, s, step);
    if step.RelayPublish? {
      PublishAfter(st, s, step);
      var c := s.relays[step.relay];
      assert c.events[..c.done + 1] == c.events[..c.done] + [c.events[c.done]];
      hide Enabled, Exec;
    } else {
      RelaysUnpublished(st, s, step, r);
    }
  }

  lemma RelaysUnpublished(st: Settings, s: Sys, step: Step, r: nat)
    requires Enabled(st, s, step) && !step.RelayPublish? && r in Exec(st, s, step).relays
    ensures Exec(st, s, step).relays[r].done == 0 || (r in s.relays && Exec(st, s, step).relays[r] == s.relays[r])
  {
    hide Enabled, Ingest, Apply, CloseCase, DeleteTenant, MarkPublished, OutcomeOf, DecisionOf;
  }

  /** An event becomes announced only by a publish, which leaves a copy behind. */
  lemma NewlyAnnounced(st: Settings, s: Sys, step: Step, e: nat)
    requires Enabled(st, s, step) && IdsBelowNext(s.db) && ClaimsSound(s)
    requires Announced(Exec(st, s, step), e) && !Announced(s, e)
    ensures Copies(Exec(st, s, step), e) != {}
  {
    OutboxGrows(st, s, step);
    if r :| PublishedBy(Exec(st, s, step), r, e) {
      NewlyPublished(st, s, step, r, e);
    } else {
      CommitAnnouncesNothing(st, s, step, e);
    }
  }

  lemma NextKeepsCopies(st: Settings, s: Sys, step: Step)
    requires Enabled(st, s, step) && IdsBelowNext(s.db) && TransportInv(s) && CopiesExist(s)
    ensures CopiesExist(Exec(st, s, step))
  {
    forall e | Announced(Exec(st, s, step), e) ensures Copies(Exec(st, s, step), e) != {} {
      if Announced(s, e) {
        CopiesGrow(st, s, step, e);
      } else {
        NewlyAnnounced(st, s, step, e);
      }
    }
  }

  lemma {:induction false} RunKeepsCopies(st: Settings, run: Run, i: nat)
    requires IsRun(st, run) && i < |run.states|
    ensures CopiesExist(run.states[i])
  {
    if i > 0 {
      RunKeepsCopies(st, run, i - 1);
      RunKeepsTransport(st, run, i - 1);
      RunStep(st, run, i - 1);
      NextKeepsCopies(st, run.states[i - 1], run.steps[i - 1]);
    }
  }

  /** The attempts column counts committed publishes, and there is never a second one. */
  ghost predicate AttemptsExact(db: Db) {
    forall e :: e in db.outbox ==> db.outbox[e].attempts == if db.outbox[e].publishedAt.Some? then 1 else 0
  }

  lemma NextKeepsAttempts(st: Settings, s: Sys, step: Step)
    requires Enabled(st, s, step) && ClaimsSound(s) && AttemptsExact(s.db)
    ensures AttemptsExact(Exec(st, s, step).db)
  {
    if step.IngestKey? {
      OutboxAppended(st, s, step);
    } else if step.RelayCommit? {
      OutboxMarked(st, s, step);
      assert forall e :: e in s.relays[step.relay].events ==> e in s.db.outbox && s.db.outbox[e].publishedAt.None?;
    } else {
      OutboxUntouched(st, s, step);
    }
    hide Exec, Enabled, MessageAfter, ClaimsSound;
  }

  lemma {:induction false} PublishedOnceInTheOutbox(st: Settings, run: Run, i: nat)
    requires IsRun(st, run) && i < |run.states|
    ensures AttemptsExact(run.states[i].db)
  {
    if i > 0 {
      PublishedOnceInTheOutbox(st, run, i - 1);
      RunKeepsTransport(st, run, i - 1);
      RunStep(st, run, i - 1);
      hide Exec, Enabled, AttemptsExact, LogSound, ClaimsSound, TasksTracked;
      NextKeepsAttempts(st, run.states[i - 1], run.steps[i - 1]);
    }
  }

  /** At least once always; exactly once while no relay crashed.  Step by step copies are only
      ever added, so a crash after any published prefix costs nothing but repeats. */
  lemma PublishedCopies(st: Settings, run: Run, i: nat, e: nat)
    requires IsRun(st, run) && i < |run.states|
    requires e in run.states[i].db.outbox
    ensures run.states[i].db.outbox[e].publishedAt.Some? ==> |Copies(run.states[i], e)| >= 1
    ensures run.states[i].db.outbox[e].publishedAt.Some? && NoRelayCrashBefore(run, i)
            ==> |Copies(run.states[i], e)| == 1
    ensures NoRelayCrashBefore(run, i) && !Announced(run.states[i], e) ==> Copies(run.states[i], e) == {}
    ensures i < |run.steps| ==> Copies(run.states[i], e) <= Copies(run.states[i + 1], e)
  {
    RunKeepsCopies(st, run, i);
    var s := run.states[i];
    if NoRelayCrashBefore(run, i) {
      RunKeepsSingle(st, run, i);
      if n :| n in Copies(s, e) { SingletonCard(Copies(s, e), n); }
    }
    if i < |run.steps| {
      RunKeepsTransport(st, run, i);
      RunStep(st, run, i);
      CopiesGrow(st, s, run.steps[i], e);
    }
  }

  /** From every reachable state a relay with nothing else to do can publish any outbox row that
      is not published and not claimed: the row's message is then in the stream. */
  lemma AnyEventCanBePublished(st: Settings, run: Run, i: nat, r: nat, e: nat) returns (done: Sys)
    requires IsRun(st, run) && i < |run.states| && r !in run.states[i].relays
    requires e in run.states[i].db.outbox && run.states[i].db.outbox[e].publishedAt.None? && !Locked(run.states[i], e)
    ensures Leads(st, run.states[i], [RelayClaim(r, [e]), RelayPublish(r), RelayCommit(r)], done)
    ensures e in done.db.outbox && done.db.outbox[e] ==
      Event(run.states[i].db.outbox[e].msg, Some(run.states[i].now), run.states[i].db.outbox[e].attempts + 1)
    ensures Carried(done, e) && done.relays == run.states[i].relays
    ensures run.states[i].nextEntry in done.undelivered && run.states[i].nextEntry in done.log
    ensures done.log[run.states[i].nextEntry] == Entry(e, run.states[i].db.outbox[e].msg)
  {
    var s := run.states[i];
    var claimed := Exec(st, s, RelayClaim(r, [e]));
    var published := Exec(st, claimed, RelayPublish(r));
    done := Exec(st, published, RelayCommit(r));
    assert Leads(st, done, [], done);
    LeadsFirst(st, published, RelayCommit(r), [], done);
    LeadsFirst(st, claimed, RelayPublish(r), [RelayCommit(r)], done);
    LeadsFirst(st, s, RelayClaim(r, [e]), [RelayPublish(r), RelayCommit(r)], done);
    assert [RelayClaim(r, [e])] + [RelayPublish(r), RelayCommit(r)]
        == [RelayClaim(r, [e]), RelayPublish(r), RelayCommit(r)];
    assert [RelayPublish(r)] + [RelayCommit(r)] == [RelayPublish(r), RelayCommit(r)];
    assert InTransit(done, s.nextEntry);
    assert done.relays == s.relays;
  }
}
