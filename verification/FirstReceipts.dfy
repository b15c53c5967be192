/** First receipts: exactly which stored rows have a message that layers 1-3 will act on, and
    what that means for a pair of rows waiting for each other. */
module FirstReceipts {
  import opened Matching
  import opened Tables
  import opened Protocol
  import opened Safety
  import opened Delivery
  import opened Progress
  import opened Atomic

  /** Step `k` stored row `ref`. */
  predicate StoredBy(run: Run, k: nat, ref: Ref) {
    && k < |run.steps| && k < |run.states|
    && run.steps[k].IngestKey? && run.steps[k].ref == ref && ref !in run.states[k].db.rows
  }

  /** Every stored row was stored by some step. */
  lemma {:induction false} StoringStep(st: Settings, run: Run, i: nat, ref: Ref) returns (k: nat)
    requires IsRun(st, run) && i < |run.states| && ref in run.states[i].db.rows
    ensures k < i && StoredBy(run, k, ref)
  {
    hide Enabled, Exec;
    if i == 0 {
      NothingAtFirst(run);
    } else if ref in run.states[i - 1].db.rows {
      k := StoringStep(st, run, i - 1, ref);
    } else {
      k := i - 1;
      RunStep(st, run, k);
      NewRowsAreIngested(st, run.states[k], run.steps[k], ref);
    }
  }

  lemma NothingAtFirst(run: Run)
    requires |run.states| > 0 && Init(run.states[0])
    ensures run.states[0].db.rows == map[] && run.states[0].db.outbox == map[]
  {
  }

  lemma StoringStores(st: Settings, run: Run, k: nat, ref: Ref)
    requires IsRun(st, run) && StoredBy(run, k, ref)
    ensures ref in run.states[k + 1].db.rows && ref.id == NextId(run.states[k].db, ref.side)
  {
    RunStep(st, run, k);
    IngestStepDb(st, run.states[k], run.steps[k]);
    hide Enabled, Exec;
  }

  lemma NotStoredAgain(st: Settings, run: Run, k: nat, m: nat, ref: Ref)
    requires IsRun(st, run) && StoredBy(run, k, ref) && StoredBy(run, m, ref)
    ensures !(k < m)
  {
    hide Enabled, Exec;
    StoringStores(st, run, k, ref);
    StoringStores(st, run, m, ref);
    if k < m { RowFactsFixed(st, run, k + 1, m, ref); }
  }

  /** Ids are not reused, so it was one step. */
  lemma StoredOnce(st: Settings, run: Run, k: nat, m: nat, ref: Ref)
    requires IsRun(st, run) && StoredBy(run, k, ref) && StoredBy(run, m, ref)
    ensures k == m
  {
    NotStoredAgain(st, run, k, m, ref);
    NotStoredAgain(st, run, m, k, ref);
  }

  /** Step `k` enqueued event `e`. */
  predicate EnqueuedBy(run: Run, k: nat, e: nat, msg: Message) {
    && k < |run.steps| && k < |run.states| && run.steps[k].IngestKey? && run.steps[k].count >= 1
    && e == run.states[k].db.nextEvent
    && var step := run.steps[k];
       msg == MessageAfter(run.states[k].db, step.ref, step.tenant, step.sub, step.count, run.states[k].now)
  }

  lemma {:induction false} EnqueuingStep(st: Settings, run: Run, i: nat, e: nat) returns (k: nat)
    requires IsRun(st, run) && i < |run.states| && e in run.states[i].db.outbox
    ensures k < i && EnqueuedBy(run, k, e, run.states[i].db.outbox[e].msg)
  {
    hide Enabled, Exec, MessageAfter;
    if i == 0 {
      NothingAtFirst(run);
    } else {
      RunStep(st, run, i - 1);
      OutboxGrows(st, run.states[i - 1], run.steps[i - 1]);
      if e in run.states[i - 1].db.outbox {
        k := EnqueuingStep(st, run, i - 1, e);
      } else {
        k := i - 1;
        OutboxAppended(st, run.states[k], run.steps[k]);
        IngestStepDb(st, run.states[k], run.steps[k]);
      }
    }
  }

  lemma StoringAnnounces(st: Settings, run: Run, i: nat, k: nat, ref: Ref)
    requires IsRun(st, run) && k < i < |run.states| && StoredBy(run, k, ref) && run.steps[k].count == 1
    ensures FirstReceipt(run.states[i].db, run.states[k].db.nextEvent, ref)
  {
    RunStep(st, run, k);
    OutboxAppended(st, run.states[k], run.steps[k]);
    hide Enabled, Exec;
    HistoryGrows(st, run, k + 1, i);
  }

  lemma AnnouncedMeansSingle(st: Settings, run: Run, i: nat, k: nat, ref: Ref, e: nat)
    requires IsRun(st, run) && i < |run.states| && StoredBy(run, k, ref)
    requires FirstReceipt(run.states[i].db, e, ref)
    ensures run.steps[k].count == 1
  {
    hide Enabled, Exec;
    var m := EnqueuingStep(st, run, i, e);
    assert StoredBy(run, m, ref);
    StoredOnce(st, run, k, m, ref);
  }

  /** A row has a first-receipt message if and only if the transaction that stored it
      submitted its key once. */
  lemma FirstReceiptExactly(st: Settings, run: Run, i: nat, ref: Ref) returns (k: nat)
    requires IsRun(st, run) && i < |run.states| && ref in run.states[i].db.rows
    ensures k < i && StoredBy(run, k, ref)
    ensures (exists e :: FirstReceipt(run.states[i].db, e, ref)) <==> run.steps[k].count == 1
  {
    hide Enabled, Exec, FirstReceipt;
    k := StoringStep(st, run, i, ref);
    if e :| FirstReceipt(run.states[i].db, e, ref) { AnnouncedMeansSingle(st, run, i, k, ref, e); }
    if run.steps[k].count == 1 { StoringAnnounces(st, run, i, k, ref); }
  }

  /** Somebody still has to act on the first receipt of a row. */
  ghost predicate Awaited(s: Sys, ref: Ref) { exists e :: FirstReceipt(s.db, e, ref) && Open(s, e) }

  /** Two matchable pending rows, each stored by a transaction that submitted its key once:
      both of those transactions' messages have been processed if and only if one was refused
      its chosen partner and the other was refused too or had found nobody; and otherwise a
      first receipt of one of the rows is still open. */
  lemma StoredPairNotStuck(st: Settings, run: Run, i: nat, g: Ref, l: Ref, kg: nat, kl: nat)
    requires IsRun(st, run) && i < |run.states| && WindowsNest(st.cfg)
    requires Compatible(st, run.states[i].db, g, l)
    requires kg < i && StoredBy(run, kg, g) && run.steps[kg].count == 1
    requires kl < i && StoredBy(run, kl, l) && run.steps[kl].count == 1
    ensures var eg, el := run.states[kg].db.nextEvent, run.states[kl].db.nextEvent;
      && (eg in run.states[i].processed && el in run.states[i].processed
          <==> LeftWaiting(st, run, i, g, l, eg, el))
      && (NoTrimBefore(run, i) && !LeftWaiting(st, run, i, g, l, eg, el)
          ==> Awaited(run.states[i], g) || Awaited(run.states[i], l))
  {
    hide Enabled, Exec, Open, LeftWaiting, FirstReceipt;
    var eg, el := run.states[kg].db.nextEvent, run.states[kl].db.nextEvent;
    StoringAnnounces(st, run, i, kg, g);
    StoringAnnounces(st, run, i, kl, l);
    BothProcessedExactly(st, run, i, g, l, eg, el);
    if NoTrimBefore(run, i) { NoStuckPair(st, run, i, g, l, eg, el); }
  }

  /** With atomic processing, and for any txn_ids, without exception. */
  lemma StoredPairNotStuckAtomic(st: Settings, run: Run, i: nat, g: Ref, l: Ref, kg: nat, kl: nat)
    requires IsRun(st, run) && AtomicRun(run) && i < |run.states| && NoTrimBefore(run, i) && WindowsNest(st.cfg)
    requires Compatible(st, run.states[i].db, g, l)
    requires kg < i && StoredBy(run, kg, g) && run.steps[kg].count == 1
    requires kl < i && StoredBy(run, kl, l) && run.steps[kl].count == 1
    ensures Awaited(run.states[i], g) || Awaited(run.states[i], l)
  {
    hide Enabled, Exec, Open, FirstReceipt;
    StoringAnnounces(st, run, i, kg, g);
    StoringAnnounces(st, run, i, kl, l);
    NoStuckPairAtomic(st, run, i, g, l, run.states[kg].db.nextEvent, run.states[kl].db.nextEvent);
  }

  /** When no transaction submits a key twice every row has a first-receipt message. */
  lemma SingleSubmissionsAnnounce(st: Settings, run: Run, i: nat)
    requires IsRun(st, run) && i < |run.states|
    requires forall k :: 0 <= k < i && run.steps[k].IngestKey? ==> run.steps[k].count == 1
    ensures forall ref :: ref in run.states[i].db.rows ==> exists e :: FirstReceipt(run.states[i].db, e, ref)
  {
    hide Enabled, Exec, FirstReceipt;
    forall ref | ref in run.states[i].db.rows ensures exists e :: FirstReceipt(run.states[i].db, e, ref) {
      var k := FirstReceiptExactly(st, run, i, ref);
    }
  }
}
