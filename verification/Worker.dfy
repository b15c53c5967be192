/** The matcher worker's batch: process, commit, then ack, one entry at a time; and the
    rate-limited adoption of entries a dead consumer left behind. */
module Worker {
  import opened Basics
  import opened Matching
  import opened Tables
  import opened Protocol
  import opened Processing
  import opened Store

  /** The group's pending list: entries delivered and not acked, when and to whom. */
  datatype Delivery = Delivery(msg: Message, consumer: nat, at: int)

  class Group {
    var pending: map<nat, Delivery>

    constructor ()
      ensures pending == map[]
    {
      pending := map[];
    }

    method Ack(entry: nat)
      modifies this
      ensures pending == old(pending) - {entry}
    {
      pending := pending - {entry};
    }

    /** XAUTOCLAIM from the start of the list: examine entries in id order, at most ten times
        the count of them, and hand the consumer those idle for long enough.  Each stays
        pending, under its new owner. */
    method ClaimStale(consumer: nat, minIdle: int, count: nat, now: int)
      returns (claimed: seq<nat>, ghost scanned: set<nat>)
      modifies this
      ensures ScanOf(old(pending).Keys, scanned, count)
      ensures Distinct(claimed) && |claimed| <= count
      ensures forall n :: n in claimed <==> n in scanned && n in old(pending) && old(pending)[n].at + minIdle <= now
      ensures |claimed| == count || |scanned| == SCAN_FACTOR * count || scanned == old(pending).Keys
      ensures TakenOver(old(pending), claimed, consumer, now, pending)
    {
      hide Scanning, ScanOf, IdleOf;
      claimed, scanned := [], {};
      ScanStarts(pending, minIdle, now);
      var todo, attempts := pending.Keys, SCAN_FACTOR * count;
      while attempts > 0 && |claimed| < count && todo != {}
        invariant pending == old(pending) && Scanning(pending, scanned, todo, claimed, minIdle, now)
        invariant attempts >= 0 && |scanned| + attempts == SCAN_FACTOR * count && |claimed| <= count
        decreases attempts
      {
        var n := Least(todo);
        ScanStep(pending, scanned, todo, claimed, minIdle, now, n);
        if pending[n].at + minIdle <= now { claimed := claimed + [n]; }
        scanned, todo, attempts := scanned + {n}, todo - {n}, attempts - 1;
      }
      ScanEnds(pending, scanned, todo, claimed, minIdle, now, count);
      HandedOver(pending, claimed, consumer, now);
      hide TakenOver;
      pending := map n | n in pending :: if n in claimed then Delivery(pending[n].msg, consumer, now) else pending[n];
    }
  }

  /** A scan half way: `todo` has not been examined. */
  ghost predicate Scanning(pending: map<nat, Delivery>, scanned: set<nat>, todo: set<nat>, claimed: seq<nat>,
                           minIdle: int, now: int) {
    && scanned + todo == pending.Keys && scanned !! todo
    && (forall n, m :: n in scanned && m in todo ==> n < m)
    && Distinct(claimed) && EntrySet(claimed) == IdleOf(pending, scanned, minIdle, now)
  }

  lemma ScanStarts(pending: map<nat, Delivery>, minIdle: int, now: int)
    ensures Scanning(pending, {}, pending.Keys, [], minIdle, now)
  {
  }

  lemma ScanStep(pending: map<nat, Delivery>, scanned: set<nat>, todo: set<nat>, claimed: seq<nat>, minIdle: int,
                 now: int, n: nat)
    requires Scanning(pending, scanned, todo, claimed, minIdle, now)
    requires n in todo && forall m :: m in todo ==> n <= m
    ensures n in pending && n !in scanned
    ensures Scanning(pending, scanned + {n}, todo - {n},
      if pending[n].at + minIdle <= now then claimed + [n] else claimed, minIdle, now)
  {
    assert EntrySet(claimed + [n]) == EntrySet(claimed) + {n};
    assert n !in EntrySet(claimed);
    if pending[n].at + minIdle <= now {
      assert IdleOf(pending, scanned + {n}, minIdle, now) == IdleOf(pending, scanned, minIdle, now) + {n};
    } else {
      assert IdleOf(pending, scanned + {n}, minIdle, now) == IdleOf(pending, scanned, minIdle, now);
    }
  }

  lemma ScanEnds(pending: map<nat, Delivery>, scanned: set<nat>, todo: set<nat>, claimed: seq<nat>, minIdle: int,
                 now: int, count: nat)
    requires Scanning(pending, scanned, todo, claimed, minIdle, now) && |scanned| <= SCAN_FACTOR * count
    ensures ScanOf(pending.Keys, scanned, count) && (todo == {} ==> scanned == pending.Keys)
    ensures Distinct(claimed)
    ensures forall n :: n in claimed <==> n in scanned && n in pending && pending[n].at + minIdle <= now
  {
    assert forall n :: n in claimed <==> n in EntrySet(claimed);
    assert scanned <= scanned + todo;
    assert pending.Keys - scanned == todo;
  }

  /** Redis examines this many pending entries per entry asked for. */
  const SCAN_FACTOR := 10

  /** The first entries of the list, as far as one scan goes. */
  ghost predicate ScanOf(ids: set<nat>, scanned: set<nat>, count: nat) {
    && scanned <= ids && |scanned| <= SCAN_FACTOR * count
    && forall n, m :: n in scanned && m in ids - scanned ==> n < m
  }

  /** The claimed entries belong to the claimer from now on, idle since now; every other entry
      is as it was, and none has left the list. */
  ghost predicate TakenOver(pending: map<nat, Delivery>, claimed: seq<nat>, consumer: nat, now: int,
                            after: map<nat, Delivery>) {
    && after.Keys == pending.Keys
    && (forall n :: n in claimed && n in pending ==>
          after[n].msg == pending[n].msg && after[n].consumer == consumer && after[n].at == now)
    && (forall n :: n in pending && n !in claimed ==> after[n] == pending[n])
  }

  lemma HandedOver(pending: map<nat, Delivery>, claimed: seq<nat>, consumer: nat, now: int)
    ensures TakenOver(pending, claimed, consumer, now, map n | n in pending ::
      if n in claimed then Delivery(pending[n].msg, consumer, now) else pending[n])
  {
  }

  /** An entry just taken over is safe from the other workers: no scan before it has been idle
      for the minimum again hands it to anybody. */
  lemma ReclaimFindsNothing(pending: map<nat, Delivery>, claimed: seq<nat>, consumer: nat, now: int,
                            after: map<nat, Delivery>, scanned: set<nat>, minIdle: int, later: int)
    requires TakenOver(pending, claimed, consumer, now, after) && EntrySet(claimed) <= pending.Keys
    requires later < now + minIdle
    ensures IdleOf(after, scanned, minIdle, later) !! EntrySet(claimed)
    ensures IdleOf(after, scanned, minIdle, later) == IdleOf(pending, scanned - EntrySet(claimed), minIdle, later)
  {
    forall n | n in EntrySet(claimed) ensures n !in IdleOf(after, scanned, minIdle, later) {
      assert n in claimed && n in pending;
    }
  }

  /** The tables after the messages' transactions, one after the other. */
  ghost predicate ProcessedInOrder(st: Settings, db: Db, msgs: seq<Message>, now: int, db': Db) {
    if msgs == [] then db' == db
    else exists mid :: ProcessedInOrder(st, db, AllButLast(msgs), now, mid)
           && ProcessedOnce(st, mid, Last(msgs), now, db')
  }

  function MessagesIn(pending: map<nat, Delivery>, entries: seq<nat>): seq<Message>
    requires forall n :: n in entries ==> n in pending
  {
    seq(|entries|, i requires 0 <= i < |entries| => assert entries[i] in entries; pending[entries[i]].msg)
  }

  function EntrySet(entries: seq<nat>): set<nat> { set n | n in entries }

  function IdleOf(pending: map<nat, Delivery>, among: set<nat>, minIdle: int, now: int): set<nat> {
    set n | n in among && n in pending && pending[n].at + minIdle <= now
  }

  class MatcherWorker {
    const st: Settings
    const consumer: nat
    const claimInterval: int
    const claimMinIdle: int
    const batchSize: nat
    var lastClaim: int

    constructor (st: Settings, consumer: nat, claimInterval: int, claimMinIdle: int, batchSize: nat)
      ensures this.st == st && this.consumer == consumer && lastClaim == 0
      ensures this.claimInterval == claimInterval && this.claimMinIdle == claimMinIdle && this.batchSize == batchSize
    {
      this.st, this.consumer := st, consumer;
      this.claimInterval, this.claimMinIdle, this.batchSize := claimInterval, claimMinIdle, batchSize;
      lastClaim := 0;
    }

    /** At most one scan of the pending list per interval; nothing leaves the list. */
    method MaybeClaim(group: Group, monotonic: int, now: int) returns (claimed: seq<nat>, ghost scanned: set<nat>)
      modifies this`lastClaim, group
      ensures Distinct(claimed) && TakenOver(old(group.pending), claimed, consumer, now, group.pending)
      ensures monotonic - old(lastClaim) < claimInterval ==> claimed == [] && lastClaim == old(lastClaim)
      ensures monotonic - old(lastClaim) >= claimInterval
        ==> lastClaim == monotonic && ScanOf(old(group.pending).Keys, scanned, batchSize)
      ensures monotonic - old(lastClaim) >= claimInterval ==> forall n ::
        n in claimed <==> n in scanned && n in old(group.pending) && old(group.pending)[n].at + claimMinIdle <= now
      ensures monotonic - old(lastClaim) >= claimInterval ==> |claimed| <= batchSize
      ensures monotonic - old(lastClaim) >= claimInterval && |claimed| < batchSize
        ==> |scanned| == SCAN_FACTOR * batchSize || scanned == old(group.pending).Keys
    {
      scanned := {};
      if monotonic - lastClaim < claimInterval {
        return [], {};
      }
      lastClaim := monotonic;
      claimed, scanned := group.ClaimStale(consumer, claimMinIdle, batchSize, now);
    }

    /** Handle a batch in order.  Processing raises at entry `failsAt`, or where a reference is
        missing, with the entry's transaction rolled back; the ack raises at `ackFailsAt`, with
        the transaction committed.  Either ends the batch, and so does a stop request, seen
        after `stopsAfter` entries.  An entry leaves the pending list only when its transaction
        committed, so an unacked one is redelivered and nothing is lost. */
    method HandleBatch(db: Database, group: Group, entries: seq<nat>, now: int, failsAt: nat, ackFailsAt: nat,
                       stopsAfter: nat)
      returns (acked: nat, committed: nat, raised: bool)
      requires IdsBelowNext(db.View()) && Distinct(entries) && forall n :: n in entries ==> n in group.pending
      modifies db, group
      ensures acked <= committed <= |entries| && committed <= acked + 1 && IdsBelowNext(db.View())
      ensures ProcessedInOrder(st, old(db.View()), MessagesIn(old(group.pending), entries)[..committed], now, db.View())
      ensures group.pending == old(group.pending) - EntrySet(entries[..acked])
      ensures acked < committed ==> raised && acked == ackFailsAt
      ensures acked < |entries| ==> raised || (acked >= 1 && acked >= stopsAfter)
      ensures acked == failsAt && failsAt < |entries| && failsAt < stopsAfter ==> raised
    {
      hide IdsBelowNext, ProcessedInOrder, Choice, Processed, IntentFor;
      acked, committed, raised := 0, 0, false;
      ghost var db0, pending0 := db.View(), group.pending;
      ghost var msgs := MessagesIn(group.pending, entries);
      NothingYet(st, db0, msgs, now);
      while acked < |entries|
        invariant acked == committed <= |entries| && IdsBelowNext(db.View()) && !raised
        invariant acked <= failsAt && (acked > 0 ==> acked < stopsAfter)
        invariant ProcessedInOrder(st, db0, msgs[..committed], now, db.View())
        invariant group.pending == pending0 - EntrySet(entries[..acked])
        decreases |entries| - acked
      {
        if acked == failsAt {
          raised := true;
          return;
        }
        var n := entries[acked];
        assert n in entries && n !in entries[..acked];
        var msg := group.pending[n].msg;
        assert msg == msgs[acked];
        ghost var before := db.View();
        var outcome, partner := Process(db, st, msg, now);
        ProcessedKeepsIds(st, before, msg, partner, now);
        if outcome == Some(Aborted) {
          RollbackChangesNothing(st, before, msg, partner, now);
          raised := true;
          return;
        }
        OneMore(st, db0, before, db.View(), msgs, committed, now, partner);
        committed := committed + 1;
        if acked == ackFailsAt {
          raised := true;
          return;
        }
        group.Ack(n);
        assert entries[..acked + 1] == entries[..acked] + [n];
        assert EntrySet(entries[..acked + 1]) == EntrySet(entries[..acked]) + {n};
        acked := acked + 1;
        if acked >= stopsAfter {
          return;
        }
      }
    }
  }

  lemma RollbackChangesNothing(st: Settings, db: Db, msg: Message, p: Option<Facts>, now: int)
    requires Choice(st, db, msg, p) && IntentFor(db, msg, p).Some?
    requires var i := IntentFor(db, msg, p).value; OutcomeOf(db, DecisionOf(i, st.cfg), i.candidate.tenant).Aborted?
    ensures Processed(st, db, msg, p, now) == db
  {
  }

  lemma NothingYet(st: Settings, db: Db, msgs: seq<Message>, now: int)
    ensures ProcessedInOrder(st, db, msgs[..0], now, db)
  {
  }

  lemma OneMore(st: Settings, db0: Db, db: Db, db': Db, msgs: seq<Message>, i: nat, now: int, p: Option<Facts>)
    requires i < |msgs| && ProcessedInOrder(st, db0, msgs[..i], now, db)
    requires Choice(st, db, msgs[i], p) && db' == Processed(st, db, msgs[i], p, now)
    ensures ProcessedInOrder(st, db0, msgs[..i + 1], now, db')
  {
    assert AllButLast(msgs[..i + 1]) == msgs[..i];
    assert ProcessedOnce(st, db, msgs[i], now, db');
  }
}
