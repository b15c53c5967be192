/** The database as the running processes see it: tables updated in place, one method per
    statement or transaction, each proved against the table functions of `Tables`. */
module Store {
  import opened Basics
  import opened Matching
  import opened Tables
  import opened Protocol
  import opened Processing

  /** What an insert of a raw row comes to: a taken key is skipped, a missing account violates
      the foreign key and aborts the transaction. */
  datatype Insertion = Stored(id: nat) | Conflicting | Violating

  class Database {
    var accounts: map<nat, Account>
    var rows: map<Ref, Row>
    var results: map<nat, Result>
    var cases: map<nat, Case>
    var outbox: map<nat, Event>
    var nextGateway: nat
    var nextLedger: nat
    var nextResult: nat
    var nextCase: nat
    var nextEvent: nat

    ghost function View(): Db
      reads this
    {
      Db(accounts, rows, results, cases, outbox, nextGateway, nextLedger, nextResult, nextCase, nextEvent)
    }

    constructor ()
      ensures View() == EMPTY_DB
    {
      accounts, rows, results, cases, outbox := map[], map[], map[], map[], map[];
      nextGateway, nextLedger, nextResult, nextCase, nextEvent := 0, 0, 0, 0, 0;
    }

    method LoadFacts(source: Side, rowId: nat) returns (facts: Option<Facts>)
      ensures facts == if Ref(source, rowId) in rows then Some(rows[Ref(source, rowId)].facts) else None
    {
      if Ref(source, rowId) in rows {
        return Some(rows[Ref(source, rowId)].facts);
      }
      return None;
    }

    /** The counterparty query: an index scan over the other side's pending rows. */
    method FindCounterparties(c: Facts, cfg: Config) returns (found: seq<Facts>)
      requires IdsBelowNext(View())
      ensures RowsIn(found) == Candidates(View(), c, cfg)
      ensures Distinct(found)
    {
      found := [];
      var todo := rows.Keys;
      while todo != {}
        invariant todo <= rows.Keys
        invariant forall f :: f in found <==>
          RefOf(f) in rows.Keys - todo && PendingFacts(View(), f) && InWindow(c, f, cfg)
        invariant Distinct(found)
        decreases |todo|
      {
        var ref :| ref in todo;
        var row := rows[ref];
        if InWindow(c, row.facts, cfg) && row.Pending() {
          found := found + [row.facts];
        }
        todo := todo - {ref};
      }
    }

    method MarkOne(side: Side, id: Option<nat>, now: int)
      modifies this`rows
      ensures rows == if id.Some? then MarkRow(old(rows), Ref(side, id.value), now) else old(rows)
    {
      if id.Some? && Ref(side, id.value) in rows && rows[Ref(side, id.value)].Pending() {
        var ref := Ref(side, id.value);
        rows := rows[ref := rows[ref].(reconciledAt := Some(now))];
      }
    }

    /** Insert or nothing, then mark the rows, then open the exception. */
    method ApplyDecision(d: Decision, tenant: nat, now: int) returns (outcome: Outcome)
      modifies this
      ensures outcome == OutcomeOf(old(View()), d, tenant)
      ensures View() == Apply(old(View()), d, tenant, now)
      ensures !outcome.Written? ==> View() == old(View())
      ensures outcome.Written? ==>
        && results == old(results)[old(nextResult) := Result(tenant, d.gateway, d.ledger, d.status, d.layer, now)]
        && cases == (if d.status in {AmountDrift, UnmatchedGatewayOnly, UnmatchedLedgerOnly}
                     then old(cases)[old(nextCase) := Case(tenant, old(nextResult), None, None)]
                     else old(cases))
    {
      hide Clashes, MarkRow;
      if exists r :: r in results && Clashes(results[r], d, tenant) {
        return Skipped;
      }
      if !(tenant in accounts
           && (d.gateway.Some? ==> Ref(Gateway, d.gateway.value) in rows)
           && (d.ledger.Some? ==> Ref(Ledger, d.ledger.value) in rows)) {
        return Aborted;
      }
      var id := nextResult;
      results := results[id := Result(tenant, d.gateway, d.ledger, d.status, d.layer, now)];
      nextResult := nextResult + 1;
      if d.status != Duplicate {
        MarkOne(Gateway, d.gateway, now);
        MarkOne(Ledger, d.ledger, now);
      }
      if NeedsHuman(d.status) {
        cases := cases[nextCase := Case(tenant, id, None, None)];
        nextCase := nextCase + 1;
      }
      return Written;
    }

    /** Compare-and-set: the loser of a race is told so and overwrites nothing. */
    method CloseException(tenant: nat, id: nat, notes: string, now: int) returns (closed: bool)
      modifies this`cases
      ensures View() == CloseCase(old(View()), tenant, id, notes, now)
      ensures closed <==> id in old(cases) && old(cases[id]).tenant == tenant && old(cases[id]).closedAt.None?
      ensures closed ==> cases == old(cases)[id := Case(tenant, old(cases[id]).result, Some(now), Some(notes))]
      ensures !closed ==> cases == old(cases)
    {
      closed := id in cases && cases[id].tenant == tenant && cases[id].closedAt.None?;
      if closed {
        cases := cases[id := cases[id].(closedAt := Some(now), notes := Some(notes))];
      }
    }

    /* The deletes of retention.  The database refuses a statement that would leave a
       reference dangling: the precondition of each is that it does not. */

    method DeleteCasesOf(tenant: nat)
      requires ForeignKeys(WithoutCases(View(), tenant))
      modifies this`cases
      ensures View() == WithoutCases(old(View()), tenant)
    {
      cases := map c | c in cases && cases[c].tenant != tenant :: cases[c];
    }

    method DeleteResultsOf(tenant: nat)
      requires ForeignKeys(WithoutResults(View(), tenant))
      modifies this`results
      ensures View() == WithoutResults(old(View()), tenant)
    {
      results := map r | r in results && results[r].tenant != tenant :: results[r];
    }

    method DeleteRowsOf(tenant: nat, side: Side)
      requires ForeignKeys(WithoutRows(View(), tenant, side))
      modifies this`rows
      ensures View() == WithoutRows(old(View()), tenant, side)
    {
      rows := map r | r in rows && !(r.side == side && rows[r].facts.tenant == tenant) :: rows[r];
    }

    method DeleteAccountRow(tenant: nat)
      requires ForeignKeys(WithoutAccount(View(), tenant))
      modifies this`accounts
      ensures View() == WithoutAccount(old(View()), tenant)
    {
      accounts := map a | a in accounts && a != tenant :: accounts[a];
    }

    /* ------------------------------ Ingestion ------------------------------ */

    /** INSERT ... ON CONFLICT DO NOTHING RETURNING id. */
    method InsertRow(side: Side, tenant: nat, sub: Submission, now: int) returns (insertion: Insertion)
      modifies this
      ensures insertion.Conflicting? <==> exists r: Ref :: HoldsKey(old(View()), tenant, side, sub.key, r)
      ensures insertion.Violating? <==> !insertion.Conflicting? && tenant !in old(View()).accounts
      ensures !insertion.Stored? ==> View() == old(View())
      ensures insertion.Stored? ==> insertion.id == NextId(old(View()), side)
      ensures insertion.Stored? ==> View() == Inserted(old(View()), side, tenant, sub, now)
      ensures insertion.Stored? ==> rows == old(rows)[Ref(side, insertion.id) := Row(
        Facts(side, tenant, insertion.id, sub.txn, sub.amount, sub.currency, sub.occurred, now), sub.key, 0, None)]
    {
      if exists r :: r in rows && r.side == side && rows[r].facts.tenant == tenant && rows[r].key == sub.key {
        ghost var r :| r in rows && r.side == side && rows[r].facts.tenant == tenant && rows[r].key == sub.key;
        assert HoldsKey(View(), tenant, side, sub.key, r);
        return Conflicting;
      }
      if tenant !in accounts {
        return Violating;
      }
      var ref := Ref(side, if side.Gateway? then nextGateway else nextLedger);
      rows := rows[ref := Row(NewFacts(ref, tenant, sub, now), sub.key, 0, None)];
      if side.Gateway? { nextGateway := nextGateway + 1; } else { nextLedger := nextLedger + 1; }
      return Stored(ref.id);
    }

    method AddSubmissions(side: Side, tenant: nat, key: string, delta: nat)
      modifies this`rows
      ensures View() == Recounted(old(View()), side, tenant, key, delta)
    {
      rows := map r | r in rows ::
        if r.side == side && rows[r].facts.tenant == tenant && rows[r].key == key
        then rows[r].(dupCount := rows[r].dupCount + delta) else rows[r];
    }

    method SelectByKey(side: Side, tenant: nat, key: string) returns (id: nat, count: nat)
      requires exists r: Ref :: HoldsKey(View(), tenant, side, key, r)
      ensures HoldsKey(View(), tenant, side, key, Ref(side, id)) && count == rows[Ref(side, id)].dupCount
    {
      ghost var h: Ref :| HoldsKey(View(), tenant, side, key, h);
      assert h in rows && h.side == side && rows[h].facts.tenant == tenant && rows[h].key == key;
      var r :| r in rows && r.side == side && rows[r].facts.tenant == tenant && rows[r].key == key;
      return r.id, rows[r].dupCount;
    }

    method Enqueue(msg: Message)
      modifies this`outbox, this`nextEvent
      ensures View() == Enqueued(old(View()), msg)
    {
      outbox := outbox[nextEvent := Event(msg, None, 0)];
      nextEvent := nextEvent + 1;
    }

    /** Relay: mark a published batch. */
    method MarkEventsPublished(events: seq<nat>, now: int)
      modifies this`outbox
      ensures View() == MarkPublished(old(View()), events, now)
    {
      outbox := map e | e in outbox ::
        if e in events then outbox[e].(publishedAt := Some(now), attempts := outbox[e].attempts + 1)
        else outbox[e];
    }
  }

  /** The matcher worker's transaction for one message. */
  method Process(db: Database, st: Settings, msg: Message, now: int)
    returns (outcome: Option<Outcome>, partner: Option<Facts>)
    requires IdsBelowNext(db.View())
    modifies db
    ensures Choice(st, old(db.View()), msg, partner)
    ensures db.View() == Processed(st, old(db.View()), msg, partner, now)
    ensures outcome.Some? <==> IntentFor(old(db.View()), msg, partner).Some?
    ensures outcome.Some? ==> var i := IntentFor(old(db.View()), msg, partner).value;
      outcome.value == OutcomeOf(old(db.View()), DecisionOf(i, st.cfg), i.candidate.tenant)
  {
    var candidate := db.LoadFacts(msg.source, msg.rowId);
    if candidate.None? {
      return None, None;
    }
    var c := candidate.value;
    if msg.isDuplicate {
      var o := db.ApplyDecision(DuplicateDecision(c), c.tenant, now);
      return Some(o), None;
    }
    var counterparties := db.FindCounterparties(c, st.cfg);
    var decision;
    decision, partner := Decide(c, counterparties, st.cfg);
    if decision.None? {
      return None, None;
    }
    var o := db.ApplyDecision(decision.value, c.tenant, now);
    return Some(o), partner;
  }

  /** The stream as one relay drives it. */
  class Stream {
    var entries: seq<Message>

    constructor ()
      ensures entries == []
    {
      entries := [];
    }

    method PublishMany(messages: seq<Message>)
      modifies this
      ensures entries == old(entries) + messages
    {
      for i := 0 to |messages|
        invariant entries == old(entries) + messages[..i]
      {
        entries := entries + [messages[i]];
        assert messages[..i + 1] == messages[..i] + [messages[i]];
      }
      assert messages[..|messages|] == messages;
    }
  }

  predicate Unpublished(db: Db, e: nat) { e in db.outbox && db.outbox[e].publishedAt.None? }

  function Backlog(db: Db): set<nat> { set e | e in db.outbox && db.outbox[e].publishedAt.None? }

  /** The claim: the oldest unpublished rows, in id order, at most `limit`.  One relay alone
      finds nothing locked. */
  predicate OldestBatch(db: Db, batch: seq<nat>, limit: nat) {
    && (forall i :: 0 <= i < |batch| ==> Unpublished(db, batch[i]))
    && (forall i, j :: 0 <= i < j < |batch| ==> batch[i] < batch[j])
    && |batch| == Min(limit, |Backlog(db)|)
    && (forall e, i :: Unpublished(db, e) && e !in batch && 0 <= i < |batch| ==> batch[i] < e)
  }

  method ClaimBatch(db: Database, limit: nat) returns (batch: seq<nat>)
    ensures OldestBatch(db.View(), batch, limit)
  {
    batch := [];
    var todo := set e | e in db.outbox && db.outbox[e].publishedAt.None?;
    ghost var all := todo;
    while |batch| < limit && todo != {}
      invariant todo <= all == Backlog(db.View())
      invariant forall e :: e in batch <==> e in all - todo
      invariant |batch| + |todo| == |all| && |batch| <= limit
      invariant forall i, j :: 0 <= i < j < |batch| ==> batch[i] < batch[j]
      invariant forall e, i :: e in todo && 0 <= i < |batch| ==> batch[i] < e
      decreases |todo|
    {
      var least := Least(todo);
      assert |todo - {least}| == |todo| - 1;
      batch, todo := batch + [least], todo - {least};
    }
    forall i | 0 <= i < |batch| ensures Unpublished(db.View(), batch[i]) {
      assert batch[i] in batch;
    }
  }

  method Least(s: set<nat>) returns (least: nat)
    requires s != {}
    ensures least in s && forall e :: e in s ==> least <= e
  {
    least :| least in s;
    var rest := s - {least};
    while rest != {}
      invariant rest <= s && least in s
      invariant forall e :: e in s && e !in rest ==> least <= e
      decreases |rest|
    {
      var e :| e in rest;
      if e < least { least := e; }
      rest := rest - {e};
    }
  }

  function MessagesOf(db: Db, batch: seq<nat>): seq<Message>
    requires forall i :: 0 <= i < |batch| ==> batch[i] in db.outbox
  {
    seq(|batch|, i requires 0 <= i < |batch| => db.outbox[batch[i]].msg)
  }

  lemma BatchIsStored(db: Db, batch: seq<nat>, limit: nat)
    requires OldestBatch(db, batch, limit)
    ensures forall i :: 0 <= i < |batch| ==> Unpublished(db, batch[i])
    ensures forall e :: e in batch ==> e in Backlog(db)
    ensures |batch| == Min(limit, |Backlog(db)|)
  {
  }

  /** One relay pass: publish the oldest batch in order, then mark exactly those rows. */
  method DrainOnce(db: Database, stream: Stream, limit: nat, now: int) returns (published: nat, batch: seq<nat>)
    modifies db, stream
    ensures OldestBatch(old(db.View()), batch, limit) && published == |batch|
    ensures stream.entries == old(stream.entries) + MessagesOf(old(db.View()), batch)
    ensures |stream.entries| == |old(stream.entries)| + |batch|
    ensures forall i :: 0 <= i < |batch| && batch[i] in old(db.outbox) && |old(stream.entries)| + i < |stream.entries|
              ==> stream.entries[|old(stream.entries)| + i] == old(db.outbox)[batch[i]].msg
    ensures db.View() == MarkPublished(old(db.View()), batch, now)
    ensures db.outbox.Keys == old(db.outbox).Keys
    ensures forall e :: e in old(db.outbox) && e in db.outbox ==>
      db.outbox[e] == if e in batch then Event(old(db.outbox[e]).msg, Some(now), old(db.outbox[e]).attempts + 1)
                      else old(db.outbox[e])
    ensures Backlog(db.View()) == Backlog(old(db.View())) - (set e | e in batch)
    ensures published == 0 <==> limit == 0 || Backlog(old(db.View())) == {}
  {
    batch := ClaimBatch(db, limit);
    var view := db.View();
    assert |Backlog(view)| == 0 <==> Backlog(view) == {};
    if batch == [] {
      assert MarkPublished(view, [], now).outbox == view.outbox;
      return 0, [];
    }
    BatchIsStored(view, batch, limit);
    var outbox := db.outbox;
    stream.PublishMany(seq(|batch|, i requires 0 <= i < |batch| && batch[i] in outbox => outbox[batch[i]].msg));
    assert stream.entries == old(stream.entries) + MessagesOf(old(db.View()), batch);
    hide OldestBatch;
    db.MarkEventsPublished(batch, now);
    return |batch|, batch;
  }
}
