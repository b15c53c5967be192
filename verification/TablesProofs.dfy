/** Each database transaction keeps the invariants. */
module TablesProofs {
  import opened Basics
  import opened Matching
  import opened Tables

  predicate DecisionNames(d: Decision, ref: Ref) {
    if ref.side.Gateway? then d.gateway == Some(ref.id) else d.ledger == Some(ref.id)
  }

  function Marked(row: Row, hit: bool, now: int): Row {
    if hit && row.Pending() then row.(reconciledAt := Some(now)) else row
  }

  lemma MarkReconciledRows(rows: map<Ref, Row>, d: Decision, now: int)
    ensures MarkReconciled(rows, d, now).Keys == rows.Keys
    ensures forall ref :: ref in rows ==>
      MarkReconciled(rows, d, now)[ref] == Marked(rows[ref], DecisionNames(d, ref), now)
  {
  }

  lemma InsertedRows(db: Db, d: Decision, tenant: nat, now: int)
    ensures var db' := InsertResult(db, d, tenant, now);
      && db'.rows.Keys == db.rows.Keys
      && forall ref :: ref in db.rows ==>
           db'.rows[ref] == Marked(db.rows[ref], d.status != Duplicate && DecisionNames(d, ref), now)
  {
    MarkReconciledRows(db.rows, d, now);
  }

  /** What a successful insert finds on a row it names. */
  ghost predicate RowFree(db: Db, d: Decision, tenant: nat, ref: Ref) {
    && ref in db.rows
    && db.rows[ref].facts.tenant == tenant
    && (d.status != Duplicate ==> db.rows[ref].Pending() && forall r :: !ActiveOn(db, r, ref))
    && (d.status == Duplicate ==> forall r :: !MarkerOn(db, r, ref))
  }

  ghost predicate RowsFree(db: Db, d: Decision, tenant: nat) {
    forall ref :: DecisionNames(d, ref) ==> RowFree(db, d, tenant, ref)
  }

  /** With tenants in agreement, an index keyed by (tenant, row) is unique per row outright:
      an insert that no index refuses finds no result of its kind on any row it names, so
      the update's `reconciled_at IS NULL` is never false after a successful insert. */
  lemma WriteFindsRowFree(db: Db, d: Decision, tenant: nat, ref: Ref)
    requires TenantsAgree(db) && ReconciledByResult(db)
    requires OutcomeOf(db, d, tenant).Written?
    requires DecisionNames(d, ref) && ref in db.rows && db.rows[ref].facts.tenant == tenant
    ensures RowFree(db, d, tenant, ref)
  {
    forall r | r in db.results && db.results[r].Names(ref)
      ensures (db.results[r].status == Duplicate) != (d.status == Duplicate)
    {
      assert db.results[r].tenant == tenant;
      assert !Clashes(db.results[r], d, tenant);
    }
  }

  /** The rows a sound intent names are the rows that were read; they belong to one tenant. */
  lemma IntentRows(st: Settings, db: Db, now: int, i: Intent, ref: Ref)
    requires IntentSound(st, db, now, i)
    requires DecisionNames(DecisionOf(i, st.cfg), ref) && ref in db.rows
    ensures db.rows[ref].facts.tenant == i.candidate.tenant
    ensures (ref == RefOf(i.candidate) && db.rows[ref].facts == i.candidate)
         || (i.Pair? && ref == RefOf(i.partner) && db.rows[ref].facts == i.partner)
  {
    if i.Pair? { ViableAgrees(i.candidate, i.partner, st.cfg); }
  }

  lemma IntentRowsFree(st: Settings, db: Db, now: int, i: Intent)
    requires TenantsAgree(db) && ReconciledByResult(db) && IntentSound(st, db, now, i)
    requires OutcomeOf(db, DecisionOf(i, st.cfg), i.candidate.tenant).Written?
    ensures RowsFree(db, DecisionOf(i, st.cfg), i.candidate.tenant)
  {
    var d := DecisionOf(i, st.cfg);
    forall ref | DecisionNames(d, ref) ensures RowFree(db, d, i.candidate.tenant, ref) {
      assert ref in db.rows;
      IntentRows(st, db, now, i, ref);
      WriteFindsRowFree(db, d, i.candidate.tenant, ref);
    }
  }

  lemma WriteKeepsKeys(db: Db, d: Decision, tenant: nat, now: int)
    requires IdsBelowNext(db) && KeysUnique(db)
    ensures IdsBelowNext(InsertResult(db, d, tenant, now))
    ensures KeysUnique(InsertResult(db, d, tenant, now))
  {
    var db' := InsertResult(db, d, tenant, now);
    InsertedRows(db, d, tenant, now);
    assert forall a, b :: a in db'.rows && b in db'.rows && SameKey(db', a, b) ==> SameKey(db, a, b);
  }

  lemma WriteKeepsEvents(db: Db, d: Decision, tenant: nat, now: int)
    requires EventsSane(db)
    ensures EventsSane(InsertResult(db, d, tenant, now))
  {
    var db' := InsertResult(db, d, tenant, now);
    InsertedRows(db, d, tenant, now);
    forall e | e in db'.outbox ensures MessageSane(db', db'.outbox[e].msg) {
      assert MessageSane(db, db.outbox[e].msg);
    }
  }

  lemma WriteKeepsReferences(db: Db, d: Decision, tenant: nat, now: int)
    requires IdsBelowNext(db) && ForeignKeys(db) && TenantsAgree(db)
    requires RowsFree(db, d, tenant) && tenant in db.accounts
    ensures ForeignKeys(InsertResult(db, d, tenant, now))
    ensures TenantsAgree(InsertResult(db, d, tenant, now))
  {
    var db' := InsertResult(db, d, tenant, now);
    InsertedRows(db, d, tenant, now);
    forall r, ref: Ref | r in db'.results && db'.results[r].Names(ref)
      ensures ref in db'.rows && db'.rows[ref].facts.tenant == db'.results[r].tenant
    {
      if r == db.nextResult {
        assert DecisionNames(d, ref);
        assert RowFree(db, d, tenant, ref);
      }
    }
  }

  lemma WriteKeepsOneActive(db: Db, d: Decision, tenant: nat, now: int)
    requires IdsBelowNext(db) && OneActive(db) && OneMarker(db)
    requires RowsFree(db, d, tenant)
    ensures OneActive(InsertResult(db, d, tenant, now))
    ensures OneMarker(InsertResult(db, d, tenant, now))
  {
    var db' := InsertResult(db, d, tenant, now);
    var n := db.nextResult;
    forall a, b, ref: Ref | ActiveOn(db', a, ref) && ActiveOn(db', b, ref) ensures a == b {
      if a != n && b != n {
        assert ActiveOn(db, a, ref) && ActiveOn(db, b, ref);
      } else {
        assert DecisionNames(d, ref) && RowFree(db, d, tenant, ref);
        assert !ActiveOn(db, a, ref) && !ActiveOn(db, b, ref);
      }
    }
    forall a, b, ref: Ref | MarkerOn(db', a, ref) && MarkerOn(db', b, ref) ensures a == b {
      if a != n && b != n {
        assert MarkerOn(db, a, ref) && MarkerOn(db, b, ref);
      } else {
        assert DecisionNames(d, ref) && RowFree(db, d, tenant, ref);
        assert !MarkerOn(db, a, ref) && !MarkerOn(db, b, ref);
      }
    }
  }

  lemma WriteKeepsReconciled(db: Db, d: Decision, tenant: nat, now: int)
    requires IdsBelowNext(db) && ReconciledByResult(db)
    requires RowsFree(db, d, tenant)
    ensures ReconciledByResult(InsertResult(db, d, tenant, now))
  {
    var db' := InsertResult(db, d, tenant, now);
    var n := db.nextResult;
    InsertedRows(db, d, tenant, now);
    forall r, ref: Ref | ActiveOn(db', r, ref) && ref in db'.rows
      ensures !db'.rows[ref].Pending()
    {
      if r == n {
        assert DecisionNames(d, ref) && RowFree(db, d, tenant, ref);
      } else {
        assert ActiveOn(db, r, ref);
      }
    }
    forall ref | ref in db'.rows && !db'.rows[ref].Pending() ensures exists r :: ActiveOn(db', r, ref) {
      if db.rows[ref].Pending() {
        assert ActiveOn(db', n, ref);
      } else {
        var r :| ActiveOn(db, r, ref);
        assert ActiveOn(db', r, ref);
      }
    }
  }

  /** A sound intent justifies the result it writes. */
  lemma WriteIsJustified(st: Settings, db: Db, now: int, i: Intent)
    requires IntentSound(st, db, now, i)
    requires OutcomeOf(db, DecisionOf(i, st.cfg), i.candidate.tenant).Written?
    ensures var d := DecisionOf(i, st.cfg);
            Justified(st, db, Result(i.candidate.tenant, d.gateway, d.ledger, d.status, d.layer, now))
  {
    match i
    case Pair(c, p) =>
      ViableAgrees(c, p, st.cfg);
      ClassifyPairSymmetric(c, p, st.cfg);
    case Mark(c) =>
    case GiveUp(c) =>
  }

  /** The columns a justification rests on: never rewritten, the counter never lowered. */
  predicate RowPreserved(db: Db, db': Db, ref: Ref) {
    ref in db.rows ==>
      && ref in db'.rows
      && db'.rows[ref].facts == db.rows[ref].facts
      && db'.rows[ref].dupCount >= db.rows[ref].dupCount
  }

  lemma StaysJustified(st: Settings, db: Db, db': Db, r: Result)
    requires Justified(st, db, r)
    requires r.gateway.Some? ==> RowPreserved(db, db', Ref(Gateway, r.gateway.value))
    requires r.ledger.Some? ==> RowPreserved(db, db', Ref(Ledger, r.ledger.value))
    ensures Justified(st, db', r)
  {
  }

  lemma AllStayJustified(st: Settings, db: Db, db': Db)
    requires AllJustified(st, db)
    requires forall ref :: RowPreserved(db, db', ref)
    requires forall r :: r in db'.results ==> r in db.results && db'.results[r] == db.results[r]
    ensures AllJustified(st, db')
  {
    forall r | r in db'.results ensures Justified(st, db', db'.results[r]) {
      StaysJustified(st, db, db', db.results[r]);
    }
  }

  lemma WriteKeepsJustified(st: Settings, db: Db, now: int, i: Intent)
    requires AllJustified(st, db) && IntentSound(st, db, now, i)
    requires OutcomeOf(db, DecisionOf(i, st.cfg), i.candidate.tenant).Written?
    ensures AllJustified(st, InsertResult(db, DecisionOf(i, st.cfg), i.candidate.tenant, now))
  {
    var d := DecisionOf(i, st.cfg);
    var db' := InsertResult(db, d, i.candidate.tenant, now);
    InsertedRows(db, d, i.candidate.tenant, now);
    assert forall ref :: RowPreserved(db, db', ref);
    WriteIsJustified(st, db, now, i);
    forall r | r in db'.results ensures Justified(st, db', db'.results[r]) {
      StaysJustified(st, db, db', db'.results[r]);
    }
  }

  lemma WriteKeepsCases(db: Db, d: Decision, tenant: nat, now: int)
    requires IdsBelowNext(db) && CasesMatch(db)
    ensures CasesMatch(InsertResult(db, d, tenant, now))
  {
    var db' := InsertResult(db, d, tenant, now);
    forall r | r in db'.results && NeedsHuman(db'.results[r].status)
      ensures exists c :: c in db'.cases && db'.cases[c].result == r
    {
      if r == db.nextResult {
        assert db'.cases[db.nextCase].result == r;
      } else {
        var c :| c in db.cases && db.cases[c].result == r;
        assert db'.cases[c].result == r;
      }
    }
  }

  /** Committing a sound intent, however stale the reads behind it, keeps every invariant. */
  lemma ApplyKeepsInv(st: Settings, db: Db, now: int, i: Intent)
    requires DbInv(st, db) && IntentSound(st, db, now, i)
    ensures DbInv(st, Apply(db, DecisionOf(i, st.cfg), i.candidate.tenant, now))
  {
    var d, tenant := DecisionOf(i, st.cfg), i.candidate.tenant;
    if OutcomeOf(db, d, tenant).Written? {
      IntentRowsFree(st, db, now, i);
      WriteKeepsKeys(db, d, tenant, now);
      WriteKeepsEvents(db, d, tenant, now);
      WriteKeepsReferences(db, d, tenant, now);
      WriteKeepsOneActive(db, d, tenant, now);
      WriteKeepsReconciled(db, d, tenant, now);
      WriteKeepsJustified(st, db, now, i);
      WriteKeepsCases(db, d, tenant, now);
    }
  }

  lemma IngestKeepsKeys(db: Db, ref: Ref, tenant: nat, sub: Submission, count: nat, now: int)
    requires IdsBelowNext(db) && KeysUnique(db) && EventsSane(db) && count >= 1
    requires LandsOn(db, tenant, ref.side, sub.key, ref)
    ensures var db' := Ingest(db, ref, tenant, sub, count, now);
            IdsBelowNext(db') && KeysUnique(db') && EventsSane(db')
  {
    IngestKeepsEvents(db, ref, tenant, sub, count, now);
    IngestKeepsUnique(db, ref, tenant, sub, count, now);
    hide EventsSane, KeysUnique, MessageAfter;
  }

  lemma IngestKeepsEvents(db: Db, ref: Ref, tenant: nat, sub: Submission, count: nat, now: int)
    requires EventsSane(db) && count >= 1 && LandsOn(db, tenant, ref.side, sub.key, ref)
    requires ref in db.rows ==> ref.id < NextId(db, ref.side)
    ensures EventsSane(Ingest(db, ref, tenant, sub, count, now))
  {
    var db' := Ingest(db, ref, tenant, sub, count, now);
    forall e | e in db.outbox ensures MessageSane(db', db.outbox[e].msg) {
      assert MessageSane(db, db.outbox[e].msg);
    }
  }

  lemma IngestKeepsUnique(db: Db, ref: Ref, tenant: nat, sub: Submission, count: nat, now: int)
    requires KeysUnique(db) && count >= 1 && LandsOn(db, tenant, ref.side, sub.key, ref)
    ensures KeysUnique(Ingest(db, ref, tenant, sub, count, now))
  {
    hide MessageAfter;
    var db' := Ingest(db, ref, tenant, sub, count, now);
    forall a, b | a in db'.rows && b in db'.rows && SameKey(db', a, b) ensures a == b {
      if a in db.rows && b in db.rows { assert SameKey(db, a, b); }
    }
  }

  /** Results are unchanged, cases changed at most in how they were closed, rows at most in
      their counters; new rows are pending. */
  ghost predicate SameOutcomes(db: Db, db': Db) {
    && db'.results == db.results
    && db'.cases.Keys == db.cases.Keys
    && (forall c :: c in db.cases ==>
          db'.cases[c].tenant == db.cases[c].tenant && db'.cases[c].result == db.cases[c].result)
    && (forall a :: a in db.accounts ==> a in db'.accounts)
    && (forall ref :: ref in db.rows ==>
          && ref in db'.rows
          && db'.rows[ref].facts == db.rows[ref].facts
          && db'.rows[ref].reconciledAt == db.rows[ref].reconciledAt
          && db'.rows[ref].dupCount >= db.rows[ref].dupCount)
    && (forall ref :: ref in db'.rows && ref !in db.rows ==>
          db'.rows[ref].Pending() && db'.rows[ref].facts.tenant in db'.accounts)
  }

  lemma SameOutcomesKeepReconciled(db: Db, db': Db)
    requires SameOutcomes(db, db') && ForeignKeys(db) && ReconciledByResult(db)
    ensures ReconciledByResult(db')
  {
    forall r, x: Ref | ActiveOn(db', r, x) && x in db'.rows
      ensures !db'.rows[x].Pending()
    {
      assert ActiveOn(db, r, x) && x in db.rows;
    }
    forall x | x in db'.rows && !db'.rows[x].Pending() ensures exists r :: ActiveOn(db', r, x) {
      var r :| ActiveOn(db, r, x);
      assert ActiveOn(db', r, x);
    }
  }

  lemma SameOutcomesKeepUniqueness(db: Db, db': Db)
    requires SameOutcomes(db, db') && OneActive(db) && OneMarker(db)
    ensures OneActive(db') && OneMarker(db')
  {
    assert forall r, x: Ref :: ActiveOn(db', r, x) <==> ActiveOn(db, r, x);
    assert forall r, x: Ref :: MarkerOn(db', r, x) <==> MarkerOn(db, r, x);
  }

  lemma SameOutcomesKeepReferences(db: Db, db': Db)
    requires SameOutcomes(db, db') && ForeignKeys(db) && TenantsAgree(db)
    ensures ForeignKeys(db') && TenantsAgree(db')
  {
  }

  lemma SameOutcomesKeepCases(db: Db, db': Db)
    requires SameOutcomes(db, db') && CasesMatch(db)
    ensures CasesMatch(db')
  {
    forall r | r in db'.results && NeedsHuman(db'.results[r].status)
      ensures exists c :: c in db'.cases && db'.cases[c].result == r
    {
      var c :| c in db.cases && db.cases[c].result == r;
      assert db'.cases[c].result == r;
    }
  }

  lemma SameOutcomesKeepInv(st: Settings, db: Db, db': Db)
    requires DbInv(st, db) && SameOutcomes(db, db')
    requires IdsBelowNext(db') && KeysUnique(db') && EventsSane(db')
    ensures DbInv(st, db')
  {
    SameOutcomesKeepReconciled(db, db');
    SameOutcomesKeepUniqueness(db, db');
    SameOutcomesKeepReferences(db, db');
    AllStayJustified(st, db, db');
    SameOutcomesKeepCases(db, db');
  }

  lemma IngestSameOutcomes(db: Db, ref: Ref, tenant: nat, sub: Submission, count: nat, now: int)
    requires tenant in db.accounts && count >= 1
    ensures SameOutcomes(db, Ingest(db, ref, tenant, sub, count, now))
  {
  }

  lemma IngestKeepsInv(st: Settings, db: Db, ref: Ref, tenant: nat, sub: Submission, count: nat, now: int)
    requires DbInv(st, db) && tenant in db.accounts && count >= 1
    requires LandsOn(db, tenant, ref.side, sub.key, ref)
    ensures DbInv(st, Ingest(db, ref, tenant, sub, count, now))
  {
    IngestKeepsKeys(db, ref, tenant, sub, count, now);
    IngestSameOutcomes(db, ref, tenant, sub, count, now);
    SameOutcomesKeepInv(st, db, Ingest(db, ref, tenant, sub, count, now));
  }

  lemma CloseKeepsKeys(db: Db, tenant: nat, cid: nat, notes: string, now: int)
    requires IdsBelowNext(db) && KeysUnique(db) && EventsSane(db)
    ensures var db' := CloseCase(db, tenant, cid, notes, now);
            IdsBelowNext(db') && KeysUnique(db') && EventsSane(db')
  {
    var db' := CloseCase(db, tenant, cid, notes, now);
    assert forall a, b :: a in db'.rows && b in db'.rows && SameKey(db', a, b) ==> SameKey(db, a, b);
    forall e | e in db'.outbox ensures MessageSane(db', db'.outbox[e].msg) {
      assert MessageSane(db, db.outbox[e].msg);
    }
  }

  /** A close touches the closer's own open case and nothing else; it stores the notes given
      and the time. */
  lemma CloseIsOwn(db: Db, tenant: nat, cid: nat, notes: string, now: int)
    ensures var db' := CloseCase(db, tenant, cid, notes, now);
      && db' == db.(cases := db'.cases) && db'.cases.Keys == db.cases.Keys
      && (forall c :: c in db.cases && c != cid ==> db'.cases[c] == db.cases[c])
      && (cid in db.cases ==>
            if db.cases[cid].tenant == tenant && db.cases[cid].closedAt.None?
            then db'.cases[cid] == Case(tenant, db.cases[cid].result, Some(now), Some(notes))
            else db'.cases[cid] == db.cases[cid])
  {
  }

  lemma CloseKeepsInv(st: Settings, db: Db, tenant: nat, cid: nat, notes: string, now: int)
    requires DbInv(st, db)
    ensures DbInv(st, CloseCase(db, tenant, cid, notes, now))
  {
    CloseKeepsKeys(db, tenant, cid, notes, now);
    CloseSameOutcomes(db, tenant, cid, notes, now);
    SameOutcomesKeepInv(st, db, CloseCase(db, tenant, cid, notes, now));
  }

  lemma CloseSameOutcomes(db: Db, tenant: nat, cid: nat, notes: string, now: int)
    ensures SameOutcomes(db, CloseCase(db, tenant, cid, notes, now))
  {
  }

  /** What retention leaves: exactly the other tenants' records. */
  ghost predicate Without(db: Db, db': Db, tenant: nat) {
    && (forall a :: a in db'.accounts <==> a in db.accounts && a != tenant)
    && (forall a :: a in db'.accounts ==> db'.accounts[a] == db.accounts[a])
    && (forall x :: x in db'.rows <==> x in db.rows && db.rows[x].facts.tenant != tenant)
    && (forall x :: x in db'.rows ==> db'.rows[x] == db.rows[x])
    && (forall r :: r in db'.results <==> r in db.results && db.results[r].tenant != tenant)
    && (forall r :: r in db'.results ==> db'.results[r] == db.results[r])
    && (forall c :: c in db'.cases <==> c in db.cases && db.cases[c].tenant != tenant)
    && (forall c :: c in db'.cases ==> db'.cases[c] == db.cases[c])
    && db'.outbox == db.outbox
    && db'.nextGateway == db.nextGateway && db'.nextLedger == db.nextLedger
    && db'.nextResult == db.nextResult && db'.nextCase == db.nextCase && db'.nextEvent == db.nextEvent
  }

  lemma DeleteLeavesOthers(db: Db, tenant: nat)
    ensures Without(db, DeleteTenant(db, tenant), tenant)
  {
  }

  lemma WithoutKeepsKeys(db: Db, db': Db, tenant: nat)
    requires Without(db, db', tenant)
    requires IdsBelowNext(db) && KeysUnique(db) && EventsSane(db)
    ensures IdsBelowNext(db') && KeysUnique(db') && EventsSane(db')
  {
    assert forall a, b :: a in db'.rows && b in db'.rows && SameKey(db', a, b) ==> SameKey(db, a, b);
    forall e | e in db'.outbox ensures MessageSane(db', db'.outbox[e].msg) {
      assert MessageSane(db, db.outbox[e].msg);
    }
  }

  /** Tenants agree, so no surviving result names a deleted row. */
  lemma WithoutKeepsReferences(db: Db, db': Db, tenant: nat)
    requires Without(db, db', tenant)
    requires ForeignKeys(db) && TenantsAgree(db) && CasesMatch(db)
    ensures ForeignKeys(db') && TenantsAgree(db')
  {
    forall r, ref: Ref | r in db'.results && db'.results[r].Names(ref) ensures ref in db'.rows {
      assert ref in db.rows;
    }
    forall c | c in db'.cases ensures db'.cases[c].result in db'.results {
      assert db.results[db.cases[c].result].tenant == db.cases[c].tenant;
    }
  }

  lemma WithoutKeepsOutcomes(db: Db, db': Db, tenant: nat)
    requires Without(db, db', tenant)
    requires TenantsAgree(db) && OneActive(db) && OneMarker(db) && ReconciledByResult(db)
    ensures OneActive(db') && OneMarker(db') && ReconciledByResult(db')
  {
    assert forall r, x: Ref :: ActiveOn(db', r, x) ==> ActiveOn(db, r, x);
    assert forall r, x: Ref :: MarkerOn(db', r, x) ==> MarkerOn(db, r, x);
    forall x | x in db'.rows && !db'.rows[x].Pending() ensures exists r :: ActiveOn(db', r, x) {
      var r :| ActiveOn(db, r, x);
      assert db.results[r].Names(x);
      assert ActiveOn(db', r, x);
    }
  }

  lemma WithoutKeepsCases(db: Db, db': Db, tenant: nat)
    requires Without(db, db', tenant)
    requires CasesMatch(db)
    ensures CasesMatch(db')
  {
    forall c | c in db'.cases ensures db'.cases[c].result in db'.results {
      assert db.results[db.cases[c].result].tenant == db.cases[c].tenant;
    }
    forall r | r in db'.results && NeedsHuman(db'.results[r].status)
      ensures exists c :: c in db'.cases && db'.cases[c].result == r
    {
      var c :| c in db.cases && db.cases[c].result == r;
      assert db'.cases[c].result == r;
    }
  }

  lemma WithoutKeepsJustified(st: Settings, db: Db, db': Db, tenant: nat)
    requires Without(db, db', tenant)
    requires ForeignKeys(db) && TenantsAgree(db) && AllJustified(st, db)
    ensures AllJustified(st, db')
  {
    forall r | r in db'.results ensures Justified(st, db', db'.results[r]) {
      var res := db.results[r];
      if res.gateway.Some? { assert res.Names(Ref(Gateway, res.gateway.value)); }
      if res.ledger.Some? { assert res.Names(Ref(Ledger, res.ledger.value)); }
      StaysJustified(st, db, db', res);
    }
  }

  lemma DeleteKeepsInv(st: Settings, db: Db, tenant: nat)
    requires DbInv(st, db)
    ensures DbInv(st, DeleteTenant(db, tenant))
  {
    var db' := DeleteTenant(db, tenant);
    DeleteLeavesOthers(db, tenant);
    WithoutKeepsKeys(db, db', tenant);
    WithoutKeepsReferences(db, db', tenant);
    WithoutKeepsOutcomes(db, db', tenant);
    WithoutKeepsCases(db, db', tenant);
    WithoutKeepsJustified(st, db, db', tenant);
  }

  /** What a statement may do without touching rows, results or cases: move the sequences
      forward, publish outbox events, add or touch accounts. */
  ghost predicate SameRecords(db: Db, db': Db) {
    && db'.rows == db.rows && db'.results == db.results && db'.cases == db.cases
    && (forall a :: a in db.accounts ==> a in db'.accounts)
    && db'.nextGateway >= db.nextGateway && db'.nextLedger >= db.nextLedger
    && db'.nextResult >= db.nextResult && db'.nextCase >= db.nextCase && db'.nextEvent >= db.nextEvent
    && db'.outbox.Keys == db.outbox.Keys
    && (forall e :: e in db.outbox ==> db'.outbox[e].msg == db.outbox[e].msg)
  }

  lemma SameRecordsKeepKeys(db: Db, db': Db)
    requires SameRecords(db, db') && IdsBelowNext(db) && KeysUnique(db) && EventsSane(db)
    ensures IdsBelowNext(db') && KeysUnique(db') && EventsSane(db')
  {
    assert forall a, b :: a in db'.rows && b in db'.rows && SameKey(db', a, b) ==> SameKey(db, a, b);
    forall e | e in db'.outbox ensures MessageSane(db', db'.outbox[e].msg) {
      assert MessageSane(db, db.outbox[e].msg);
    }
  }

  lemma SameRecordsKeepInv(st: Settings, db: Db, db': Db)
    requires DbInv(st, db) && SameRecords(db, db')
    ensures DbInv(st, db')
  {
    SameRecordsKeepKeys(db, db');
    assert SameOutcomes(db, db');
    SameOutcomesKeepInv(st, db, db');
  }
}
