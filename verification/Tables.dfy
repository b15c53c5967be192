/** The database: the two raw tables, results, exceptions, accounts and the outbox, with the
    unique indexes as guards on insert and the foreign keys as abort conditions. */
module Tables {
  import opened Basics
  import opened Matching

  /** Primary key of a raw row: which table, which id. */
  datatype Ref = Ref(side: Side, id: nat)

  datatype Row = Row(facts: Facts, key: string, dupCount: nat, reconciledAt: Option<int>)
  {
    predicate Pending() { reconciledAt.None? }
  }

  datatype Result = Result(
    tenant: nat,
    gateway: Option<nat>,
    ledger: Option<nat>,
    status: Status,
    layer: Layer,
    resolvedAt: int)
  {
    predicate Names(ref: Ref) {
      if ref.side.Gateway? then gateway == Some(ref.id) else ledger == Some(ref.id)
    }
  }

  /** A row of the exceptions table. */
  datatype Case = Case(tenant: nat, result: nat, closedAt: Option<int>, notes: Option<string>)

  datatype Kind = Real | Demo

  datatype Account = Account(kind: Kind, lastSeen: int)

  datatype Message = Message(source: Side, rowId: nat, txn: string, isDuplicate: bool, submissions: nat)

  datatype Event = Event(msg: Message, publishedAt: Option<int>, attempts: nat)

  datatype Db = Db(
    accounts: map<nat, Account>,
    rows: map<Ref, Row>,
    results: map<nat, Result>,
    cases: map<nat, Case>,
    outbox: map<nat, Event>,
    nextGateway: nat,
    nextLedger: nat,
    nextResult: nat,
    nextCase: nat,
    nextEvent: nat)

  /** What one client submits under one idempotency key. */
  datatype Submission = Submission(txn: string, amount: real, currency: string, occurred: int, key: string)

  /** Matching knobs, and how long a row waits before the sweeper may give up on it. */
  datatype Settings = Settings(cfg: Config, unmatchedAfter: int)

  function RefOf(f: Facts): Ref { Ref(f.side, f.rowId) }

  function NextId(db: Db, side: Side): nat { if side.Gateway? then db.nextGateway else db.nextLedger }

  function MessageRef(m: Message): Ref { Ref(m.source, m.rowId) }

  predicate ActiveOn(db: Db, rid: nat, ref: Ref) {
    rid in db.results && db.results[rid].status != Duplicate && db.results[rid].Names(ref)
  }

  predicate MarkerOn(db: Db, rid: nat, ref: Ref) {
    rid in db.results && db.results[rid].status == Duplicate && db.results[rid].Names(ref)
  }

  predicate IsPending(db: Db, ref: Ref) { ref in db.rows && db.rows[ref].Pending() }

  predicate PendingFacts(db: Db, f: Facts) {
    RefOf(f) in db.rows && db.rows[RefOf(f)].facts == f && db.rows[RefOf(f)].Pending()
  }

  /** Every pending row, of every tenant and side. */
  function PendingPool(db: Db): set<Facts> {
    set ref | ref in db.rows && db.rows[ref].Pending() :: db.rows[ref].facts
  }

  /** What the counterparty query returns. */
  function Candidates(db: Db, c: Facts, cfg: Config): set<Facts> { Fetched(c, PendingPool(db), cfg) }

  /* ------------------------------- Writes ------------------------------- */

  /** Which row a submission lands on: the one that holds (tenant, key), or a new one. */
  predicate LandsOn(db: Db, tenant: nat, side: Side, key: string, ref: Ref) {
    && ref.side == side
    && if ref in db.rows
       then db.rows[ref].facts.tenant == tenant && db.rows[ref].key == key
       else ref.id == NextId(db, side) &&
            forall r :: r in db.rows && r.side == side ==> !(db.rows[r].facts.tenant == tenant && db.rows[r].key == key)
  }

  /** The row under the unique index on (tenant, idempotency key). */
  predicate HoldsKey(db: Db, tenant: nat, side: Side, key: string, ref: Ref) {
    ref in db.rows && ref.side == side && db.rows[ref].facts.tenant == tenant && db.rows[ref].key == key
  }

  function NewFacts(ref: Ref, tenant: nat, sub: Submission, now: int): Facts {
    Facts(ref.side, tenant, ref.id, sub.txn, sub.amount, sub.currency, sub.occurred, now)
  }

  /** The row after `count` submissions of its key in one transaction. */
  function RowAfter(db: Db, ref: Ref, tenant: nat, sub: Submission, count: nat, now: int): Row
    requires count >= 1
  {
    if ref in db.rows then db.rows[ref].(dupCount := db.rows[ref].dupCount + count)
    else Row(NewFacts(ref, tenant, sub, now), sub.key, count - 1, None)
  }

  /** The outbox message of that transaction: flagged duplicate when the counter moved. */
  function MessageAfter(db: Db, ref: Ref, tenant: nat, sub: Submission, count: nat, now: int): Message
    requires count >= 1
  {
    var row := RowAfter(db, ref, tenant, sub, count, now);
    Message(ref.side, ref.id, sub.txn, ref in db.rows || count > 1, row.dupCount + 1)
  }

  function Bumped(db: Db, side: Side): Db {
    if side.Gateway? then db.(nextGateway := db.nextGateway + 1) else db.(nextLedger := db.nextLedger + 1)
  }

  /** A first receipt alone: a new pending row under the next id. */
  function Inserted(db: Db, side: Side, tenant: nat, sub: Submission, now: int): Db {
    var ref := Ref(side, NextId(db, side));
    Bumped(db, side).(rows := db.rows[ref := Row(NewFacts(ref, tenant, sub, now), sub.key, 0, None)])
  }

  /** Every row of (tenant, key) with its counter moved by `delta`. */
  function Recounted(db: Db, side: Side, tenant: nat, key: string, delta: nat): Db {
    db.(rows := map r | r in db.rows ::
          if HoldsKey(db, tenant, side, key, r)
          then db.rows[r].(dupCount := db.rows[r].dupCount + delta)
          else db.rows[r])
  }

  function Enqueued(db: Db, msg: Message): Db {
    db.(outbox := db.outbox[db.nextEvent := Event(msg, None, 0)], nextEvent := db.nextEvent + 1)
  }

  /** Store or count one key and enqueue its message, in one transaction. */
  function Ingest(db: Db, ref: Ref, tenant: nat, sub: Submission, count: nat, now: int): Db
    requires count >= 1
  {
    var stored := if ref in db.rows then db else Bumped(db, ref.side);
    stored.(rows := db.rows[ref := RowAfter(db, ref, tenant, sub, count, now)],
            outbox := db.outbox[db.nextEvent := Event(MessageAfter(db, ref, tenant, sub, count, now), None, 0)],
            nextEvent := db.nextEvent + 1)
  }

  /** Whether one of the four partial unique indexes refuses the row.  Each index is keyed by
      (tenant, raw row) and covers either the duplicate markers or everything else. */
  predicate Conflicts(db: Db, d: Decision, tenant: nat) {
    exists rid :: rid in db.results && Clashes(db.results[rid], d, tenant)
  }

  predicate Clashes(r: Result, d: Decision, tenant: nat) {
    && r.tenant == tenant
    && ((r.status == Duplicate) <==> (d.status == Duplicate))
    && ((d.gateway.Some? && r.gateway == d.gateway) || (d.ledger.Some? && r.ledger == d.ledger))
  }

  predicate ReferencesHold(db: Db, d: Decision, tenant: nat) {
    && tenant in db.accounts
    && (d.gateway.Some? ==> Ref(Gateway, d.gateway.value) in db.rows)
    && (d.ledger.Some? ==> Ref(Ledger, d.ledger.value) in db.rows)
  }

  /** `reconciled_at` is set only where it is still null. */
  function MarkRow(rows: map<Ref, Row>, ref: Ref, now: int): map<Ref, Row> {
    if ref in rows && rows[ref].Pending() then rows[ref := rows[ref].(reconciledAt := Some(now))] else rows
  }

  function MarkReconciled(rows: map<Ref, Row>, d: Decision, now: int): map<Ref, Row> {
    var g := if d.gateway.Some? then MarkRow(rows, Ref(Gateway, d.gateway.value), now) else rows;
    if d.ledger.Some? then MarkRow(g, Ref(Ledger, d.ledger.value), now) else g
  }

  function InsertResult(db: Db, d: Decision, tenant: nat, now: int): Db {
    db.(results := db.results[db.nextResult := Result(tenant, d.gateway, d.ledger, d.status, d.layer, now)],
        nextResult := db.nextResult + 1,
        rows := if d.status == Duplicate then db.rows else MarkReconciled(db.rows, d, now),
        cases := if NeedsHuman(d.status)
                 then db.cases[db.nextCase := Case(tenant, db.nextResult, None, None)]
                 else db.cases,
        nextCase := if NeedsHuman(d.status) then db.nextCase + 1 else db.nextCase)
  }

  /** How a decision's transaction ends: a row written, a silent no-op, or a rollback. */
  datatype Outcome = Written | Skipped | Aborted

  function OutcomeOf(db: Db, d: Decision, tenant: nat): Outcome {
    if Conflicts(db, d, tenant) then Skipped
    else if ReferencesHold(db, d, tenant) then Written
    else Aborted
  }

  function Apply(db: Db, d: Decision, tenant: nat, now: int): Db {
    if OutcomeOf(db, d, tenant).Written? then InsertResult(db, d, tenant, now) else db
  }

  /** Compare-and-set: only an open case of this tenant is closed. */
  predicate CanClose(db: Db, tenant: nat, cid: nat) {
    cid in db.cases && db.cases[cid].tenant == tenant && db.cases[cid].closedAt.None?
  }

  function CloseCase(db: Db, tenant: nat, cid: nat, notes: string, now: int): Db {
    if CanClose(db, tenant, cid)
    then db.(cases := db.cases[cid := db.cases[cid].(closedAt := Some(now), notes := Some(notes))])
    else db
  }

  function WithoutCases(db: Db, tenant: nat): Db {
    db.(cases := map c | c in db.cases && db.cases[c].tenant != tenant :: db.cases[c])
  }

  function WithoutResults(db: Db, tenant: nat): Db {
    db.(results := map r | r in db.results && db.results[r].tenant != tenant :: db.results[r])
  }

  function WithoutRows(db: Db, tenant: nat, side: Side): Db {
    db.(rows := map r | r in db.rows && !(r.side == side && db.rows[r].facts.tenant == tenant) :: db.rows[r])
  }

  function WithoutAccount(db: Db, tenant: nat): Db {
    db.(accounts := map a | a in db.accounts && a != tenant :: db.accounts[a])
  }

  /** The five deletes of retention, in dependency order. */
  function DeleteTenant(db: Db, tenant: nat): Db {
    WithoutAccount(
      WithoutRows(WithoutRows(WithoutResults(WithoutCases(db, tenant), tenant), tenant, Gateway), tenant, Ledger),
      tenant)
  }

  /* ----------------------------- Invariants ----------------------------- */

  /** Ids come from identity columns: each stored id is below the table's next one. */
  ghost predicate IdsBelowNext(db: Db) {
    && (forall ref :: ref in db.rows ==> RefOf(db.rows[ref].facts) == ref && ref.id < NextId(db, ref.side))
    && (forall r :: r in db.results ==> r < db.nextResult)
    && (forall c :: c in db.cases ==> c < db.nextCase)
    && (forall e :: e in db.outbox ==> e < db.nextEvent)
  }

  /** The unique index on (tenant, idempotency key) of each raw table. */
  ghost predicate KeysUnique(db: Db) {
    forall a, b :: a in db.rows && b in db.rows && SameKey(db, a, b) ==> a == b
  }

  predicate SameKey(db: Db, a: Ref, b: Ref)
    requires a in db.rows && b in db.rows
  {
    a.side == b.side && db.rows[a].facts.tenant == db.rows[b].facts.tenant && db.rows[a].key == db.rows[b].key
  }

  /** Every foreign key is satisfied. */
  ghost predicate ForeignKeys(db: Db) {
    && (forall ref :: ref in db.rows ==> db.rows[ref].facts.tenant in db.accounts)
    && (forall r :: r in db.results ==> db.results[r].tenant in db.accounts)
    && (forall r, ref: Ref :: r in db.results && db.results[r].Names(ref) ==> ref in db.rows)
    && (forall c :: c in db.cases ==> db.cases[c].tenant in db.accounts && db.cases[c].result in db.results)
  }

  /** A result belongs to the tenant of every row it names. */
  ghost predicate TenantsAgree(db: Db) {
    forall r, ref: Ref :: r in db.results && db.results[r].Names(ref) && ref in db.rows
      ==> db.rows[ref].facts.tenant == db.results[r].tenant
  }

  ghost predicate OneActive(db: Db) {
    forall a, b, ref: Ref :: ActiveOn(db, a, ref) && ActiveOn(db, b, ref) ==> a == b
  }

  ghost predicate OneMarker(db: Db) {
    forall a, b, ref: Ref :: MarkerOn(db, a, ref) && MarkerOn(db, b, ref) ==> a == b
  }

  /** `reconciled_at` is set exactly when an active result names the row. */
  ghost predicate ReconciledByResult(db: Db) {
    && (forall r, ref: Ref :: ActiveOn(db, r, ref) && ref in db.rows
          ==> !db.rows[ref].Pending())
    && (forall ref :: ref in db.rows && !db.rows[ref].Pending() ==> exists r :: ActiveOn(db, r, ref))
  }

  /** A stored result says what the matcher says about the rows it names. */
  predicate Justified(st: Settings, db: Db, r: Result) {
    match r.status
    case Matched => PairJustified(st, db, r)
    case AmountDrift => PairJustified(st, db, r)
    case UnmatchedGatewayOnly =>
      && r.layer == BySweep && r.gateway.Some? && r.ledger.None?
      && Waited(st, db, Ref(Gateway, r.gateway.value), r.resolvedAt)
    case UnmatchedLedgerOnly =>
      && r.layer == BySweep && r.gateway.None? && r.ledger.Some?
      && Waited(st, db, Ref(Ledger, r.ledger.value), r.resolvedAt)
    case Duplicate =>
      && r.layer == ByDuplicate && (r.gateway.Some? <==> r.ledger.None?)
      && (r.gateway.Some? ==> Resubmitted(db, Ref(Gateway, r.gateway.value)))
      && (r.ledger.Some? ==> Resubmitted(db, Ref(Ledger, r.ledger.value)))
    case TimeDrift => false
  }

  predicate PairJustified(st: Settings, db: Db, r: Result) {
    && r.gateway.Some? && r.ledger.Some?
    && var g, l := Ref(Gateway, r.gateway.value), Ref(Ledger, r.ledger.value);
       && g in db.rows && l in db.rows
       && ClassifyPair(db.rows[g].facts, db.rows[l].facts, st.cfg) == Some(Verdict(r.status, r.layer))
  }

  predicate Waited(st: Settings, db: Db, ref: Ref, until: int) {
    ref in db.rows && db.rows[ref].facts.received + st.unmatchedAfter < until
  }

  predicate Resubmitted(db: Db, ref: Ref) { ref in db.rows && db.rows[ref].dupCount >= 1 }

  ghost predicate AllJustified(st: Settings, db: Db) {
    forall r :: r in db.results ==> Justified(st, db, db.results[r])
  }

  /** Exceptions correspond one to one with the results that need a human. */
  ghost predicate CasesMatch(db: Db) {
    && (forall c :: c in db.cases ==>
          && db.cases[c].result in db.results
          && NeedsHuman(db.results[db.cases[c].result].status)
          && db.results[db.cases[c].result].tenant == db.cases[c].tenant)
    && (forall a, b :: a in db.cases && b in db.cases && db.cases[a].result == db.cases[b].result ==> a == b)
    && (forall r :: r in db.results && NeedsHuman(db.results[r].status)
          ==> exists c :: c in db.cases && db.cases[c].result == r)
  }

  /** An outbox message points at an issued row id, and a duplicate message at a row whose
      counter moved. */
  ghost predicate EventsSane(db: Db) {
    forall e :: e in db.outbox ==> MessageSane(db, db.outbox[e].msg)
  }

  predicate MessageSane(db: Db, m: Message) {
    && m.rowId < NextId(db, m.source)
    && (m.isDuplicate && MessageRef(m) in db.rows ==> db.rows[MessageRef(m)].dupCount >= 1)
  }

  ghost predicate DbInv(st: Settings, db: Db) {
    && IdsBelowNext(db)
    && KeysUnique(db)
    && ForeignKeys(db)
    && TenantsAgree(db)
    && OneActive(db)
    && OneMarker(db)
    && ReconciledByResult(db)
    && AllJustified(st, db)
    && CasesMatch(db)
    && EventsSane(db)
  }

  /** Facts once read from a row stay true of it: ids are never reused and no statement
      rewrites the columns matching depends on. */
  predicate Known(db: Db, f: Facts) {
    && f.rowId < NextId(db, f.side)
    && (RefOf(f) in db.rows ==> db.rows[RefOf(f)].facts == f)
  }

  /** What a worker or sweeper has decided and not yet written. */
  datatype Intent =
    | Pair(candidate: Facts, partner: Facts)
    | Mark(candidate: Facts)
    | GiveUp(candidate: Facts)

  predicate IntentSound(st: Settings, db: Db, now: int, i: Intent) {
    && Known(db, i.candidate)
    && match i
       case Pair(c, p) => Known(db, p) && Viable(c, p, st.cfg)
       case Mark(c) => RefOf(c) in db.rows ==> db.rows[RefOf(c)].dupCount >= 1
       case GiveUp(c) => c.received + st.unmatchedAfter < now
  }

  function DecisionOf(i: Intent, cfg: Config): Decision
    requires i.Pair? ==> Viable(i.candidate, i.partner, cfg)
  {
    match i
    case Pair(c, p) => PairDecision(c, p, cfg)
    case Mark(c) => DuplicateDecision(c)
    case GiveUp(c) => UnmatchedDecision(c)
  }
}
