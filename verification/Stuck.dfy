/** Pairs that do get stuck until a sweeper comes by: one run for a row without a first
    receipt, and one for each way a pair is left waiting, all ending with a matchable pending
    pair and no message left for it. */
module Stuck {
  import opened Basics
  import opened Matching
  import opened Tables
  import opened Protocol
  import opened Progress

  const ST := Settings(DEFAULT_CONFIG, 5)

  function Final(run: Run): Sys
    requires |run.states| == |run.steps| + 1
  {
    run.states[|run.steps|]
  }

  /** `longer` is `run` continued. */
  predicate Extends(run: Run, longer: Run) { run.steps <= longer.steps && run.states <= longer.states }

  lemma Extend(st: Settings, run: Run, step: Step, s': Sys) returns (longer: Run)
    requires IsRun(st, run) && Next(st, Final(run), step, s')
    ensures IsRun(st, longer) && Final(longer) == s'
    ensures Extends(run, longer) && longer.steps == run.steps + [step]
  {
    longer := Run(run.states + [s'], run.steps + [step]);
    hide Next;
    forall i | 0 <= i < |longer.steps| ensures Next(st, longer.states[i], longer.steps[i], longer.states[i + 1]) {
      if i < |run.steps| {
        assert longer.states[i] == run.states[i] && longer.states[i + 1] == run.states[i + 1];
        assert longer.steps[i] == run.steps[i];
      }
    }
  }

  lemma AnswersStay(run: Run, longer: Run, e: nat, ref: Ref)
    requires IsRun(ST, run) && IsRun(ST, longer) && Extends(run, longer)
    ensures Passed(run, |run.steps|, e) ==> Passed(longer, |longer.steps|, e)
    ensures Refused(ST, run, |run.steps|, e, ref) ==> Refused(ST, longer, |longer.steps|, e, ref)
  {
    hide Next, Pass, Refusal;
    if k :| 0 <= k < |run.steps| && Pass(run.states[k], run.steps[k], e) {
      assert longer.states[k] == run.states[k] && longer.steps[k] == run.steps[k];
    }
    if k :| 0 <= k < |run.steps| && Refusal(ST, run.states[k], run.steps[k], e, ref) {
      assert longer.states[k] == run.states[k] && longer.steps[k] == run.steps[k];
    }
  }

  /* --------------------------- Stretches of a run --------------------------- */

  function Published(db: Db, e: nat): Db
    requires e in db.outbox
  {
    db.(outbox := db.outbox[e := db.outbox[e].(publishedAt := Some(0), attempts := db.outbox[e].attempts + 1)])
  }

  /** The system with event `e` published once, committed, and delivered to agent `a`. */
  function Delivered(s: Sys, e: nat, a: nat): Sys
    requires e in s.db.outbox
  {
    s.(db := Published(s.db, e), log := s.log[s.nextEntry := Entry(e, s.db.outbox[e].msg)],
       nextEntry := s.nextEntry + 1, inFlight := s.inFlight[s.nextEntry := a])
  }

  /** Claim, publish, commit, deliver, with no other relay about. */
  lemma Announce(run: Run, e: nat, a: nat) returns (longer: Run)
    requires IsRun(ST, run) && Final(run).relays == map[] && Final(run).undelivered == {} && Final(run).now == 0
    requires e in Final(run).db.outbox && Final(run).db.outbox[e].publishedAt.None?
    ensures IsRun(ST, longer) && Final(longer) == Delivered(Final(run), e, a) && Extends(run, longer)
  {
    hide Next;
    var s := Final(run);
    var s1 := s.(relays := map[0 := Claimed([e], 0)]);
    ClaimOne(s, e, s1);
    longer := Extend(ST, run, RelayClaim(0, [e]), s1);
    var s2 := s1.(log := s.log[s.nextEntry := Entry(e, s.db.outbox[e].msg)], nextEntry := s.nextEntry + 1,
                  undelivered := {s.nextEntry}, relays := map[0 := Claimed([e], 1)]);
    PublishOne(s1, e, s2);
    longer := Extend(ST, longer, RelayPublish(0), s2);
    var s3 := s2.(db := Published(s.db, e), relays := map[]);
    CommitOne(s2, e, s3);
    longer := Extend(ST, longer, RelayCommit(0), s3);
    DeliverOne(s3, s.nextEntry, a, Delivered(s, e, a));
    longer := Extend(ST, longer, Deliver(a, s.nextEntry), Delivered(s, e, a));
  }

  lemma ClaimOne(s: Sys, e: nat, s': Sys)
    requires s.relays == map[] && e in s.db.outbox && s.db.outbox[e].publishedAt.None?
    requires s' == s.(relays := map[0 := Claimed([e], 0)])
    ensures Next(ST, s, RelayClaim(0, [e]), s')
  {
  }

  lemma PublishOne(s: Sys, e: nat, s': Sys)
    requires s.relays == map[0 := Claimed([e], 0)] && e in s.db.outbox && s.undelivered == {}
    requires s' == s.(log := s.log[s.nextEntry := Entry(e, s.db.outbox[e].msg)], nextEntry := s.nextEntry + 1,
                      undelivered := {s.nextEntry}, relays := map[0 := Claimed([e], 1)])
    ensures Next(ST, s, RelayPublish(0), s')
  {
  }

  lemma CommitOne(s: Sys, e: nat, s': Sys)
    requires s.relays == map[0 := Claimed([e], 1)] && e in s.db.outbox && s.now == 0
    requires s' == s.(db := Published(s.db, e), relays := map[])
    ensures Next(ST, s, RelayCommit(0), s')
  {
    assert MarkPublished(s.db, [e], 0).outbox == Published(s.db, e).outbox;
    assert s.relays - {0} == map[];
  }

  lemma DeliverOne(s: Sys, n: nat, a: nat, s': Sys)
    requires s.undelivered == {n} && s' == s.(undelivered := {}, inFlight := s.inFlight[n := a])
    ensures Next(ST, s, Deliver(a, n), s')
  {
  }

  /** Read, commit and ack one after the other. */
  lemma ReadEntry(run: Run, a: nat, n: nat, partner: Option<Facts>) returns (longer: Run)
    requires IsRun(ST, run) && Enabled(ST, Final(run), WorkerRead(a, n, partner))
    ensures IsRun(ST, longer) && Final(longer) == Read(Final(run), a, n, partner) && Extends(run, longer)
  {
    longer := Extend(ST, run, WorkerRead(a, n, partner), Read(Final(run), a, n, partner));
  }

  lemma ChoosePartner(run: Run, a: nat, n: nat, c: Facts, p: Facts) returns (longer: Run)
    requires IsRun(ST, run) && a !in Final(run).agents
    requires n in Final(run).log && n in Final(run).inFlight && Final(run).inFlight[n] == a
    requires MessageRef(Final(run).log[n].msg) in Final(run).db.rows && !Final(run).log[n].msg.isDuplicate
    requires Final(run).db.rows[MessageRef(Final(run).log[n].msg)].facts == c
    requires BestPartner(c, Candidates(Final(run).db, c, ST.cfg), ST.cfg, Some(p))
    ensures IsRun(ST, longer) && Extends(run, longer)
    ensures Final(longer) == Final(run).(agents :=
      Final(run).agents[a := Working(n, Final(run).log[n], Some(Pair(c, p)))])
  {
    hide Next, Candidates, ClassifyPair;
    longer := ReadEntry(run, a, n, Some(p));
  }

  /** The system after agent `a` commits a decision that leaves `db`, and acks. */
  function Acked(s: Sys, a: nat, db: Db): Sys
    requires a in s.agents && s.agents[a].Working?
  {
    var t := s.agents[a];
    s.(db := db, processed := s.processed + {t.item.event}, inFlight := s.inFlight - {t.entry},
      agents := s.agents - {a})
  }

  predicate CommitsTo(s: Sys, a: nat, db: Db) {
    && a in s.agents && s.agents[a].Working? && IntentUsable(ST, s.agents[a].intent)
    && match s.agents[a].intent
       case None => db == s.db
       case Some(i) =>
         && !OutcomeOf(s.db, DecisionOf(i, ST.cfg), i.candidate.tenant).Aborted?
         && db == Apply(s.db, DecisionOf(i, ST.cfg), i.candidate.tenant, s.now)
  }

  lemma CommitAndAck(run: Run, a: nat, db: Db) returns (longer: Run)
    requires IsRun(ST, run) && CommitsTo(Final(run), a, db)
    ensures IsRun(ST, longer) && Final(longer) == Acked(Final(run), a, db) && Extends(run, longer)
    ensures |longer.steps| > |run.steps| && longer.steps[|run.steps|] == WorkerCommit(a)
  {
    hide Next;
    var s := Final(run);
    var t := s.agents[a];
    var s1 := s.(db := db, processed := s.processed + {t.item.event}, agents := s.agents[a := Acking(t.entry)]);
    CommitStep(s, a, db, s1);
    longer := Extend(ST, run, WorkerCommit(a), s1);
    AckStep(s, s1, a, t.entry, Acked(s, a, db));
    longer := Extend(ST, longer, Ack(a), Acked(s, a, db));
  }

  /** A pairing that no index refuses is written; a refused one is dropped without a word. */
  lemma CommitPair(run: Run, a: nat, c: Facts, p: Facts, db: Db) returns (longer: Run)
    requires IsRun(ST, run) && a in Final(run).agents && Final(run).agents[a].Working?
    requires Viable(c, p, ST.cfg) && Final(run).agents[a].intent == Some(Pair(c, p))
    requires !OutcomeOf(Final(run).db, PairDecision(c, p, ST.cfg), c.tenant).Aborted?
    requires db == Apply(Final(run).db, PairDecision(c, p, ST.cfg), c.tenant, Final(run).now)
    ensures IsRun(ST, longer) && Final(longer) == Acked(Final(run), a, db) && Extends(run, longer)
    ensures IsPending(Final(run).db, RefOf(c))
            && OutcomeOf(Final(run).db, PairDecision(c, p, ST.cfg), c.tenant).Skipped?
            ==> Refused(ST, longer, |longer.steps|, Final(run).agents[a].item.event, RefOf(c))
  {
    hide Next, OutcomeOf, Apply, ClassifyPair;
    longer := CommitAndAck(run, a, db);
    var k := |run.steps|;
    assert longer.states[k] == run.states[k] == Final(run);
    if IsPending(Final(run).db, RefOf(c)) && OutcomeOf(Final(run).db, PairDecision(c, p, ST.cfg), c.tenant).Skipped? {
      assert Refusal(ST, longer.states[k], longer.steps[k], Final(run).agents[a].item.event, RefOf(c));
    }
  }

  /** A worker that is told of nobody finishes with its message. */
  lemma PassOver(run: Run, a: nat, n: nat) returns (longer: Run)
    requires IsRun(ST, run) && Enabled(ST, Final(run), WorkerRead(a, n, None))
    requires MessageRef(Final(run).log[n].msg) in Final(run).db.rows && !Final(run).log[n].msg.isDuplicate
    ensures IsRun(ST, longer) && Extends(run, longer)
    ensures Final(longer) == Acked(Read(Final(run), a, n, None), a, Final(run).db)
    ensures Passed(longer, |longer.steps|, Final(run).log[n].event)
  {
    hide Next;
    var read := ReadEntry(run, a, n, None);
    longer := CommitAndAck(read, a, Final(run).db);
    var k := |read.steps|;
    assert longer.states[k] == read.states[k] == Final(read);
    assert Pass(longer.states[k], longer.steps[k], Final(run).log[n].event);
  }

  lemma CommitStep(s: Sys, a: nat, db: Db, s': Sys)
    requires CommitsTo(s, a, db)
    requires s' == s.(db := db, processed := s.processed + {s.agents[a].item.event},
      agents := s.agents[a := Acking(s.agents[a].entry)])
    ensures Next(ST, s, WorkerCommit(a), s')
  {
    hide OutcomeOf, Apply, ClassifyPair;
  }

  lemma AckStep(s0: Sys, s: Sys, a: nat, n: nat, s': Sys)
    requires s.agents == s0.agents[a := Acking(n)]
    requires s' == s.(inFlight := s.inFlight - {n}, agents := s0.agents - {a})
    ensures Next(ST, s, Ack(a), s')
  {
    assert s.agents - {a} == s0.agents - {a};
  }

  /* --------------------------- The rows of the runs --------------------------- */

  function F(side: Side, id: nat): Facts { Facts(side, 1, id, "t", 1.0, "INR", 0, 0) }

  function R(side: Side, id: nat, key: string, dups: nat): Row { Row(F(side, id), key, dups, None) }

  const ACCOUNTS := map[1 as nat := Account(Real, 0)]

  const START := Sys(EMPTY_DB, 0, map[], 0, {}, map[], map[], map[], {}, {})

  lemma OneAccount() returns (run: Run)
    ensures IsRun(ST, run) && Final(run) == START.(db := EMPTY_DB.(accounts := ACCOUNTS))
  {
    run := Run([START], []);
    run := Extend(ST, run, CreateAccount(1, Real), START.(db := EMPTY_DB.(accounts := ACCOUNTS)));
  }

  lemma Submit(run: Run, ref: Ref, key: string, count: nat) returns (longer: Run)
    requires IsRun(ST, run) && 1 in Final(run).db.accounts && count >= 1 && (ref.side.Gateway? ==> count == 1)
    requires LandsOn(Final(run).db, 1, ref.side, key, ref) && Final(run).now == 0
    ensures IsRun(ST, longer) && Extends(run, longer)
    ensures Final(longer) == Final(run).(db :=
      Ingest(Final(run).db, ref, 1, Submission("t", 1.0, "INR", 0, key), count, 0))
  {
    var sub := Submission("t", 1.0, "INR", 0, key);
    hide LandsOn, Ingest;
    longer := Extend(ST, run, IngestKey(ref, 1, sub, count),
      Final(run).(db := Ingest(Final(run).db, ref, 1, sub, count, 0)));
  }

  function M(side: Side, id: nat): Message { Message(side, id, "t", false, 1) }

  /** A published, committed event. */
  function Sent(m: Message): Event { Event(m, Some(0), 1) }

  function New(m: Message): Event { Event(m, None, 0) }

  /* ----------------- A key repeated in its first transaction ----------------- */

  /** The one message of a ledger row stored with its key submitted twice. */
  const TWICE := Message(Ledger, 0, "t", true, 2)

  const G_ROW := map[Ref(Gateway, 0) := R(Gateway, 0, "k", 0)]
  const BOTH_ROWS := map[Ref(Gateway, 0) := R(Gateway, 0, "k", 0), Ref(Ledger, 0) := R(Ledger, 0, "k", 1)]

  const D1 := Db(ACCOUNTS, G_ROW, map[], map[], map[0 := Sent(M(Gateway, 0))], 1, 0, 0, 0, 1)
  const D2 := Db(ACCOUNTS, BOTH_ROWS, map[], map[], map[0 := Sent(M(Gateway, 0)), 1 := Sent(TWICE)], 1, 1, 0, 0, 2)
  const D3 := D2.(results := map[0 := Result(1, None, Some(0), Duplicate, ByDuplicate, 0)], nextResult := 1)

  const LOG1: map<nat, Entry> := map[0 := Entry(0, M(Gateway, 0))]
  const LOG2: map<nat, Entry> := map[0 := Entry(0, M(Gateway, 0)), 1 := Entry(1, TWICE)]

  /** The gateway row's message has been processed: nobody was there. */
  const DEFERRED := Sys(D1, 0, LOG1, 1, {}, map[], map[], map[], {0}, {Ref(Gateway, 0)})

  const MARKED := Sys(D3, 0, LOG2, 2, {}, map[], map[], map[], {0, 1}, {Ref(Gateway, 0)})

  lemma GatewayDelivered() returns (run: Run)
    ensures IsRun(ST, run)
    ensures Final(run) == Sys(D1, 0, LOG1, 1, {}, map[0 := 1], map[], map[], {}, {})
  {
    run := OneAccount();
    run := Submit(run, Ref(Gateway, 0), "k", 1);
    var db := Db(ACCOUNTS, G_ROW, map[], map[], map[0 := New(M(Gateway, 0))], 1, 0, 0, 0, 1);
    assert Final(run).db == db;
    run := Announce(run, 0, 1);
    assert Published(db, 0) == D1;
  }

  lemma GatewayDeferred() returns (run: Run)
    ensures IsRun(ST, run) && Final(run) == DEFERRED
  {
    run := GatewayDelivered();
    hide Next;
    assert BestPartner(F(Gateway, 0), Candidates(D1, F(Gateway, 0), ST.cfg), ST.cfg, None);
    run := ReadEntry(run, 1, 0, None);
    run := CommitAndAck(run, 1, D1);
    assert Final(run).inFlight == map[] && Final(run).agents == map[];
  }

  lemma LedgerDelivered() returns (run: Run)
    ensures IsRun(ST, run)
    ensures Final(run) == DEFERRED.(db := D2, log := LOG2, nextEntry := 2, inFlight := map[1 := 2])
  {
    run := GatewayDeferred();
    run := Submit(run, Ref(Ledger, 0), "k", 2);
    var db := D2.(outbox := map[0 := Sent(M(Gateway, 0)), 1 := New(TWICE)]);
    assert Final(run).db == db;
    run := Announce(run, 1, 2);
    assert Published(db, 1) == D2;
  }

  lemma LedgerMarked() returns (run: Run)
    ensures IsRun(ST, run) && Final(run) == MARKED
  {
    run := LedgerDelivered();
    hide Next;
    run := ReadEntry(run, 2, 1, None);
    assert Apply(D2, DuplicateDecision(F(Ledger, 0)), 1, 0) == D3;
    run := CommitAndAck(run, 2, D3);
    assert Final(run).inFlight == map[] && Final(run).agents == map[];
  }

  /** A pair with every message processed and neither row spent: the ledger row was stored by
      a transaction that submitted its key twice, so layers 1-3 never ran for it. */
  lemma RepeatedKeyGetsStuck() returns (run: Run)
    ensures IsRun(ST, run) && WindowsNest(ST.cfg)
    ensures Compatible(ST, Final(run).db, Ref(Gateway, 0), Ref(Ledger, 0))
    ensures forall e :: !Open(Final(run), e)
    ensures !Spent(ST, Final(run).db, Ref(Gateway, 0)) && !Spent(ST, Final(run).db, Ref(Ledger, 0))
  {
    run := LedgerMarked();
    hide Next;
  }

  /* ------------------- Repeated txn_ids and stale choices ------------------- */

  function Four(g0: Option<int>, l0: Option<int>): map<Ref, Row> {
    map[Ref(Gateway, 0) := R(Gateway, 0, "a", 0).(reconciledAt := g0), Ref(Gateway, 1) := R(Gateway, 1, "b", 0),
        Ref(Ledger, 0) := R(Ledger, 0, "a", 0).(reconciledAt := l0), Ref(Ledger, 1) := R(Ledger, 1, "b", 0)]
  }

  /** Four rows of one txn_id, all pending; one event each. */
  const PENDING := Db(ACCOUNTS, Four(None, None), map[], map[],
                      map[0 := Sent(M(Gateway, 0)), 1 := Sent(M(Gateway, 1)),
                          2 := New(M(Ledger, 0)), 3 := Sent(M(Ledger, 1))],
                      2, 2, 0, 0, 4)

  /** The first two paired with each other. */
  const PAIRED := PENDING.(rows := Four(Some(0), Some(0)),
    results := map[0 := Result(1, Some(0), Some(0), Matched, ByExact, 0)], nextResult := 1)

  const LOG3: map<nat, Entry> :=
    map[0 := Entry(0, M(Gateway, 0)), 1 := Entry(1, M(Gateway, 1)), 2 := Entry(3, M(Ledger, 1))]

  /** Three workers hold a decision each: two want the same ledger row, two the same gateway
      row. */
  const CHOSEN := Sys(PENDING, 0, LOG3, 3, {}, map[0 := 10, 1 := 11, 2 := 13], map[],
                      map[10 := Working(0, Entry(0, M(Gateway, 0)), Some(Pair(F(Gateway, 0), F(Ledger, 0)))),
                          11 := Working(1, Entry(1, M(Gateway, 1)), Some(Pair(F(Gateway, 1), F(Ledger, 0)))),
                          13 := Working(2, Entry(3, M(Ledger, 1)), Some(Pair(F(Ledger, 1), F(Gateway, 0))))],
                      {}, {})

  lemma TwoStored() returns (run: Run)
    ensures IsRun(ST, run)
    ensures Final(run) == START.(db := Db(ACCOUNTS,
      map[Ref(Gateway, 0) := R(Gateway, 0, "a", 0), Ref(Gateway, 1) := R(Gateway, 1, "b", 0)],
      map[], map[], map[0 := New(M(Gateway, 0)), 1 := New(M(Gateway, 1))], 2, 0, 0, 0, 2))
  {
    run := OneAccount();
    hide Next;
    run := Submit(run, Ref(Gateway, 0), "a", 1);
    run := Submit(run, Ref(Gateway, 1), "b", 1);
  }

  lemma FourStored() returns (run: Run)
    ensures IsRun(ST, run)
    ensures Final(run) == START.(db := Db(ACCOUNTS, Four(None, None), map[], map[],
      map[0 := New(M(Gateway, 0)), 1 := New(M(Gateway, 1)), 2 := New(M(Ledger, 0)), 3 := New(M(Ledger, 1))],
      2, 2, 0, 0, 4))
  {
    run := TwoStored();
    hide Next;
    run := Submit(run, Ref(Ledger, 0), "a", 1);
    run := Submit(run, Ref(Ledger, 1), "b", 1);
    assert Final(run).db.rows == Four(None, None);
  }

  lemma ThreeDelivered() returns (run: Run)
    ensures IsRun(ST, run)
    ensures Final(run) == START.(db := PENDING, log := LOG3, nextEntry := 3, inFlight := map[0 := 10, 1 := 11, 2 := 13])
  {
    run := FourStored();
    hide Next;
    run := Announce(run, 0, 10);
    run := Announce(run, 1, 11);
    run := Announce(run, 3, 13);
    assert Final(run).db.outbox == PENDING.outbox;
  }

  lemma Choices()
    ensures BestPartner(F(Gateway, 0), Candidates(PENDING, F(Gateway, 0), ST.cfg), ST.cfg, Some(F(Ledger, 0)))
    ensures BestPartner(F(Gateway, 1), Candidates(PENDING, F(Gateway, 1), ST.cfg), ST.cfg, Some(F(Ledger, 0)))
    ensures BestPartner(F(Ledger, 1), Candidates(PENDING, F(Ledger, 1), ST.cfg), ST.cfg, Some(F(Gateway, 0)))
  {
    assert PENDING.rows[Ref(Ledger, 0)].facts == F(Ledger, 0) && PENDING.rows[Ref(Ledger, 1)].facts == F(Ledger, 1);
    assert PENDING.rows[Ref(Gateway, 0)].facts == F(Gateway, 0) && PENDING.rows[Ref(Gateway, 1)].facts == F(Gateway, 1);
  }

  lemma AllChosen() returns (run: Run)
    ensures IsRun(ST, run) && Final(run) == CHOSEN
  {
    run := ThreeDelivered();
    Choices();
    hide Next, BestPartner, Candidates;
    run := ChoosePartner(run, 10, 0, F(Gateway, 0), F(Ledger, 0));
    run := ChoosePartner(run, 11, 1, F(Gateway, 1), F(Ledger, 0));
    run := ChoosePartner(run, 13, 2, F(Ledger, 1), F(Gateway, 0));
    assert Final(run).agents == CHOSEN.agents;
  }

  lemma FirstWins()
    ensures Apply(PENDING, PairDecision(F(Gateway, 0), F(Ledger, 0), ST.cfg), 1, 0) == PAIRED
    ensures OutcomeOf(PENDING, PairDecision(F(Gateway, 0), F(Ledger, 0), ST.cfg), 1).Written?
    ensures OutcomeOf(PAIRED, PairDecision(F(Gateway, 1), F(Ledger, 0), ST.cfg), 1).Skipped?
    ensures OutcomeOf(PAIRED, PairDecision(F(Ledger, 1), F(Gateway, 0), ST.cfg), 1).Skipped?
  {
    assert Clashes(PAIRED.results[0], PairDecision(F(Gateway, 1), F(Ledger, 0), ST.cfg), 1);
    assert Clashes(PAIRED.results[0], PairDecision(F(Ledger, 1), F(Gateway, 0), ST.cfg), 1);
    var d := PairDecision(F(Gateway, 0), F(Ledger, 0), ST.cfg);
    assert InsertResult(PENDING, d, 1, 0).rows == PAIRED.rows;
    assert InsertResult(PENDING, d, 1, 0).results == PAIRED.results;
  }

  const SECOND := Working(1, Entry(1, M(Gateway, 1)), Some(Pair(F(Gateway, 1), F(Ledger, 0))))
  const THIRD := Working(2, Entry(3, M(Ledger, 1)), Some(Pair(F(Ledger, 1), F(Gateway, 0))))

  lemma FirstCommitted() returns (run: Run)
    ensures IsRun(ST, run)
    ensures Final(run) == Sys(PAIRED, 0, LOG3, 3, {}, map[1 := 11, 2 := 13], map[],
      map[11 := SECOND, 13 := THIRD], {0}, {})
  {
    run := AllChosen();
    FirstWins();
    hide Next, OutcomeOf, Apply;
    run := CommitPair(run, 10, F(Gateway, 0), F(Ledger, 0), PAIRED);
    assert Final(run).inFlight == map[1 := 11, 2 := 13] && Final(run).agents == map[11 := SECOND, 13 := THIRD];
  }

  lemma SecondRefused() returns (run: Run)
    ensures IsRun(ST, run)
    ensures Final(run) == Sys(PAIRED, 0, LOG3, 3, {}, map[2 := 13], map[], map[13 := THIRD], {0, 1}, {})
    ensures Refused(ST, run, |run.steps|, 1, Ref(Gateway, 1))
  {
    run := FirstCommitted();
    FirstWins();
    hide Next, OutcomeOf, PAIRED, Refused;
    assert IsPending(PAIRED, Ref(Gateway, 1)) by { StillPending(); }
    run := CommitPair(run, 11, F(Gateway, 1), F(Ledger, 0), PAIRED);
    assert Final(run).inFlight == map[2 := 13] && Final(run).agents == map[13 := THIRD];
  }

  lemma StillPending()
    ensures IsPending(PAIRED, Ref(Gateway, 1)) && IsPending(PAIRED, Ref(Ledger, 1))
  {
  }

  lemma OthersRefused() returns (run: Run)
    ensures IsRun(ST, run)
    ensures Final(run) == Sys(PAIRED, 0, LOG3, 3, {}, map[], map[], map[], {0, 1, 3}, {})
    ensures Refused(ST, run, |run.steps|, 1, Ref(Gateway, 1)) && Refused(ST, run, |run.steps|, 3, Ref(Ledger, 1))
  {
    var shorter := SecondRefused();
    FirstWins();
    hide Next, OutcomeOf, PAIRED, Refused;
    assert IsPending(PAIRED, Ref(Ledger, 1)) by { StillPending(); }
    run := CommitPair(shorter, 13, F(Ledger, 1), F(Gateway, 0), PAIRED);
    AnswersStay(shorter, run, 1, Ref(Gateway, 1));
    assert Final(run).inFlight == map[] && Final(run).agents == map[];
  }

  /** A pair with both first receipts processed and both refused: each row's chosen partner was
      taken by the other two, and neither was told of the row that is left. */
  lemma StaleChoicesGetStuck() returns (run: Run)
    ensures IsRun(ST, run) && WindowsNest(ST.cfg)
    ensures Compatible(ST, Final(run).db, Ref(Gateway, 1), Ref(Ledger, 1))
    ensures FirstReceipt(Final(run).db, 1, Ref(Gateway, 1)) && FirstReceipt(Final(run).db, 3, Ref(Ledger, 1))
    ensures !Open(Final(run), 1) && !Open(Final(run), 3)
    ensures Refused(ST, run, |run.steps|, 1, Ref(Gateway, 1)) && Refused(ST, run, |run.steps|, 3, Ref(Ledger, 1))
  {
    run := OthersRefused();
    hide Next, Refused;
  }

  /* ------------------- One row passed over, the other refused ------------------- */

  const TWO_ROWS := map[Ref(Gateway, 0) := R(Gateway, 0, "a", 0), Ref(Gateway, 1) := R(Gateway, 1, "b", 0)]

  const GATEWAYS := Db(ACCOUNTS, TWO_ROWS, map[], map[],
                       map[0 := Sent(M(Gateway, 0)), 1 := Sent(M(Gateway, 1))], 2, 0, 0, 0, 2)

  const LOG_G: map<nat, Entry> := map[0 := Entry(0, M(Gateway, 0)), 1 := Entry(1, M(Gateway, 1))]

  /** Both gateway rows processed before any ledger row arrived. */
  const LONELY := Sys(GATEWAYS, 0, LOG_G, 2, {}, map[], map[], map[], {0, 1}, {Ref(Gateway, 0), Ref(Gateway, 1)})

  lemma NobodyThere(db: Db)
    requires db.rows == TWO_ROWS
    ensures BestPartner(F(Gateway, 0), Candidates(db, F(Gateway, 0), ST.cfg), ST.cfg, None)
    ensures BestPartner(F(Gateway, 1), Candidates(db, F(Gateway, 1), ST.cfg), ST.cfg, None)
  {
  }

  lemma FirstPassed() returns (run: Run)
    ensures IsRun(ST, run)
    ensures Final(run) == Sys(GATEWAYS.(outbox := map[0 := Sent(M(Gateway, 0)), 1 := New(M(Gateway, 1))]), 0,
      map[0 := Entry(0, M(Gateway, 0))], 1, {}, map[], map[], map[], {0}, {Ref(Gateway, 0)})
  {
    run := TwoStored();
    hide Next, BestPartner, Candidates, Passed;
    run := Announce(run, 0, 10);
    NobodyThere(Final(run).db);
    run := PassOver(run, 10, 0);
    assert Final(run).inFlight == map[] && Final(run).agents == map[];
  }

  lemma BothPassed() returns (run: Run)
    ensures IsRun(ST, run) && Final(run) == LONELY && Passed(run, |run.steps|, 1)
  {
    run := FirstPassed();
    hide Next, BestPartner, Candidates, Passed;
    run := Announce(run, 1, 11);
    NobodyThere(Final(run).db);
    run := PassOver(run, 11, 1);
    assert Final(run).inFlight == map[] && Final(run).agents == map[];
    assert Final(run).db.outbox == GATEWAYS.outbox;
  }

  /** The same four rows, every message published. */
  const ARRIVED := PENDING.(outbox := PENDING.outbox[2 := Sent(M(Ledger, 0))])

  const LOG4: map<nat, Entry> := LOG_G + map[2 := Entry(2, M(Ledger, 0)), 3 := Entry(3, M(Ledger, 1))]

  lemma LedgersStored() returns (run: Run)
    ensures IsRun(ST, run) && Passed(run, |run.steps|, 1)
    ensures Final(run) == LONELY.(db := ARRIVED.(outbox :=
      ARRIVED.outbox[2 := New(M(Ledger, 0))][3 := New(M(Ledger, 1))]))
  {
    var lonely := BothPassed();
    hide Next, Passed, Refused, Extends;
    run := Submit(lonely, Ref(Ledger, 0), "a", 1);
    AnswersStay(lonely, run, 1, Ref(Gateway, 1));
    var one := run;
    run := Submit(one, Ref(Ledger, 1), "b", 1);
    AnswersStay(one, run, 1, Ref(Gateway, 1));
    assert Final(run).db.rows == Four(None, None);
  }

  const ONE_SENT := LONELY.(db := ARRIVED.(outbox := ARRIVED.outbox[3 := New(M(Ledger, 1))]),
                            log := LOG_G[2 := Entry(2, M(Ledger, 0))], nextEntry := 3, inFlight := map[2 := 12])

  const ALL_SENT := LONELY.(db := ARRIVED, log := LOG4, nextEntry := 4, inFlight := map[2 := 12, 3 := 13])

  lemma LedgerZeroDelivered() returns (run: Run)
    ensures IsRun(ST, run) && Passed(run, |run.steps|, 1) && Final(run) == ONE_SENT
  {
    var stored := LedgersStored();
    hide Next, Passed;
    run := Announce(stored, 2, 12);
    AnswersStay(stored, run, 1, Ref(Gateway, 1));
    assert Final(run).db.outbox == ARRIVED.outbox[3 := New(M(Ledger, 1))];
  }

  lemma LedgersDelivered() returns (run: Run)
    ensures IsRun(ST, run) && Passed(run, |run.steps|, 1) && Final(run) == ALL_SENT
  {
    var first := LedgerZeroDelivered();
    LastSent();
    hide Next, Passed, Refused, Delivered, ONE_SENT, ALL_SENT;
    run := Announce(first, 3, 13);
    AnswersStay(first, run, 1, Ref(Gateway, 1));
  }

  lemma LastSent()
    ensures ONE_SENT.relays == map[] && ONE_SENT.undelivered == {} && ONE_SENT.now == 0
    ensures 3 in ONE_SENT.db.outbox && ONE_SENT.db.outbox[3].publishedAt.None?
    ensures Delivered(ONE_SENT, 3, 13) == ALL_SENT
  {
    assert Delivered(ONE_SENT, 3, 13).db.outbox == ARRIVED.outbox;
    assert Delivered(ONE_SENT, 3, 13).log == LOG4;
  }

  /** Both ledger rows' workers choose the older gateway row. */
  lemma SameChoice()
    ensures BestPartner(F(Ledger, 0), Candidates(ARRIVED, F(Ledger, 0), ST.cfg), ST.cfg, Some(F(Gateway, 0)))
    ensures BestPartner(F(Ledger, 1), Candidates(ARRIVED, F(Ledger, 1), ST.cfg), ST.cfg, Some(F(Gateway, 0)))
  {
    assert ARRIVED.rows[Ref(Gateway, 0)].facts == F(Gateway, 0) && ARRIVED.rows[Ref(Gateway, 1)].facts == F(Gateway, 1);
  }

  const WANTS_0 := Working(2, Entry(2, M(Ledger, 0)), Some(Pair(F(Ledger, 0), F(Gateway, 0))))
  const WANTS_1 := Working(3, Entry(3, M(Ledger, 1)), Some(Pair(F(Ledger, 1), F(Gateway, 0))))

  const WANTED := Sys(ARRIVED, 0, LOG4, 4, {}, map[2 := 12, 3 := 13], map[], map[12 := WANTS_0, 13 := WANTS_1],
                      {0, 1}, {Ref(Gateway, 0), Ref(Gateway, 1)})

  const HALF_DONE :=
    WANTED.(db := TAKEN, inFlight := map[3 := 13], agents := map[13 := WANTS_1], processed := {0, 1, 2})

  lemma BothWant() returns (run: Run)
    ensures IsRun(ST, run) && Passed(run, |run.steps|, 1) && Final(run) == WANTED
  {
    var delivered := LedgersDelivered();
    SameChoice();
    hide Next, BestPartner, Candidates, Passed;
    run := ChoosePartner(delivered, 12, 2, F(Ledger, 0), F(Gateway, 0));
    run := ChoosePartner(run, 13, 3, F(Ledger, 1), F(Gateway, 0));
    AnswersStay(delivered, run, 1, Ref(Gateway, 1));
    assert Final(run).agents == map[12 := WANTS_0, 13 := WANTS_1];
  }

  const TAKEN := PAIRED.(outbox := ARRIVED.outbox)

  lemma OlderTaken()
    ensures Viable(F(Ledger, 0), F(Gateway, 0), ST.cfg)
    ensures Apply(ARRIVED, PairDecision(F(Ledger, 0), F(Gateway, 0), ST.cfg), 1, 0) == TAKEN
    ensures OutcomeOf(ARRIVED, PairDecision(F(Ledger, 0), F(Gateway, 0), ST.cfg), 1).Written?
  {
    var d := PairDecision(F(Ledger, 0), F(Gateway, 0), ST.cfg);
    assert d == Decision(Matched, ByExact, Some(0), Some(0));
    hide PairDecision, ClassifyPair;
    assert InsertResult(ARRIVED, d, 1, 0).rows == TAKEN.rows;
    assert InsertResult(ARRIVED, d, 1, 0).results == TAKEN.results;
  }

  lemma OlderGone()
    ensures Viable(F(Ledger, 1), F(Gateway, 0), ST.cfg)
    ensures OutcomeOf(TAKEN, PairDecision(F(Ledger, 1), F(Gateway, 0), ST.cfg), 1).Skipped?
    ensures IsPending(TAKEN, Ref(Ledger, 1))
  {
    assert Clashes(TAKEN.results[0], PairDecision(F(Ledger, 1), F(Gateway, 0), ST.cfg), 1);
  }

  lemma OneTaken() returns (run: Run)
    ensures IsRun(ST, run) && Passed(run, |run.steps|, 1) && Final(run) == HALF_DONE
  {
    var wanted := BothWant();
    OlderTaken();
    FirstAcked();
    hide Next, OutcomeOf, Apply, Passed, Refused, ARRIVED, TAKEN, HALF_DONE, ClassifyPair, PairDecision;
    run := CommitPair(wanted, 12, F(Ledger, 0), F(Gateway, 0), TAKEN);
    AnswersStay(wanted, run, 1, Ref(Gateway, 1));
  }

  lemma FirstAcked()
    ensures Acked(WANTED, 12, TAKEN) == HALF_DONE
  {
    hide ARRIVED, TAKEN;
    assert WANTED.inFlight - {2} == map[3 := 13] && WANTED.agents - {12} == map[13 := WANTS_1];
  }

  lemma OtherRefused() returns (run: Run)
    ensures IsRun(ST, run) && Passed(run, |run.steps|, 1) && Refused(ST, run, |run.steps|, 3, Ref(Ledger, 1))
    ensures Final(run) == LONELY.(db := TAKEN, log := LOG4, nextEntry := 4, processed := {0, 1, 2, 3})
  {
    var taken := OneTaken();
    OlderGone();
    hide Next, OutcomeOf, TAKEN, Passed, Refused, ClassifyPair, Viable, PairDecision;
    run := CommitPair(taken, 13, F(Ledger, 1), F(Gateway, 0), TAKEN);
    AnswersStay(taken, run, 1, Ref(Gateway, 1));
    assert Final(run).inFlight == map[] && Final(run).agents == map[];
  }

  /** A pair with both first receipts processed, where the gateway row had found nobody and only
      the ledger row was refused its chosen partner. */
  lemma DeferredAndRefusedGetStuck() returns (run: Run)
    ensures IsRun(ST, run) && WindowsNest(ST.cfg)
    ensures Compatible(ST, Final(run).db, Ref(Gateway, 1), Ref(Ledger, 1))
    ensures FirstReceipt(Final(run).db, 1, Ref(Gateway, 1)) && FirstReceipt(Final(run).db, 3, Ref(Ledger, 1))
    ensures forall e :: !Open(Final(run), e)
    ensures Passed(run, |run.steps|, 1) && Refused(ST, run, |run.steps|, 3, Ref(Ledger, 1))
  {
    run := OtherRefused();
    hide Next, Passed, Refused;
  }
}
