/** Why honest breaks need atomic steps: a run in which a ledger row arrives between a
    sweeper's read and its commit, and both halves of a matchable pair end as unmatched. */
module Races {
  import opened Basics
  import opened Matching
  import opened Tables
  import opened Protocol
  import opened Progress
  import opened Breaks
  import opened Atomic

  const ST := Settings(DEFAULT_CONFIG, 5)

  const SUB := Submission("t", 1.0, "INR", 0, "k")

  const G := Ref(Gateway, 0)
  const L := Ref(Ledger, 0)

  const GF := Facts(Gateway, 1, 0, "t", 1.0, "INR", 0, 0)
  const LF := Facts(Ledger, 1, 0, "t", 1.0, "INR", 0, 10)

  const EG := Event(Message(Gateway, 0, "t", false, 1), None, 0)
  const EL := Event(Message(Ledger, 0, "t", false, 1), None, 0)

  const GONLY := Result(1, Some(0), None, UnmatchedGatewayOnly, BySweep, 10)
  const LONLY := Result(1, None, Some(0), UnmatchedLedgerOnly, BySweep, 20)

  const ACCOUNTS := map[1 as nat := Account(Real, 0)]

  /** One gateway row. */
  const ONE := Db(ACCOUNTS, map[G := Row(GF, "k", 0, None)], map[], map[], map[0 := EG], 1, 0, 0, 0, 1)

  /** Both rows, pending and matchable. */
  const BOTH := Db(ACCOUNTS, map[G := Row(GF, "k", 0, None), L := Row(LF, "k", 0, None)], map[], map[],
    map[0 := EG, 1 := EL], 1, 1, 0, 0, 2)

  /** The gateway row given up on a stale read. */
  const HALF := Db(ACCOUNTS, map[G := Row(GF, "k", 0, Some(10)), L := Row(LF, "k", 0, None)],
                   map[0 := GONLY], map[0 := Case(1, 0, None, None)], map[0 := EG, 1 := EL], 1, 1, 1, 1, 2)

  /** Then the ledger row, rightly finding nobody. */
  const NEITHER := Db(ACCOUNTS, map[G := Row(GF, "k", 0, Some(10)), L := Row(LF, "k", 0, Some(20))],
                      map[0 := GONLY, 1 := LONLY], map[0 := Case(1, 0, None, None), 1 := Case(1, 1, None, None)],
                      map[0 := EG, 1 := EL], 1, 1, 2, 2, 2)

  function At(db: Db, now: int, agents: map<nat, Task>): Sys {
    Sys(db, now, map[], 0, {}, map[], map[], agents, {}, {})
  }

  const STEPS := [
    CreateAccount(1, Real),
    IngestKey(G, 1, SUB, 1),
    Tick(10),
    SweepList(1, Gateway, [GF]),
    SweepRead(1, None),
    IngestKey(L, 1, SUB, 1),
    SweepCommit(1),
    Tick(20),
    SweepList(2, Ledger, [LF]),
    SweepRead(2, None),
    SweepCommit(2)]

  const IDLE: map<nat, Task> := map[1 := Listing([])]

  const STATES := [
    At(EMPTY_DB, 0, map[]),
    At(EMPTY_DB.(accounts := ACCOUNTS), 0, map[]),
    At(ONE, 0, map[]),
    At(ONE, 10, map[]),
    At(ONE, 10, map[1 := Listing([GF])]),
    At(ONE, 10, map[1 := Sweeping(GiveUp(GF), [])]),
    At(BOTH, 10, map[1 := Sweeping(GiveUp(GF), [])]),
    At(HALF, 10, IDLE),
    At(HALF, 20, IDLE),
    At(HALF, 20, IDLE[2 := Listing([LF])]),
    At(HALF, 20, IDLE[2 := Sweeping(GiveUp(LF), [])]),
    At(NEITHER, 20, IDLE[2 := Listing([])])]

  const RACE := Run(STATES, STEPS)

  lemma Setup()
    ensures Next(ST, At(EMPTY_DB, 0, map[]), CreateAccount(1, Real), At(EMPTY_DB.(accounts := ACCOUNTS), 0, map[]))
    ensures Next(ST, At(EMPTY_DB.(accounts := ACCOUNTS), 0, map[]), IngestKey(G, 1, SUB, 1), At(ONE, 0, map[]))
    ensures Next(ST, At(ONE, 0, map[]), Tick(10), At(ONE, 10, map[]))
  {
  }

  lemma LedgerArrives()
    ensures Next(ST, At(ONE, 10, map[1 := Sweeping(GiveUp(GF), [])]), IngestKey(L, 1, SUB, 1),
      At(BOTH, 10, map[1 := Sweeping(GiveUp(GF), [])]))
  {
  }

  lemma ListOne(db: Db, now: int, agents: map<nat, Task>, a: nat, c: Facts)
    requires a !in agents && PendingFacts(db, c) && c.received < now - ST.unmatchedAfter
    ensures Next(ST, At(db, now, agents), SweepList(a, c.side, [c]), At(db, now, agents[a := Listing([c])]))
  {
  }

  lemma ReadNobody(db: Db, now: int, agents: map<nat, Task>, a: nat, c: Facts)
    requires a in agents && agents[a] == Listing([c]) && BestPartner(c, Candidates(db, c, ST.cfg), ST.cfg, None)
    ensures Next(ST, At(db, now, agents), SweepRead(a, None), At(db, now, agents[a := Sweeping(GiveUp(c), [])]))
  {
    assert [c][1..] == [];
  }

  lemma GiveUpOn(db: Db, now: int, agents: map<nat, Task>, a: nat, c: Facts)
    requires a in agents && agents[a] == Sweeping(GiveUp(c), [])
    requires OutcomeOf(db, UnmatchedDecision(c), c.tenant).Written?
    ensures Next(ST, At(db, now, agents), SweepCommit(a),
      At(InsertResult(db, UnmatchedDecision(c), c.tenant, now), now, agents[a := Listing([])]))
  {
  }

  lemma GatewayGivenUp()
    ensures OutcomeOf(BOTH, UnmatchedDecision(GF), 1).Written?
    ensures InsertResult(BOTH, UnmatchedDecision(GF), 1, 10) == HALF
  {
    assert InsertResult(BOTH, UnmatchedDecision(GF), 1, 10).rows == HALF.rows;
  }

  lemma LedgerGivenUp()
    ensures OutcomeOf(HALF, UnmatchedDecision(LF), 1).Written?
    ensures InsertResult(HALF, UnmatchedDecision(LF), 1, 20) == NEITHER
  {
    var d := UnmatchedDecision(LF);
    assert !Clashes(GONLY, d, 1);
    var made := InsertResult(HALF, d, 1, 20);
    assert made.rows == NEITHER.rows;
    assert made.results == NEITHER.results;
    assert made.cases == NEITHER.cases;
  }

  lemma NobodyAtOne()
    ensures BestPartner(GF, Candidates(ONE, GF, ST.cfg), ST.cfg, None)
  {
  }

  /** The gateway row is settled, so the ledger row's last attempt finds nobody. */
  lemma NobodyAtHalf()
    ensures BestPartner(LF, Candidates(HALF, LF, ST.cfg), ST.cfg, None)
  {
  }

  lemma GatewayHalf()
    ensures Next(ST, At(ONE, 10, map[]), SweepList(1, Gateway, [GF]), At(ONE, 10, map[1 := Listing([GF])]))
    ensures Next(ST, At(ONE, 10, map[1 := Listing([GF])]), SweepRead(1, None),
      At(ONE, 10, map[1 := Sweeping(GiveUp(GF), [])]))
    ensures Next(ST, At(BOTH, 10, map[1 := Sweeping(GiveUp(GF), [])]), SweepCommit(1), At(HALF, 10, IDLE))
  {
    hide Next, BestPartner, OutcomeOf, InsertResult;
    ListOne(ONE, 10, map[], 1, GF);
    assert map[][1 as nat := Listing([GF])] == map[1 := Listing([GF])];
    NobodyAtOne();
    ReadNobody(ONE, 10, map[1 := Listing([GF])], 1, GF);
    assert map[1 as nat := Listing([GF])][1 := Sweeping(GiveUp(GF), [])] == map[1 := Sweeping(GiveUp(GF), [])];
    GatewayGivenUp();
    GiveUpOn(BOTH, 10, map[1 := Sweeping(GiveUp(GF), [])], 1, GF);
    assert map[1 as nat := Sweeping(GiveUp(GF), [])][1 := Listing([])] == IDLE;
  }

  lemma LedgerHalf()
    ensures Next(ST, At(HALF, 10, IDLE), Tick(20), At(HALF, 20, IDLE))
    ensures Next(ST, At(HALF, 20, IDLE), SweepList(2, Ledger, [LF]), At(HALF, 20, IDLE[2 := Listing([LF])]))
    ensures Next(ST, At(HALF, 20, IDLE[2 := Listing([LF])]), SweepRead(2, None),
      At(HALF, 20, IDLE[2 := Sweeping(GiveUp(LF), [])]))
    ensures Next(ST, At(HALF, 20, IDLE[2 := Sweeping(GiveUp(LF), [])]), SweepCommit(2),
      At(NEITHER, 20, IDLE[2 := Listing([])]))
  {
    ListOne(HALF, 20, IDLE, 2, LF);
    hide BestPartner, OutcomeOf, InsertResult;
    NobodyAtHalf();
    ReadNobody(HALF, 20, IDLE[2 := Listing([LF])], 2, LF);
    assert IDLE[2 := Listing([LF])][2 := Sweeping(GiveUp(LF), [])] == IDLE[2 := Sweeping(GiveUp(LF), [])];
    LedgerGivenUp();
    GiveUpOn(HALF, 20, IDLE[2 := Sweeping(GiveUp(LF), [])], 2, LF);
    assert IDLE[2 := Sweeping(GiveUp(LF), [])][2 := Listing([])] == IDLE[2 := Listing([])];
  }

  lemma RaceIsRun()
    ensures IsRun(ST, RACE)
  {
    Setup();
    GatewayHalf();
    LedgerArrives();
    LedgerHalf();
    hide Next, BOTH, HALF, ONE, NEITHER, ST;
  }

  /** With read and commit split, a pair the matcher would have paired, pending together,
      can end as two breaks. */
  lemma SplitStepsCanBreakAPair()
    ensures IsRun(ST, RACE) && WindowsNest(ST.cfg)
    ensures Compatible(ST, RACE.states[6].db, G, L)
    ensures Broken(RACE.states[11].db, G) && Broken(RACE.states[11].db, L)
    ensures !AtomicRun(RACE)
  {
    RaceIsRun();
    BothWaiting();
    BothBroken();
    NotAtomic();
    hide Next, IsRun, Compatible, Broken, WindowsNest, AtomicRun, BOTH, HALF, ONE, NEITHER, ST;
    assert RACE.states[6].db == BOTH && RACE.states[11].db == NEITHER;
  }

  lemma BothWaiting()
    ensures WindowsNest(ST.cfg) && Compatible(ST, BOTH, G, L) && RACE.states[6].db == BOTH
  {
  }

  lemma BothBroken()
    ensures Broken(NEITHER, G) && Broken(NEITHER, L) && RACE.states[11].db == NEITHER
  {
    assert ActiveOn(NEITHER, 0, G) && ActiveOn(NEITHER, 1, L);
  }

  lemma NotAtomic()
    ensures |RACE.states| == |RACE.steps| + 1 && !AtomicRun(RACE)
  {
    hide BOTH, ONE, HALF, NEITHER, ST;
    assert RACE.states[5] == At(ONE, 10, map[1 := Sweeping(GiveUp(GF), [])]);
    assert Deciding(RACE.states[5], 1) && !RACE.steps[5].Crash?;
  }
}
