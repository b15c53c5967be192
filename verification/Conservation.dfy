/** Per tenant, rows and results add up in every reachable state. */
module Conservation {
  import opened Basics
  import opened Matching
  import opened Tables
  import opened Protocol
  import opened Safety
  import opened Stats

  function RowsOf(db: Db, t: nat, side: Side): set<Ref> {
    set ref | ref in db.rows && ref.side == side && db.rows[ref].facts.tenant == t
  }

  function PendingOf(db: Db, t: nat, side: Side): set<Ref> {
    set ref | ref in RowsOf(db, t, side) && db.rows[ref].Pending()
  }

  function SettledOf(db: Db, t: nat, side: Side): set<Ref> {
    set ref | ref in RowsOf(db, t, side) && !db.rows[ref].Pending()
  }

  /** The tenant's results that settle a row of this side. */
  function SettlingOf(db: Db, t: nat, side: Side): set<nat> {
    set r | r in db.results && db.results[r].tenant == t && db.results[r].status != Duplicate
            && SideOf(db.results[r], side).Some?
  }

  function SideOf(r: Result, side: Side): Option<nat> { if side.Gateway? then r.gateway else r.ledger }

  /** Each settled row has exactly one settling result and each settling result one row. */
  lemma SettledAreSettling(st: Settings, db: Db, t: nat, side: Side)
    requires ForeignKeys(db) && TenantsAgree(db) && OneActive(db) && ReconciledByResult(db)
    ensures |SettlingOf(db, t, side)| == |SettledOf(db, t, side)|
  {
    var m := map r | r in SettlingOf(db, t, side) :: Ref(side, SideOf(db.results[r], side).value);
    forall r | r in m ensures m[r] in SettledOf(db, t, side) && ActiveOn(db, r, m[r]) {
      assert db.results[r].Names(m[r]) && ActiveOn(db, r, m[r]);
    }
    forall ref | ref in SettledOf(db, t, side) ensures exists r :: r in m && m[r] == ref {
      var r: nat :| ActiveOn(db, r, ref);
      assert db.results[r].Names(ref);
      assert r in m && m[r] == ref;
    }
    forall a, b | a in m && b in m && m[a] == m[b] ensures a == b {
      assert ActiveOn(db, a, m[a]) && ActiveOn(db, b, m[b]);
    }
    SameCard(SettlingOf(db, t, side), SettledOf(db, t, side), m);
  }

  function StatusOf(db: Db, t: nat, status: Status): set<nat> {
    set r | r in db.results && db.results[r].tenant == t && db.results[r].status == status
  }

  function LoneStatus(side: Side): Status { if side.Gateway? then UnmatchedGatewayOnly else UnmatchedLedgerOnly }

  /** A settling result of a side is a match, a drift or that side's own break. */
  lemma SettlingByStatus(st: Settings, db: Db, t: nat, side: Side)
    requires AllJustified(st, db)
    ensures |SettlingOf(db, t, side)|
         == |StatusOf(db, t, Matched)| + |StatusOf(db, t, AmountDrift)| + |StatusOf(db, t, LoneStatus(side))|
  {
    SettlingUnion(st, db, t, side);
    UnionCard(StatusOf(db, t, Matched), StatusOf(db, t, AmountDrift), StatusOf(db, t, LoneStatus(side)));
  }

  lemma SettlingUnion(st: Settings, db: Db, t: nat, side: Side)
    requires AllJustified(st, db)
    ensures SettlingOf(db, t, side)
         == StatusOf(db, t, Matched) + StatusOf(db, t, AmountDrift) + StatusOf(db, t, LoneStatus(side))
  {
    forall r | r in db.results && db.results[r].tenant == t
      ensures r in SettlingOf(db, t, side)
         <==> r in StatusOf(db, t, Matched) + StatusOf(db, t, AmountDrift) + StatusOf(db, t, LoneStatus(side))
    {
      SettlingShape(st, db, r, side);
    }
  }

  predicate SettlesSide(r: Result, side: Side) { r.status != Duplicate && SideOf(r, side).Some? }

  lemma SettlingShape(st: Settings, db: Db, r: nat, side: Side)
    requires AllJustified(st, db) && r in db.results
    ensures SettlesSide(db.results[r], side) <==>
      db.results[r].status in {Matched, AmountDrift, LoneStatus(side)}
  {
    assert Justified(st, db, db.results[r]);
  }

  lemma RowsSplit(db: Db, t: nat, side: Side)
    ensures |RowsOf(db, t, side)| == |PendingOf(db, t, side)| + |SettledOf(db, t, side)|
  {
    assert RowsOf(db, t, side) == PendingOf(db, t, side) + SettledOf(db, t, side);
    assert PendingOf(db, t, side) !! SettledOf(db, t, side);
  }

  /** In every reachable state: gateway rows = pending + matched + drift + gateway-only breaks,
      and the same for ledger rows. */
  lemma RowsConserved(st: Settings, run: Run, i: nat, t: nat, side: Side)
    requires IsRun(st, run) && i < |run.states|
    ensures var db := run.states[i].db;
      |RowsOf(db, t, side)|
      == |PendingOf(db, t, side)|
         + |StatusOf(db, t, Matched)| + |StatusOf(db, t, AmountDrift)| + |StatusOf(db, t, LoneStatus(side))|
  {
    RunKeepsInv(st, run, i);
    var db := run.states[i].db;
    RowsSplit(db, t, side);
    SettledAreSettling(st, db, t, side);
    SettlingByStatus(st, db, t, side);
  }

  function CasesOf(db: Db, t: nat): set<nat> { set c | c in db.cases && db.cases[c].tenant == t }

  function OpeningOf(db: Db, t: nat): set<nat> {
    set r | r in db.results && db.results[r].tenant == t && NeedsHuman(db.results[r].status)
  }

  lemma CasesAreOpening(db: Db, t: nat)
    requires CasesMatch(db)
    ensures |CasesOf(db, t)| == |OpeningOf(db, t)|
  {
    var m := map c | c in CasesOf(db, t) :: db.cases[c].result;
    forall r | r in OpeningOf(db, t) ensures exists c :: c in m && m[c] == r {
      var c :| c in db.cases && db.cases[c].result == r;
      assert c in m && m[c] == r;
    }
    SameCard(CasesOf(db, t), OpeningOf(db, t), m);
  }

  /** In every reachable state the tenant's exceptions number its drifts plus its breaks, those
      the stats endpoint counts in its window and those resolved before it, and time-drift
      matches are among the matches. */
  lemma ExceptionsConserved(st: Settings, run: Run, i: nat, t: nat, cutoff: int)
    requires IsRun(st, run) && i < |run.states|
    ensures var db := run.states[i].db; var s := FetchStats(db, t, cutoff);
      && |CasesOf(db, t)| == s.drift + s.unmatched + EarlierExceptions(db, t, cutoff)
      && Selected(db, t, cutoff, CTimeDrift) <= Selected(db, t, cutoff, CMatched)
      && s.viaTimeDrift <= s.matched
  {
    RunKeepsInv(st, run, i);
    hide Exec, Enabled;
    var db := run.states[i].db;
    ExceptionsCounted(st, db, t, cutoff);
  }

  function EarlierExceptions(db: Db, t: nat, cutoff: int): nat {
    |Earlier(db, t, cutoff, CDrift)| + |Earlier(db, t, cutoff, CUnmatchedGateway)|
    + |Earlier(db, t, cutoff, CUnmatchedLedger)|
  }

  lemma ExceptionsCounted(st: Settings, db: Db, t: nat, cutoff: int)
    requires CasesMatch(db) && AllJustified(st, db)
    ensures var s := FetchStats(db, t, cutoff);
      && |CasesOf(db, t)| == s.drift + s.unmatched + EarlierExceptions(db, t, cutoff)
      && Selected(db, t, cutoff, CTimeDrift) <= Selected(db, t, cutoff, CMatched)
      && s.viaTimeDrift <= s.matched
  {
    CasesAreOpening(db, t);
    var floor := FloorExists(db, t);
    OpeningByColumn(st, db, t, floor);
    WindowSplits(db, t, cutoff, floor, CDrift);
    WindowSplits(db, t, cutoff, floor, CUnmatchedGateway);
    WindowSplits(db, t, cutoff, floor, CUnmatchedLedger);
    UnmatchedSplits(db, t, cutoff);
    TimeDriftAmongMatches(st, db, t, cutoff);
    hide CasesMatch, AllJustified, AllRecent, CasesOf, OpeningOf, OpenCases, Selected, Earlier;
  }

  lemma TimeDriftAmongMatches(st: Settings, db: Db, t: nat, cutoff: int)
    requires AllJustified(st, db)
    ensures Selected(db, t, cutoff, CTimeDrift) <= Selected(db, t, cutoff, CMatched)
    ensures Count(db, t, cutoff, CTimeDrift) <= Count(db, t, cutoff, CMatched)
  {
    forall r | r in Selected(db, t, cutoff, CTimeDrift) ensures r in Selected(db, t, cutoff, CMatched) {
      JustifiedShape(st, db, r);
    }
    SubsetCard(Selected(db, t, cutoff, CTimeDrift), Selected(db, t, cutoff, CMatched));
  }

  lemma OpeningByColumn(st: Settings, db: Db, t: nat, cutoff: int)
    requires AllJustified(st, db) && AllRecent(db, t, cutoff)
    ensures |OpeningOf(db, t)|
         == Count(db, t, cutoff, CDrift)
            + Count(db, t, cutoff, CUnmatchedGateway) + Count(db, t, cutoff, CUnmatchedLedger)
  {
    var d := Selected(db, t, cutoff, CDrift);
    var g, l := Selected(db, t, cutoff, CUnmatchedGateway), Selected(db, t, cutoff, CUnmatchedLedger);
    forall r | r in db.results ensures db.results[r].status != TimeDrift { JustifiedShape(st, db, r); }
    assert OpeningOf(db, t) == d + g + l;
    UnionCard(d, g, l);
  }

  lemma JustifiedShape(st: Settings, db: Db, r: nat)
    requires AllJustified(st, db) && r in db.results
    ensures db.results[r].layer == ByTimeDrift ==> db.results[r].status == Matched
    ensures db.results[r].status != TimeDrift
  {
    var res := db.results[r];
    assert Justified(st, db, res);
    if PairJustified(st, db, res) {
      ViableAgrees(db.rows[Ref(Gateway, res.gateway.value)].facts, db.rows[Ref(Ledger, res.ledger.value)].facts,
        st.cfg);
    }
  }
}
