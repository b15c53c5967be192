/** The pure matcher: layers 1-3 against one counterparty, the choice of the best one, and
    the duplicate and unmatched decisions.

    Amounts are exact decimals (`real`), instants and windows are integers (microseconds).  */
module Matching {
  import opened Basics

  datatype Side = Gateway | Ledger

  function Other(side: Side): Side { if side.Gateway? then Ledger else Gateway }

  datatype Status =
    | Matched
    | UnmatchedGatewayOnly
    | UnmatchedLedgerOnly
    | Duplicate
    | AmountDrift
    | TimeDrift  // reserved by the schema; no layer produces it

  datatype Layer = ByExact | ByTimeDrift | ByAmountDrift | ByDuplicate | BySweep

  /** The part of a raw row that matching depends on. */
  datatype Facts = Facts(
    side: Side,
    tenant: nat,
    rowId: nat,
    txn: string,
    amount: real,
    currency: string,
    occurred: int,
    received: int)

  datatype Config = Config(exactWindow: int, driftWindow: int, driftPct: real, driftAbs: real)

  datatype Verdict = Verdict(status: Status, layer: Layer)

  datatype Decision = Decision(status: Status, layer: Layer, gateway: Option<nat>, ledger: Option<nat>)

  /** The statuses that open an exception. */
  predicate NeedsHuman(status: Status) { status in {AmountDrift, UnmatchedGatewayOnly, UnmatchedLedgerOnly} }

  /** The settings' defaults: 2 s, 60 s, 1 percent, 10 major units. */
  const DEFAULT_CONFIG := Config(2_000_000, 60_000_000, 0.01, 10.0)

  function TimeDelta(a: Facts, b: Facts): nat { Abs(a.occurred - b.occurred) }

  function AmountTolerance(reference: real, cfg: Config): real {
    MaxReal(AbsReal(reference) * cfg.driftPct, cfg.driftAbs)
  }

  function GatewayOf(a: Facts, b: Facts): Facts { if a.side.Gateway? then a else b }

  function LedgerOf(a: Facts, b: Facts): Facts { if a.side.Gateway? then b else a }

  /** Layers 1-3 against one counterparty; `None` when the pair is not matchable. */
  function ClassifyPair(c: Facts, o: Facts, cfg: Config): Option<Verdict> {
    if c.tenant != o.tenant then None
    else if c.side == o.side then None
    else if c.txn != o.txn then None
    else if c.currency != o.currency then None
    else
      var dt := TimeDelta(c, o);
      var sameAmount := c.amount == o.amount;
      if sameAmount && dt <= cfg.exactWindow then Some(Verdict(Matched, ByExact))
      else if sameAmount && dt <= cfg.driftWindow then Some(Verdict(Matched, ByTimeDrift))
      else if !sameAmount && dt <= cfg.driftWindow then
        var g, l := GatewayOf(c, o), LedgerOf(c, o);
        if AbsReal(g.amount - l.amount) <= AmountTolerance(g.amount, cfg)
        then Some(Verdict(AmountDrift, ByAmountDrift))
        else None
      else None
  }

  predicate Viable(c: Facts, o: Facts, cfg: Config) { ClassifyPair(c, o, cfg).Some? }

  /** Which of the two rows is the candidate does not matter, so the gateway's worker and
      the ledger's worker reach the same verdict about one pair. */
  lemma ClassifyPairSymmetric(c: Facts, o: Facts, cfg: Config)
    ensures ClassifyPair(c, o, cfg) == ClassifyPair(o, c, cfg)
  {
    assert TimeDelta(c, o) == TimeDelta(o, c);
    if c.side != o.side {
      assert GatewayOf(c, o) == GatewayOf(o, c) && LedgerOf(c, o) == LedgerOf(o, c);
    }
  }

  /** A viable pair agrees on tenant, txn_id and currency and has one row on each side. */
  lemma ViableAgrees(c: Facts, o: Facts, cfg: Config)
    requires Viable(c, o, cfg)
    ensures c.tenant == o.tenant && c.txn == o.txn && c.currency == o.currency
    ensures o.side == Other(c.side)
    ensures ClassifyPair(c, o, cfg).value in
            {Verdict(Matched, ByExact), Verdict(Matched, ByTimeDrift), Verdict(AmountDrift, ByAmountDrift)}
  {
  }

  function LayerRank(layer: Layer): nat {
    match layer
    case ByExact => 0
    case ByTimeDrift => 1
    case _ => 2
  }

  /** Strict lexicographic order on (layer, time distance, amount distance, row id). */
  predicate Precedes(c: Facts, a: Facts, b: Facts, cfg: Config)
    requires Viable(c, a, cfg) && Viable(c, b, cfg)
  {
    var ra, rb := LayerRank(ClassifyPair(c, a, cfg).value.layer), LayerRank(ClassifyPair(c, b, cfg).value.layer);
    var ta, tb := TimeDelta(c, a), TimeDelta(c, b);
    var da, db := AbsReal(c.amount - a.amount), AbsReal(c.amount - b.amount);
    ra < rb || (ra == rb && (ta < tb || (ta == tb && (da < db || (da == db && a.rowId < b.rowId)))))
  }

  /** `partner` is what layers 1-3 choose for `c` out of `pool`: nothing when no row is
      viable, otherwise a viable row that no other viable row precedes. */
  predicate BestPartner(c: Facts, pool: set<Facts>, cfg: Config, partner: Option<Facts>) {
    match partner
    case None => forall o :: o in pool ==> !Viable(c, o, cfg)
    case Some(b) =>
      && b in pool
      && Viable(c, b, cfg)
      && forall o :: o in pool && Viable(c, o, cfg) ==> !Precedes(c, o, b, cfg)
  }

  function PairDecision(c: Facts, o: Facts, cfg: Config): Decision
    requires Viable(c, o, cfg)
  {
    var v := ClassifyPair(c, o, cfg).value;
    Decision(v.status, v.layer, Some(GatewayOf(c, o).rowId), Some(LedgerOf(c, o).rowId))
  }

  function DecisionWith(c: Facts, partner: Option<Facts>, cfg: Config): Option<Decision>
    requires partner.Some? ==> Viable(c, partner.value, cfg)
  {
    if partner.None? then None else Some(PairDecision(c, partner.value, cfg))
  }

  function DuplicateDecision(c: Facts): Decision {
    Decision(Duplicate, ByDuplicate,
             if c.side.Gateway? then Some(c.rowId) else None,
             if c.side.Ledger? then Some(c.rowId) else None)
  }

  function UnmatchedDecision(c: Facts): Decision {
    if c.side.Gateway?
    then Decision(UnmatchedGatewayOnly, BySweep, Some(c.rowId), None)
    else Decision(UnmatchedLedgerOnly, BySweep, None, Some(c.rowId))
  }

  /** Row ids identify the rows of one side, as primary keys do. */
  ghost predicate DistinctIds(pool: set<Facts>) {
    forall a, b :: a in pool && b in pool && a.side == b.side && a.rowId == b.rowId ==> a == b
  }

  /** The choice is a function of the set of rows alone: two workers that see the same rows
      in different orders cannot choose differently. */
  lemma BestPartnerUnique(c: Facts, pool: set<Facts>, cfg: Config, p: Option<Facts>, q: Option<Facts>)
    requires DistinctIds(pool)
    requires BestPartner(c, pool, cfg, p) && BestPartner(c, pool, cfg, q)
    ensures p == q
  {
    if p.Some? && q.Some? {
      ViableAgrees(c, p.value, cfg);
      ViableAgrees(c, q.value, cfg);
      assert !Precedes(c, p.value, q.value, cfg) && !Precedes(c, q.value, p.value, cfg);
    }
  }

  /** Layers in order: amount drift is declared only when no viable row carries the same
      amount, and a match outside the exact window only when none is inside it. */
  lemma LaterLayersOnlyAsLastResort(c: Facts, pool: set<Facts>, cfg: Config, best: Facts, o: Facts)
    requires BestPartner(c, pool, cfg, Some(best)) && o in pool && Viable(c, o, cfg)
    ensures ClassifyPair(c, best, cfg).value.status == AmountDrift ==> o.amount != c.amount
    ensures ClassifyPair(c, best, cfg).value.layer == ByTimeDrift
      ==> o.amount != c.amount || TimeDelta(c, o) > cfg.exactWindow
  {
    ViableAgrees(c, best, cfg);
    ViableAgrees(c, o, cfg);
    assert !Precedes(c, o, best, cfg);
  }

  /** Among counterparties with the same verdict the chosen one is nearest in time; of those
      equally near it has the nearest amount; and of those it came first. */
  lemma ChosenIsClosest(c: Facts, pool: set<Facts>, cfg: Config, best: Facts, o: Facts)
    requires BestPartner(c, pool, cfg, Some(best)) && o in pool && Viable(c, o, cfg)
    requires ClassifyPair(c, best, cfg) == ClassifyPair(c, o, cfg)
    ensures TimeDelta(c, best) <= TimeDelta(c, o)
    ensures TimeDelta(c, best) == TimeDelta(c, o) ==> AbsReal(c.amount - best.amount) <= AbsReal(c.amount - o.amount)
    ensures TimeDelta(c, best) == TimeDelta(c, o) && AbsReal(c.amount - best.amount) == AbsReal(c.amount - o.amount)
      ==> best.rowId <= o.rowId
  {
    assert !Precedes(c, o, best, cfg);
  }

  lemma PrecedesTransitive(c: Facts, x: Facts, y: Facts, z: Facts, cfg: Config)
    requires Viable(c, x, cfg) && Viable(c, y, cfg) && Viable(c, z, cfg)
    requires !Precedes(c, x, y, cfg) && Precedes(c, z, y, cfg)
    ensures !Precedes(c, x, z, cfg)
  {
  }

  /** And there always is a choice. */
  lemma BestPartnerExists(c: Facts, pool: set<Facts>, cfg: Config) returns (partner: Option<Facts>)
    ensures BestPartner(c, pool, cfg, partner)
  {
    partner := None;
    var todo := pool;
    while todo != {}
      invariant todo <= pool
      invariant BestPartner(c, pool - todo, cfg, partner)
    {
      var o :| o in todo;
      if Viable(c, o, cfg) && (partner.None? || Precedes(c, o, partner.value, cfg)) {
        forall x | x in pool - todo && Viable(c, x, cfg) && partner.Some? ensures !Precedes(c, x, o, cfg) {
          PrecedesTransitive(c, x, partner.value, o, cfg);
        }
        partner := Some(o);
      }
      todo := todo - {o};
    }
  }

  function RowsIn(rows: seq<Facts>): set<Facts> { set o | o in rows }

  /** `decide`: collect the viable counterparties, then take the minimum. */
  method Decide(c: Facts, counterparties: seq<Facts>, cfg: Config)
    returns (decision: Option<Decision>, partner: Option<Facts>)
    ensures BestPartner(c, RowsIn(counterparties), cfg, partner)
    ensures decision == DecisionWith(c, partner, cfg)
    ensures partner.None? ==> forall o :: o in counterparties ==> !Viable(c, o, cfg)
    ensures partner.Some? ==> partner.value in counterparties && Viable(c, partner.value, cfg)
    ensures partner.Some? ==> forall o ::
      o in counterparties && ClassifyPair(c, o, cfg) == ClassifyPair(c, partner.value, cfg) ==>
        TimeDelta(c, partner.value) <= TimeDelta(c, o)
    ensures partner.Some? ==> forall o ::
      o in counterparties && ClassifyPair(c, o, cfg) == ClassifyPair(c, partner.value, cfg)
      && TimeDelta(c, o) == TimeDelta(c, partner.value) ==>
        AbsReal(c.amount - partner.value.amount) <= AbsReal(c.amount - o.amount)
    ensures partner.Some? ==> forall o ::
      o in counterparties && ClassifyPair(c, o, cfg) == ClassifyPair(c, partner.value, cfg)
      && TimeDelta(c, o) == TimeDelta(c, partner.value)
      && AbsReal(c.amount - o.amount) == AbsReal(c.amount - partner.value.amount) ==>
        partner.value.rowId <= o.rowId
  {
    var viable: seq<Facts> := [];
    for i := 0 to |counterparties|
      invariant forall o :: o in viable <==> o in counterparties[..i] && Viable(c, o, cfg)
    {
      var other := counterparties[i];
      assert counterparties[..i + 1] == counterparties[..i] + [other];
      if ClassifyPair(c, other, cfg).Some? {
        viable := viable + [other];
      }
    }
    assert counterparties[..|counterparties|] == counterparties;
    if viable == [] {
      assert forall o :: o in counterparties && Viable(c, o, cfg) ==> o in viable;
      return None, None;
    }
    var best := viable[0];
    for i := 1 to |viable|
      invariant best in viable && Viable(c, best, cfg)
      invariant forall j :: 0 <= j < i ==> Viable(c, viable[j], cfg) && !Precedes(c, viable[j], best, cfg)
    {
      assert viable[i] in viable;
      if Precedes(c, viable[i], best, cfg) {
        forall j | 0 <= j < i ensures !Precedes(c, viable[j], viable[i], cfg) {
          PrecedesTransitive(c, viable[j], best, viable[i], cfg);
        }
        best := viable[i];
      }
    }
    partner := Some(best);
    decision := Some(PairDecision(c, best, cfg));
    forall o | o in counterparties && Viable(c, o, cfg) ensures !Precedes(c, o, best, cfg) {
      assert o in viable;
    }
    forall o | o in counterparties && ClassifyPair(c, o, cfg) == ClassifyPair(c, best, cfg)
      ensures !Precedes(c, o, best, cfg)
    {
      assert Viable(c, o, cfg);
    }
  }

  /** The predicates of the counterparty query. */
  predicate InWindow(c: Facts, o: Facts, cfg: Config) {
    && o.side == Other(c.side)
    && o.tenant == c.tenant
    && o.txn == c.txn
    && c.occurred - cfg.driftWindow <= o.occurred <= c.occurred + cfg.driftWindow
  }

  /** What the query fetches for `c` out of a pool of pending rows. */
  function Fetched(c: Facts, pool: set<Facts>, cfg: Config): set<Facts> {
    set o | o in pool && InWindow(c, o, cfg)
  }

  /** When the prefilter can lose nothing: every instant layer 1 accepts is inside the window
      the query fetches.  The settings do not enforce it. */
  predicate WindowsNest(cfg: Config) { cfg.exactWindow <= cfg.driftWindow || cfg.exactWindow < 0 }

  lemma ViableInWindow(c: Facts, o: Facts, cfg: Config)
    requires WindowsNest(cfg)
    ensures Viable(c, o, cfg) ==> InWindow(c, o, cfg)
  {
  }

  /** Deciding on the indexed lookup equals deciding on every row there is, whatever its
      tenant, side or txn_id. */
  lemma LookupLossless(c: Facts, pool: set<Facts>, cfg: Config, partner: Option<Facts>)
    requires WindowsNest(cfg)
    ensures BestPartner(c, Fetched(c, pool, cfg), cfg, partner)
            <==> BestPartner(c, pool, cfg, partner)
  {
    forall o | o in pool && Viable(c, o, cfg) ensures InWindow(c, o, cfg) {
      ViableInWindow(c, o, cfg);
    }
  }

  ghost predicate LookupAlwaysLossless(cfg: Config) {
    forall c: Facts, pool: set<Facts>, partner: Option<Facts> ::
      BestPartner(c, Fetched(c, pool, cfg), cfg, partner)
      <==> BestPartner(c, pool, cfg, partner)
  }

  /** The condition is exact: windows that do not nest lose a layer-1 match. */
  lemma LookupLosslessExactly(cfg: Config)
    ensures LookupAlwaysLossless(cfg) <==> WindowsNest(cfg)
  {
    if WindowsNest(cfg) {
      forall c: Facts, pool: set<Facts>, partner: Option<Facts>
        ensures BestPartner(c, Fetched(c, pool, cfg), cfg, partner)
                <==> BestPartner(c, pool, cfg, partner)
      {
        LookupLossless(c, pool, cfg, partner);
      }
    } else {
      var g := Facts(Gateway, 0, 0, "t", 1.0, "INR", 0, 0);
      var l := Facts(Ledger, 0, 0, "t", 1.0, "INR", cfg.exactWindow, 0);
      var pool := {l};
      assert TimeDelta(g, l) == cfg.exactWindow;
      assert Viable(g, l, cfg) && !InWindow(g, l, cfg);
      assert Fetched(g, pool, cfg) == {};
      assert BestPartner(g, Fetched(g, pool, cfg), cfg, None);
      assert !BestPartner(g, pool, cfg, None);
    }
  }
}
