/** The load generator: planned transactions, its own prediction of the engine's verdict, the
    ground-truth tally, and the browser generator's integer form of the same rules. */
module Workload {
  import opened Basics
  import opened Matching
  import opened Tables
  import opened Stats

  datatype Planned = Planned(
    txn: string,
    amount: real,
    ledgerAmount: real,
    currency: string,
    occurred: int,
    ledgerOccurred: int,
    duplicate: bool,
    dropped: bool,
    gatewayKey: string,
    ledgerKey: string)

  datatype Prediction = MatchedExact | MatchedTimeDrift | DriftedAmount | GatewayOnly | BothUnmatched

  const EXACT_WINDOW_S := 2.0
  const DRIFT_WINDOW_S := 60.0
  const AMOUNT_DRIFT_PCT := 0.01
  const AMOUNT_DRIFT_ABS := 10.00

  function Seconds(us: nat): real { us as real / 1000000.0 }

  /** The generator's prediction, written from the rules and not from the matcher. */
  function Classify(p: Planned): Prediction {
    if p.dropped then GatewayOnly
    else
      var dt := Seconds(Abs(p.ledgerOccurred - p.occurred));
      if dt > DRIFT_WINDOW_S then BothUnmatched
      else if p.ledgerAmount != p.amount then
        var tolerance := MaxReal(AbsReal(p.amount) * AMOUNT_DRIFT_PCT, AMOUNT_DRIFT_ABS);
        if AbsReal(p.amount - p.ledgerAmount) <= tolerance then DriftedAmount else BothUnmatched
      else if dt <= EXACT_WINDOW_S then MatchedExact else MatchedTimeDrift
  }

  /* --------------------- The rows a plan turns into --------------------- */

  function KeyOf(p: Planned, side: Side): string { if side.Gateway? then p.gatewayKey else p.ledgerKey }

  /** The load script keys both sides by the txn_id. */
  predicate ScriptKeyed(p: Planned) { p.gatewayKey == "gw-" + p.txn && p.ledgerKey == "ld-" + p.txn }

  function SubmissionOf(p: Planned, side: Side): Submission {
    if side.Gateway? then Submission(p.txn, p.amount, p.currency, p.occurred, KeyOf(p, side))
    else Submission(p.txn, p.ledgerAmount, p.currency, p.ledgerOccurred, KeyOf(p, side))
  }

  function PlannedFacts(p: Planned, side: Side, tenant: nat, id: nat, received: int): Facts {
    var sub := SubmissionOf(p, side);
    Facts(side, tenant, id, sub.txn, sub.amount, sub.currency, sub.occurred, received)
  }

  /** What the matcher says about the planned pair, on its own configuration. */
  function PlanVerdict(p: Planned, cfg: Config): Option<Verdict> {
    if p.dropped then None
    else ClassifyPair(PlannedFacts(p, Gateway, 0, 0, 0), PlannedFacts(p, Ledger, 0, 0, 0), cfg)
  }

  /** A verdict depends on the payloads only, not on ids, arrival or which tenant it is. */
  lemma VerdictIgnoresIds(p: Planned, tenant: nat, i: nat, j: nat, r: int, q: int, cfg: Config)
    ensures ClassifyPair(PlannedFacts(p, Gateway, tenant, i, r), PlannedFacts(p, Ledger, tenant, j, q), cfg)
         == ClassifyPair(PlannedFacts(p, Gateway, 0, 0, 0), PlannedFacts(p, Ledger, 0, 0, 0), cfg)
  {
  }

  function PredictedVerdict(c: Prediction): Option<Verdict> {
    match c
    case MatchedExact => Some(Verdict(Matched, ByExact))
    case MatchedTimeDrift => Some(Verdict(Matched, ByTimeDrift))
    case DriftedAmount => Some(Verdict(AmountDrift, ByAmountDrift))
    case _ => None
  }

  /** Under the default settings the generator's independent classifier and the matcher agree
      on every planned transaction. */
  lemma GeneratorAgrees(p: Planned)
    ensures PredictedVerdict(Classify(p)) == PlanVerdict(p, DEFAULT_CONFIG)
    ensures Classify(p) == GatewayOnly <==> p.dropped
  {
    var dt := Abs(p.ledgerOccurred - p.occurred);
    assert dt == Abs(p.occurred - p.ledgerOccurred);
    assert Seconds(dt) > DRIFT_WINDOW_S <==> dt > 60_000_000;
    assert Seconds(dt) <= EXACT_WINDOW_S <==> dt <= 2_000_000;
  }

  /* ------------------------------- The tally ------------------------------- */

  datatype Tally = Tally(
    matched: nat,
    matchedExact: nat,
    matchedTimeDrift: nat,
    amountDrift: nat,
    unmatchedGatewayOnly: nat,
    unmatchedLedgerOnly: nat,
    duplicates: nat)

  const EMPTY_TALLY := Tally(0, 0, 0, 0, 0, 0, 0)

  function Recorded(t: Tally, p: Planned): Tally {
    var u := match Classify(p)
      case MatchedExact => t.(matched := t.matched + 1, matchedExact := t.matchedExact + 1)
      case MatchedTimeDrift => t.(matched := t.matched + 1, matchedTimeDrift := t.matchedTimeDrift + 1)
      case DriftedAmount => t.(amountDrift := t.amountDrift + 1)
      case GatewayOnly => t.(unmatchedGatewayOnly := t.unmatchedGatewayOnly + 1)
      case BothUnmatched =>
        t.(unmatchedGatewayOnly := t.unmatchedGatewayOnly + 1, unmatchedLedgerOnly := t.unmatchedLedgerOnly + 1);
    if p.duplicate then u.(duplicates := u.duplicates + 1) else u
  }

  function TallyColumn(t: Tally, col: Column): nat {
    match col
    case CMatched => t.matched
    case CUnmatchedGateway => t.unmatchedGatewayOnly
    case CUnmatchedLedger => t.unmatchedLedgerOnly
    case CTimeDrift => t.matchedTimeDrift
    case CDuplicates => t.duplicates
    case CDrift => t.amountDrift
  }

  /** What a planned transaction contributes to a column, by the matcher's own verdict. */
  function Expected(p: Planned, cfg: Config, col: Column): nat {
    var v := PlanVerdict(p, cfg);
    match col
    case CMatched => if v.Some? && v.value.status == Matched then 1 else 0
    case CUnmatchedGateway => if v.None? then 1 else 0
    case CUnmatchedLedger => if v.None? && !p.dropped then 1 else 0
    case CTimeDrift => if v.Some? && v.value.layer == ByTimeDrift then 1 else 0
    case CDuplicates => if p.duplicate then 1 else 0
    case CDrift => if v.Some? && v.value.status == AmountDrift then 1 else 0
  }

  predicate LayerVerdict(v: Verdict) {
    v in {Verdict(Matched, ByExact), Verdict(Matched, ByTimeDrift), Verdict(AmountDrift, ByAmountDrift)}
  }

  lemma VerdictShape(p: Planned, cfg: Config)
    ensures PlanVerdict(p, cfg).Some? ==> !p.dropped && LayerVerdict(PlanVerdict(p, cfg).value)
  {
    if PlanVerdict(p, cfg).Some? {
      ViableAgrees(PlannedFacts(p, Gateway, 0, 0, 0), PlannedFacts(p, Ledger, 0, 0, 0), cfg);
    }
  }

  /** Recording a transaction moves every column by what the matcher will make of it, and the
      exact matches by the layer-1 verdicts. */
  lemma RecordedFollowsMatcher(t: Tally, p: Planned, col: Column)
    ensures TallyColumn(Recorded(t, p), col) == TallyColumn(t, col) + Expected(p, DEFAULT_CONFIG, col)
    ensures Recorded(t, p).matchedExact
            == t.matchedExact + if PlanVerdict(p, DEFAULT_CONFIG) == Some(Verdict(Matched, ByExact)) then 1 else 0
  {
    GeneratorAgrees(p);
    VerdictShape(p, DEFAULT_CONFIG);
    hide PlanVerdict, Classify;
  }

  /** The tally after the planner has recorded every transaction, in order. */
  function Truth(plan: seq<Planned>): Tally {
    if plan == [] then EMPTY_TALLY else Recorded(Truth(plan[..|plan| - 1]), plan[|plan| - 1])
  }

  /** The counters of a generator run; `Record` updates them in place. */
  class GroundTruth {
    var matched: nat
    var matchedExact: nat
    var matchedTimeDrift: nat
    var amountDrift: nat
    var unmatchedGatewayOnly: nat
    var unmatchedLedgerOnly: nat
    var duplicates: nat

    ghost function View(): Tally
      reads this
    {
      Tally(matched, matchedExact, matchedTimeDrift, amountDrift, unmatchedGatewayOnly, unmatchedLedgerOnly, duplicates)
    }

    constructor ()
      ensures View() == EMPTY_TALLY
    {
      matched, matchedExact, matchedTimeDrift, amountDrift := 0, 0, 0, 0;
      unmatchedGatewayOnly, unmatchedLedgerOnly, duplicates := 0, 0, 0;
    }

    /** Each counter moves by what the matcher will make of the transaction. */
    method Record(p: Planned)
      modifies this
      ensures forall col :: TallyColumn(View(), col) == TallyColumn(old(View()), col) + Expected(p, DEFAULT_CONFIG, col)
      ensures matchedExact ==
        old(matchedExact) + if PlanVerdict(p, DEFAULT_CONFIG) == Some(Verdict(Matched, ByExact)) then 1 else 0
      ensures View() == Recorded(old(View()), p)
    {
      ghost var before := View();
      forall col
        ensures TallyColumn(Recorded(before, p), col) == TallyColumn(before, col) + Expected(p, DEFAULT_CONFIG, col)
      {
        RecordedFollowsMatcher(before, p, col);
      }
      RecordedFollowsMatcher(before, p, CMatched);
      match Classify(p) {
        case MatchedExact =>
          matched := matched + 1;
          matchedExact := matchedExact + 1;
        case MatchedTimeDrift =>
          matched := matched + 1;
          matchedTimeDrift := matchedTimeDrift + 1;
        case DriftedAmount =>
          amountDrift := amountDrift + 1;
        case GatewayOnly =>
          unmatchedGatewayOnly := unmatchedGatewayOnly + 1;
        case BothUnmatched =>
          unmatchedGatewayOnly := unmatchedGatewayOnly + 1;
          unmatchedLedgerOnly := unmatchedLedgerOnly + 1;
      }
      if p.duplicate {
        duplicates := duplicates + 1;
      }
    }
  }

  /** The planner's recording loop. */
  method RecordAll(plan: seq<Planned>) returns (truth: GroundTruth)
    ensures fresh(truth) && truth.View() == Truth(plan)
  {
    truth := new GroundTruth();
    for i := 0 to |plan|
      invariant fresh(truth) && truth.View() == Truth(plan[..i])
    {
      truth.Record(plan[i]);
      assert plan[..i + 1][..i] == plan[..i];
    }
    assert plan[..|plan|] == plan;
  }

  /* -------------------- The browser generator's rules -------------------- */

  /** The backend's windows as the browser states them: milliseconds, basis points and minor
      units. */
  datatype Rules = Rules(exactWindowMs: int, driftWindowMs: int, amountDriftBps: int, amountDriftFloor: int)

  const BACKEND_RULES := Rules(2_000, 60_000, 100, 1_000)

  /** One planned pair in minor units and milliseconds. */
  datatype MinorTxn = MinorTxn(amount: int, ledgerAmount: int, occurredAt: int, ledgerOccurredAt: int, dropped: bool)

  function Max(a: int, b: int): int { if a < b then b else a }

  function ClassifyMinor(m: MinorTxn, rules: Rules): Prediction {
    if m.dropped then GatewayOnly
    else
      var dt := Abs(m.ledgerOccurredAt - m.occurredAt);
      if dt > rules.driftWindowMs then BothUnmatched
      else if m.ledgerAmount != m.amount then
        var tolerance := Max(Abs(m.amount) * rules.amountDriftBps, rules.amountDriftFloor * 10_000);
        if Abs(m.amount - m.ledgerAmount) * 10_000 <= tolerance then DriftedAmount else BothUnmatched
      else if dt <= rules.exactWindowMs then MatchedExact else MatchedTimeDrift
  }

  function Major(minor: int): real { minor as real / 100.0 }

  /** The same transaction in the backend's units. */
  function InMajorUnits(m: MinorTxn, txn: string, currency: string, duplicate: bool, gatewayKey: string,
                        ledgerKey: string): Planned {
    Planned(txn, Major(m.amount), Major(m.ledgerAmount), currency,
            m.occurredAt * 1000, m.ledgerOccurredAt * 1000, duplicate, m.dropped, gatewayKey, ledgerKey)
  }

  lemma MajorScales(x: int, y: int)
    ensures AbsReal(Major(x) - Major(y)) == Abs(x - y) as real / 100.0
    ensures AbsReal(Major(x)) == Abs(x) as real / 100.0
    ensures Major(x) == Major(y) <==> x == y
  {
  }

  /** The integer basis-point rules and the decimal rules are the same rules. */
  lemma IntegerRulesAgree(m: MinorTxn, txn: string, currency: string, duplicate: bool, gatewayKey: string,
                          ledgerKey: string)
    ensures ClassifyMinor(m, BACKEND_RULES)
         == Classify(InMajorUnits(m, txn, currency, duplicate, gatewayKey, ledgerKey))
  {
    var p := InMajorUnits(m, txn, currency, duplicate, gatewayKey, ledgerKey);
    var dt := Abs(m.ledgerOccurredAt - m.occurredAt);
    assert Abs(p.ledgerOccurred - p.occurred) == dt * 1000;
    assert Seconds(dt * 1000) > DRIFT_WINDOW_S <==> dt > 60_000;
    assert Seconds(dt * 1000) <= EXACT_WINDOW_S <==> dt <= 2_000;
    MajorScales(m.ledgerAmount, m.amount);
    MajorScales(m.amount, m.ledgerAmount);
    var d, a := Abs(m.amount - m.ledgerAmount), Abs(m.amount);
    var decimal := MaxReal(AbsReal(p.amount) * AMOUNT_DRIFT_PCT, AMOUNT_DRIFT_ABS);
    assert d * 10_000 <= Max(a * 100, 1_000 * 10_000)
           <==> d as real / 100.0 <= MaxReal(a as real / 100.0 * 0.01, 10.0);
  }

  /** The matcher's configuration under these rules. */
  function ConfigOf(rules: Rules): Config {
    Config(rules.exactWindowMs * 1000, rules.driftWindowMs * 1000,
           rules.amountDriftBps as real / 10000.0, rules.amountDriftFloor as real / 100.0)
  }

  lemma TolerancesAgree(a: nat, d: nat, bps: int, floor: int)
    ensures d * 10_000 <= Max(a * bps, floor * 10_000)
       <==> d as real / 100.0 <= MaxReal(a as real / 100.0 * (bps as real / 10000.0), floor as real / 100.0)
  {
    var p := a * bps;
    assert p as real == a as real * bps as real;
    assert a as real / 100.0 * (bps as real / 10000.0) == p as real / 1000000.0;
  }

  /** The prediction and the matcher agree about this transaction under these rules. */
  predicate PredictsUnder(m: MinorTxn, rules: Rules) {
    PredictedVerdict(ClassifyMinor(m, rules))
    == PlanVerdict(InMajorUnits(m, "t", "INR", false, "g", "l"), ConfigOf(rules))
  }

  lemma PredictsWhenNested(m: MinorTxn, rules: Rules)
    requires rules.exactWindowMs <= rules.driftWindowMs || rules.exactWindowMs < 0
    ensures PredictsUnder(m, rules)
  {
    var dt := Abs(m.ledgerOccurredAt - m.occurredAt);
    assert Abs(m.occurredAt * 1000 - m.ledgerOccurredAt * 1000) == dt * 1000;
    AmountsAgree(m, rules);
    hide Max, AmountTolerance, AbsReal, Major;
  }

  lemma AmountsAgree(m: MinorTxn, rules: Rules)
    ensures Major(m.amount) == Major(m.ledgerAmount) <==> m.amount == m.ledgerAmount
    ensures AbsReal(Major(m.amount) - Major(m.ledgerAmount)) <= AmountTolerance(Major(m.amount), ConfigOf(rules))
       <==> Abs(m.amount - m.ledgerAmount) * 10_000
            <= Max(Abs(m.amount) * rules.amountDriftBps, rules.amountDriftFloor * 10_000)
  {
    MajorScales(m.amount, m.ledgerAmount);
    TolerancesAgree(Abs(m.amount), Abs(m.amount - m.ledgerAmount), rules.amountDriftBps, rules.amountDriftFloor);
    hide Max, MaxReal, AbsReal, Major;
  }

  /** Whatever windows and tolerances are configured, the browser's integer rules predict the
      matcher on every transaction if and only if the exact window lies inside the other. */
  lemma RulesPredictExactly(rules: Rules)
    ensures (forall m :: PredictsUnder(m, rules))
       <==> rules.exactWindowMs <= rules.driftWindowMs || rules.exactWindowMs < 0
  {
    if rules.exactWindowMs <= rules.driftWindowMs || rules.exactWindowMs < 0 {
      forall m ensures PredictsUnder(m, rules) { PredictsWhenNested(m, rules); }
    } else {
      var m := MinorTxn(100, 100, 0, rules.exactWindowMs, false);
      assert Abs(m.occurredAt * 1000 - m.ledgerOccurredAt * 1000) == rules.exactWindowMs * 1000;
      assert !PredictsUnder(m, rules);
    }
  }
}
