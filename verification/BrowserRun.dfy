/** The browser's synthetic runs: rows with injected defects, the tally of what was injected,
    and the panel that lines it up with what the engine reports. */
module BrowserRun {
  import opened Decimals
  import opened Matching
  import opened Protocol
  import opened Safety
  import opened Conservation
  import opened Tables
  import opened Stats
  import opened Workload
  import opened Accuracy
  import opened Schedule
  import opened DerivedKeys

  /* ------------------------------------ Keys ------------------------------------ */

  function Zeros(n: nat): string { seq(n, _ => '0') }

  /** At least six digits. */
  function Padded(n: nat): string {
    var digits := Digits(n);
    if |digits| >= 6 then digits else Zeros(6 - |digits|) + digits
  }

  function TxnId(runId: string, i: nat): string { "TXN-" + runId + "-" + Padded(i) }

  function GeneratedKey(side: Side, runId: string, i: nat): string {
    (if side.Gateway? then "gw-" else "ldg-") + runId + "-" + TxnId(runId, i)
  }

  lemma {:induction false} LeadingZeros(n: nat, s: string)
    requires AllDigits(s)
    ensures AllDigits(Zeros(n) + s) && ValueOf(Zeros(n) + s) == ValueOf(s)
    decreases |s|, n
  {
    if s == [] {
      if n > 0 {
        LeadingZeros(n - 1, s);
        assert Zeros(n) + s == (Zeros(n - 1) + s) + ['0'];
        assert (Zeros(n) + s)[..n - 1] == Zeros(n - 1) + s;
      }
    } else {
      var front := s[..|s| - 1];
      LeadingZeros(n, front);
      assert (Zeros(n) + s)[..n + |s| - 1] == Zeros(n) + front;
    }
  }

  lemma PaddedInjective(i: nat, j: nat)
    ensures AllDigits(Padded(i)) && (Padded(i) == Padded(j) ==> i == j)
  {
    var a, b := Digits(i), Digits(j);
    if |a| < 6 { LeadingZeros(6 - |a|, a); }
    if |b| < 6 { LeadingZeros(6 - |b|, b); }
    ValueOfDigits(i);
    ValueOfDigits(j);
  }

  lemma PaddedHasNoDash(i: nat)
    ensures '-' !in Padded(i)
  {
    PaddedInjective(i, i);
    forall k | 0 <= k < |Padded(i)| ensures Padded(i)[k] != '-' { assert IsDigit(Padded(i)[k]); }
  }

  function Stem(side: Side, runId: string): string {
    (if side.Gateway? then "gw-" else "ldg-") + runId + "-TXN-" + runId
  }

  lemma KeySplits(side: Side, runId: string, i: nat)
    ensures GeneratedKey(side, runId, i) == Stem(side, runId) + ['-'] + Padded(i)
  {
    hide Padded;
    var head := (if side.Gateway? then "gw-" else "ldg-") + runId;
    assert head + "-" + ("TXN-" + runId + "-" + Padded(i)) == head + "-TXN-" + runId + ['-'] + Padded(i);
  }

  lemma StemInjective(s1: Side, r1: string, s2: Side, r2: string)
    requires Stem(s1, r1) == Stem(s2, r2)
    ensures s1 == s2 && r1 == r2
  {
    assert Stem(s1, r1)[0] == (if s1.Gateway? then 'g' else 'l');
    assert Stem(s2, r2)[0] == (if s2.Gateway? then 'g' else 'l');
    var n := if s1.Gateway? then 3 else 4;
    assert Stem(s1, r1)[n..n + |r1|] == r1;
    assert Stem(s2, r2)[n..n + |r2|] == r2;
  }

  /** Two generated rows share a key if and only if they are the same side of the same
      transaction of one run, whatever characters the run id holds. */
  lemma GeneratedKeysFaithful(s1: Side, r1: string, i: nat, s2: Side, r2: string, j: nat)
    ensures GeneratedKey(s1, r1, i) == GeneratedKey(s2, r2, j) <==> s1 == s2 && r1 == r2 && i == j
  {
    KeySplits(s1, r1, i);
    KeySplits(s2, r2, j);
    PaddedHasNoDash(i);
    PaddedHasNoDash(j);
    hide GeneratedKey, Stem, Padded;
    if GeneratedKey(s1, r1, i) == GeneratedKey(s2, r2, j) {
      SplitAtLast('-', Stem(s1, r1), Stem(s2, r2), Padded(i), Padded(j));
      StemInjective(s1, r1, s2, r2);
      PaddedInjective(i, j);
    }
  }

  lemma TxnIdInjective(runId: string, i: nat, j: nat)
    requires TxnId(runId, i) == TxnId(runId, j)
    ensures i == j
  {
    PaddedHasNoDash(i);
    PaddedHasNoDash(j);
    PaddedInjective(i, j);
    hide Padded;
    SplitAtLast('-', "TXN-" + runId, "TXN-" + runId, Padded(i), Padded(j));
  }

  /* ------------------------------- A generated run ------------------------------- */

  /** What the random draws made of one transaction. */
  datatype Draw = Draw(txn: MinorTxn, duplicate: bool)

  function PlannedDraw(d: Draw, currency: string, runId: string, i: nat): Planned {
    InMajorUnits(d.txn, TxnId(runId, i), currency, d.duplicate, GeneratedKey(Gateway, runId, i),
      GeneratedKey(Ledger, runId, i))
  }

  function PlanOf(draws: seq<Draw>, currency: string, runId: string): seq<Planned> {
    seq(|draws|, i requires 0 <= i < |draws| => PlannedDraw(draws[i], currency, runId, i))
  }

  lemma PlanIdsDistinct(draws: seq<Draw>, currency: string, runId: string)
    ensures DistinctIdsIn(PlanOf(draws, currency, runId)) && DistinctKeysIn(PlanOf(draws, currency, runId))
  {
    var plan := PlanOf(draws, currency, runId);
    hide TxnId, GeneratedKey;
    forall i, j | 0 <= i < |plan| && 0 <= j < |plan| && plan[i].txn == plan[j].txn ensures i == j {
      TxnIdInjective(runId, i, j);
    }
    forall i, j, side: Side | 0 <= i < |plan| && 0 <= j < |plan| && KeyOf(plan[i], side) == KeyOf(plan[j], side)
      ensures i == j
    {
      GeneratedKeysFaithful(side, runId, i, side, runId, j);
    }
  }

  datatype BrowserTruth = BrowserTruth(
    matchedExact: nat,
    matchedTimeDrift: nat,
    amountDrift: nat,
    unmatchedGatewayOnly: nat,
    unmatchedBoth: nat,
    duplicates: nat,
    gatewayRows: nat,
    ledgerRows: nat)

  const NO_TRUTH := BrowserTruth(0, 0, 0, 0, 0, 0, 0, 0)

  /** The browser counts a pair with both rows alone once, the load script on both sides. */
  predicate SameTruth(truth: BrowserTruth, tally: Tally) {
    && truth.matchedExact == tally.matchedExact
    && truth.matchedTimeDrift == tally.matchedTimeDrift
    && truth.amountDrift == tally.amountDrift
    && truth.unmatchedGatewayOnly + truth.unmatchedBoth == tally.unmatchedGatewayOnly
    && truth.unmatchedBoth == tally.unmatchedLedgerOnly
    && truth.duplicates == tally.duplicates
  }

  /** How many of the rows carry the key. */
  function Carrying(rows: seq<SourceRow>, key: string): nat {
    if rows == [] then 0 else Carrying(rows[..|rows| - 1], key) + if rows[|rows| - 1].key == key then 1 else 0
  }

  lemma CarryingAppend(rows: seq<SourceRow>, row: SourceRow, key: string)
    ensures Carrying(rows + [row], key) == Carrying(rows, key) + if row.key == key then 1 else 0
  {
    assert (rows + [row])[..|rows|] == rows;
  }

  /** The row is one side of transaction `i`. */
  predicate RowOf(d: Draw, currency: string, runId: string, i: nat, row: SourceRow) {
    && row.txn == TxnId(runId, i) && row.currency == currency && row.key == GeneratedKey(row.side, runId, i)
    && row.amount == (if row.side.Gateway? then d.txn.amount else d.txn.ledgerAmount)
    && row.occurredAt == (if row.side.Gateway? then d.txn.occurredAt else d.txn.ledgerOccurredAt)
  }

  /** Every row is a side of a planned transaction. */
  ghost predicate RowsPlannedIn(draws: seq<Draw>, currency: string, runId: string, side: Side, rows: seq<SourceRow>) {
    forall r :: r in rows ==>
      r.side == side && exists i: nat :: i < |draws| && RowOf(draws[i], currency, runId, i, r)
  }

  /** A duplicate is one more submission of the gateway's row; a dropped ledger row is never
      emitted. */
  function Copies(d: Draw, side: Side): nat {
    match side
    case Gateway => if d.duplicate then 2 else 1
    case Ledger => if d.txn.dropped then 0 else 1
  }

  /** The first `n` transactions are in the file as often as they should be, the others not. */
  ghost predicate Emitted(draws: seq<Draw>, runId: string, side: Side, n: nat, rows: seq<SourceRow>) {
    forall k :: 0 <= k < |draws| ==>
      Carrying(rows, GeneratedKey(side, runId, k)) == if k < n then Copies(draws[k], side) else 0
  }

  function Counted(truth: BrowserTruth, c: Prediction): BrowserTruth {
    match c
    case MatchedExact => truth.(matchedExact := truth.matchedExact + 1)
    case MatchedTimeDrift => truth.(matchedTimeDrift := truth.matchedTimeDrift + 1)
    case DriftedAmount => truth.(amountDrift := truth.amountDrift + 1)
    case GatewayOnly => truth.(unmatchedGatewayOnly := truth.unmatchedGatewayOnly + 1)
    case BothUnmatched => truth.(unmatchedBoth := truth.unmatchedBoth + 1)
  }

  /** The counters after transaction `d`. */
  function TruthAfter(truth: BrowserTruth, d: Draw): BrowserTruth {
    var counted := Counted(truth, ClassifyMinor(d.txn, BACKEND_RULES));
    if d.duplicate then counted.(duplicates := counted.duplicates + 1) else counted
  }

  /** Counting a transaction keeps the two tallies alike. */
  lemma CountedAlike(truth: BrowserTruth, tally: Tally, d: Draw, p: Planned)
    requires SameTruth(truth, tally) && Classify(p) == ClassifyMinor(d.txn, BACKEND_RULES) && p.duplicate == d.duplicate
    ensures var after := TruthAfter(truth, d);
      && SameTruth(after, Recorded(tally, p))
      && after.duplicates == truth.duplicates + (if d.duplicate then 1 else 0)
      && after.unmatchedGatewayOnly == truth.unmatchedGatewayOnly + if d.txn.dropped then 1 else 0
  {
    assert ClassifyMinor(d.txn, BACKEND_RULES) == GatewayOnly <==> d.txn.dropped;
    hide Classify, ClassifyMinor;
  }

  function SideRow(d: Draw, currency: string, runId: string, i: nat, side: Side, line: nat): SourceRow {
    SourceRow(side, line, TxnId(runId, i), if side.Gateway? then d.txn.amount else d.txn.ledgerAmount, currency,
              if side.Gateway? then d.txn.occurredAt else d.txn.ledgerOccurredAt, GeneratedKey(side, runId, i))
  }

  /** The first `i` transactions are in the file, and transaction `i` so many times so far. */
  ghost predicate EmittedSoFar(draws: seq<Draw>, runId: string, side: Side, i: nat, times: nat, rows: seq<SourceRow>) {
    forall k :: 0 <= k < |draws| ==>
      Carrying(rows, GeneratedKey(side, runId, k))
      == (if k < i then Copies(draws[k], side) else if k == i then times else 0)
  }

  /** A row of transaction `i` carries no other transaction's key. */
  lemma RowEmitted(draws: seq<Draw>, currency: string, runId: string, side: Side, i: nat, times: nat,
                   rows: seq<SourceRow>, line: nat)
    requires i < |draws| && EmittedSoFar(draws, runId, side, i, times, rows)
    requires RowsPlannedIn(draws, currency, runId, side, rows)
    ensures var more := rows + [SideRow(draws[i], currency, runId, i, side, line)];
      RowsPlannedIn(draws, currency, runId, side, more) && EmittedSoFar(draws, runId, side, i, times + 1, more)
  {
    var row := SideRow(draws[i], currency, runId, i, side, line);
    RowIsPlanned(draws, currency, runId, i, side, line, rows);
    hide GeneratedKey, Carrying, RowsPlannedIn;
    forall k | 0 <= k < |draws|
      ensures Carrying(rows + [row], GeneratedKey(side, runId, k))
           == Carrying(rows, GeneratedKey(side, runId, k)) + if k == i then 1 else 0
    {
      CarryingAppend(rows, row, GeneratedKey(side, runId, k));
      GeneratedKeysFaithful(side, runId, k, side, runId, i);
    }
  }

  lemma RowIsPlanned(draws: seq<Draw>, currency: string, runId: string, i: nat, side: Side, line: nat,
                     rows: seq<SourceRow>)
    requires i < |draws| && RowsPlannedIn(draws, currency, runId, side, rows)
    ensures RowsPlannedIn(draws, currency, runId, side, rows + [SideRow(draws[i], currency, runId, i, side, line)])
  {
    var row := SideRow(draws[i], currency, runId, i, side, line);
    assert RowOf(draws[i], currency, runId, i, row);
    hide RowOf, SideRow;
  }

  /** The gateway's row of transaction `i`, and its retry. */
  method EmitGateway(draws: seq<Draw>, currency: string, runId: string, i: nat, rows: seq<SourceRow>, line: nat)
    returns (more: seq<SourceRow>, next: nat)
    requires i < |draws| && RowsPlannedIn(draws, currency, runId, Gateway, rows)
    requires Emitted(draws, runId, Gateway, i, rows)
    ensures RowsPlannedIn(draws, currency, runId, Gateway, more) && Emitted(draws, runId, Gateway, i + 1, more)
    ensures |more| == |rows| + (if draws[i].duplicate then 2 else 1)
  {
    assert EmittedSoFar(draws, runId, Gateway, i, 0, rows);
    hide GeneratedKey, Carrying, SideRow, RowsPlannedIn;
    RowEmitted(draws, currency, runId, Gateway, i, 0, rows, line);
    more, next := rows + [SideRow(draws[i], currency, runId, i, Gateway, line)], line + 1;
    if draws[i].duplicate {
      RowEmitted(draws, currency, runId, Gateway, i, 1, more, next);
      more, next := more + [SideRow(draws[i], currency, runId, i, Gateway, next)], next + 1;
    }
  }

  /** The ledger's row of transaction `i`, unless it was dropped. */
  method EmitLedger(draws: seq<Draw>, currency: string, runId: string, i: nat, rows: seq<SourceRow>, line: nat)
    returns (more: seq<SourceRow>, next: nat)
    requires i < |draws| && RowsPlannedIn(draws, currency, runId, Ledger, rows)
    requires Emitted(draws, runId, Ledger, i, rows)
    ensures RowsPlannedIn(draws, currency, runId, Ledger, more) && Emitted(draws, runId, Ledger, i + 1, more)
    ensures |more| == |rows| + if draws[i].txn.dropped then 0 else 1
  {
    assert EmittedSoFar(draws, runId, Ledger, i, 0, rows);
    hide GeneratedKey, Carrying, SideRow, RowsPlannedIn;
    more, next := rows, line;
    if !draws[i].txn.dropped {
      RowEmitted(draws, currency, runId, Ledger, i, 0, rows, line);
      more, next := rows + [SideRow(draws[i], currency, runId, i, Ledger, line)], line + 1;
    }
  }

  /** The state of the loop after `n` transactions. */
  ghost predicate Generated(draws: seq<Draw>, currency: string, runId: string, n: nat, gateway: seq<SourceRow>,
                            ledger: seq<SourceRow>, truth: BrowserTruth)
    requires n <= |draws|
  {
    && SameTruth(truth, Truth(PlanOf(draws, currency, runId)[..n]))
    && |gateway| == n + truth.duplicates && |ledger| == n - truth.unmatchedGatewayOnly
    && RowsPlannedIn(draws, currency, runId, Gateway, gateway) && Emitted(draws, runId, Gateway, n, gateway)
    && RowsPlannedIn(draws, currency, runId, Ledger, ledger) && Emitted(draws, runId, Ledger, n, ledger)
  }

  lemma GeneratedOneMore(draws: seq<Draw>, currency: string, runId: string, n: nat, gateway: seq<SourceRow>,
                         ledger: seq<SourceRow>, truth: BrowserTruth, moreG: seq<SourceRow>, moreL: seq<SourceRow>)
    requires n < |draws| && Generated(draws, currency, runId, n, gateway, ledger, truth)
    requires RowsPlannedIn(draws, currency, runId, Gateway, moreG) && Emitted(draws, runId, Gateway, n + 1, moreG)
    requires RowsPlannedIn(draws, currency, runId, Ledger, moreL) && Emitted(draws, runId, Ledger, n + 1, moreL)
    requires |moreG| == |gateway| + if draws[n].duplicate then 2 else 1
    requires |moreL| == |ledger| + if draws[n].txn.dropped then 0 else 1
    ensures Generated(draws, currency, runId, n + 1, moreG, moreL, TruthAfter(truth, draws[n]))
  {
    hide PlanOf, Truth, Recorded, Classify, ClassifyMinor, Counted, SameTruth, RowsPlannedIn, Emitted;
    var plan := PlanOf(draws, currency, runId);
    PlanStep(draws, currency, runId, n);
    CountedAlike(truth, Truth(plan[..n]), draws[n], plan[n]);
  }

  lemma GeneratedParts(draws: seq<Draw>, currency: string, runId: string, n: nat, gateway: seq<SourceRow>,
                       ledger: seq<SourceRow>, truth: BrowserTruth)
    requires n < |draws| && Generated(draws, currency, runId, n, gateway, ledger, truth)
    ensures RowsPlannedIn(draws, currency, runId, Gateway, gateway) && Emitted(draws, runId, Gateway, n, gateway)
    ensures RowsPlannedIn(draws, currency, runId, Ledger, ledger) && Emitted(draws, runId, Ledger, n, ledger)
    ensures var d, counted := draws[n], Counted(truth, ClassifyMinor(draws[n].txn, BACKEND_RULES));
      TruthAfter(truth, d) == if d.duplicate then counted.(duplicates := counted.duplicates + 1) else counted
  {
  }

  lemma NothingGenerated(draws: seq<Draw>, currency: string, runId: string)
    ensures Generated(draws, currency, runId, 0, [], [], NO_TRUTH)
  {
    assert PlanOf(draws, currency, runId)[..0] == [];
  }

  lemma AllGenerated(draws: seq<Draw>, currency: string, runId: string, gateway: seq<SourceRow>,
                     ledger: seq<SourceRow>, truth: BrowserTruth)
    requires Generated(draws, currency, runId, |draws|, gateway, ledger, truth)
    ensures SameTruth(truth.(gatewayRows := |gateway|, ledgerRows := |ledger|), Truth(PlanOf(draws, currency, runId)))
    ensures |gateway| == |draws| + truth.duplicates && |ledger| == |draws| - truth.unmatchedGatewayOnly
    ensures RowsPlannedIn(draws, currency, runId, Gateway, gateway) && Emitted(draws, runId, Gateway, |draws|, gateway)
    ensures RowsPlannedIn(draws, currency, runId, Ledger, ledger) && Emitted(draws, runId, Ledger, |draws|, ledger)
  {
    assert PlanOf(draws, currency, runId)[..|draws|] == PlanOf(draws, currency, runId);
  }

  /** The loop over the transactions: count what each will come to, then write its rows. */
  method Generate(draws: seq<Draw>, currency: string, runId: string)
    returns (gateway: seq<SourceRow>, ledger: seq<SourceRow>, truth: BrowserTruth)
    ensures SameTruth(truth, Truth(PlanOf(draws, currency, runId)))
    ensures truth.gatewayRows == |gateway| == |draws| + truth.duplicates
    ensures truth.ledgerRows == |ledger| == |draws| - truth.unmatchedGatewayOnly
    ensures RowsPlannedIn(draws, currency, runId, Gateway, gateway) && Emitted(draws, runId, Gateway, |draws|, gateway)
    ensures RowsPlannedIn(draws, currency, runId, Ledger, ledger) && Emitted(draws, runId, Ledger, |draws|, ledger)
  {
    hide *;
    gateway, ledger, truth := [], [], NO_TRUTH;
    var line := 1;
    NothingGenerated(draws, currency, runId);
    for i := 0 to |draws|
      invariant Generated(draws, currency, runId, i, gateway, ledger, truth)
    {
      var d := draws[i];
      ghost var g0, l0, t0 := gateway, ledger, truth;
      GeneratedParts(draws, currency, runId, i, gateway, ledger, truth);
      truth := Counted(truth, ClassifyMinor(d.txn, BACKEND_RULES));
      gateway, line := EmitGateway(draws, currency, runId, i, gateway, line);
      if d.duplicate { truth := truth.(duplicates := truth.duplicates + 1); }
      ledger, line := EmitLedger(draws, currency, runId, i, ledger, line);
      GeneratedOneMore(draws, currency, runId, i, g0, l0, t0, gateway, ledger);
    }
    AllGenerated(draws, currency, runId, gateway, ledger, truth);
    truth := truth.(gatewayRows := |gateway|, ledgerRows := |ledger|);
  }

  lemma PlanStep(draws: seq<Draw>, currency: string, runId: string, i: nat)
    requires i < |draws|
    ensures var plan := PlanOf(draws, currency, runId);
      && |plan| == |draws| && plan[i].duplicate == draws[i].duplicate
      && Classify(plan[i]) == ClassifyMinor(draws[i].txn, BACKEND_RULES)
      && Truth(plan[..i + 1]) == Recorded(Truth(plan[..i]), plan[i])
  {
    var plan := PlanOf(draws, currency, runId);
    IntegerRulesAgree(draws[i].txn, TxnId(runId, i), currency, draws[i].duplicate, GeneratedKey(Gateway, runId, i),
      GeneratedKey(Ledger, runId, i));
    assert plan[..i + 1][..i] == plan[..i];
    hide Recorded, ClassifyMinor, Classify, TxnId, GeneratedKey;
  }

  /* --------------------------- Injected against detected --------------------------- */

  datatype DetectedCounts = DetectedCounts(
    matchedExact: nat,
    matchedTimeDrift: nat,
    amountDrift: nat,
    unmatchedGateway: nat,
    unmatchedLedger: nat,
    duplicates: nat)

  /** What the dashboard reads off the stats endpoint's answer. */
  function Detected(stats: StatsRow): DetectedCounts {
    DetectedCounts(
      if stats.matched >= stats.viaTimeDrift then stats.matched - stats.viaTimeDrift else 0,
      stats.viaTimeDrift, stats.drift, stats.unmatchedGateway, stats.unmatchedLedger, stats.duplicates)
  }

  datatype TruthCheck = TruthCheck(caption: string, injected: nat, detected: nat, agrees: bool)

  function Line(caption: string, injected: nat, detected: nat): TruthCheck {
    TruthCheck(caption, injected, detected, injected == detected)
  }

  function CompareToTruth(truth: BrowserTruth, detected: DetectedCounts): seq<TruthCheck> {
    [
      Line("Matched exact", truth.matchedExact, detected.matchedExact),
      Line("Matched time drift", truth.matchedTimeDrift, detected.matchedTimeDrift),
      Line("Amount drift", truth.amountDrift, detected.amountDrift),
      Line("Unmatched gateway", truth.unmatchedGatewayOnly + truth.unmatchedBoth, detected.unmatchedGateway),
      Line("Unmatched ledger", truth.unmatchedBoth, detected.unmatchedLedger),
      Line("Duplicates", truth.duplicates, detected.duplicates)
    ]
  }

  /** A line agrees exactly when its two numbers are one, and the panel as a whole exactly when
      the engine reports what was injected. */
  lemma PanelIsExact(truth: BrowserTruth, d: DetectedCounts)
    ensures (forall check :: check in CompareToTruth(truth, d) ==> check.agrees) <==>
      && truth.matchedExact == d.matchedExact && truth.matchedTimeDrift == d.matchedTimeDrift
      && truth.amountDrift == d.amountDrift && truth.duplicates == d.duplicates
      && truth.unmatchedGatewayOnly + truth.unmatchedBoth == d.unmatchedGateway
      && truth.unmatchedBoth == d.unmatchedLedger
    ensures forall check :: check in CompareToTruth(truth, d) ==> (check.agrees <==> check.injected == check.detected)
  {
    var lines := CompareToTruth(truth, d);
    assert lines[0] in lines && lines[1] in lines && lines[2] in lines;
    assert lines[3] in lines && lines[4] in lines && lines[5] in lines;
  }

  /** A result of the tenant resolved before the window is missing from some column. */
  lemma EarlierShows(st: Settings, db: Db, t: nat, cutoff: int)
    requires AllJustified(st, db) && !AllRecent(db, t, cutoff)
    ensures exists col :: col in {CMatched, CUnmatchedGateway, CUnmatchedLedger, CDuplicates, CDrift}
                          && |Earlier(db, t, cutoff, col)| > 0
  {
    var r :| r in db.results && db.results[r].tenant == t && db.results[r].resolvedAt < cutoff;
    assert Justified(st, db, db.results[r]);
    var col := match db.results[r].status
      case Matched => CMatched
      case UnmatchedGatewayOnly => CUnmatchedGateway
      case UnmatchedLedgerOnly => CUnmatchedLedger
      case Duplicate => CDuplicates
      case _ => CDrift;
    assert r in Earlier(db, t, cutoff, col);
  }

  /** Injected equals detected: after any complete run of a generated plan, under the default
      settings, every line of the panel agrees if and only if the window takes in all of the
      tenant's results. */
  lemma {:induction false} InjectedIsDetected(st: Settings, draws: seq<Draw>, currency: string, runId: string,
                                              truth: BrowserTruth, t: nat, run: Run, cutoff: int)
    requires st.cfg == DEFAULT_CONFIG && SameTruth(truth, Truth(PlanOf(draws, currency, runId)))
    requires IsRun(st, run) && CompleteRun(PlanOf(draws, currency, runId), t, run)
    ensures var db := run.states[|run.steps|].db;
      (forall check :: check in CompareToTruth(truth, Detected(FetchStats(db, t, cutoff))) ==> check.agrees)
      <==> AllRecent(db, t, cutoff)
  {
    var db, plan := run.states[|run.steps|].db, PlanOf(draws, currency, runId);
    hide PlanOf, CompleteRun, AllRecent, Truth, FetchStats, DistinctIdsIn, DistinctKeysIn, CompareToTruth, Earlier;
    PlanIdsDistinct(draws, currency, runId);
    CountsWithinWindow(st, plan, t, run, cutoff);
    MatchedSplits(plan);
    PanelIsExact(truth, Detected(FetchStats(db, t, cutoff)));
    RunKeepsInv(st, run, |run.steps|);
    TimeDriftAmongMatches(st, db, t, cutoff);
    if AllRecent(db, t, cutoff) {
      forall col ensures Earlier(db, t, cutoff, col) == {} { NothingEarlier(db, t, cutoff, col); }
    } else {
      EarlierShows(st, db, t, cutoff);
    }
  }
}
