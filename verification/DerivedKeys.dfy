/** Rows of an uploaded file on their way to the API: validation with every refusal counted,
    and the idempotency key derived from a row's own content. */
module DerivedKeys {
  import opened Basics
  import opened Decimals
  import opened Matching
  import opened Money

  function SideName(side: Side): string { if side.Gateway? then "gateway" else "ledger" }

  function Body(side: Side, txn: string, amount: int, occurredAt: int): string {
    SideName(side) + ":" + txn + ":" + Signed(amount) + ":" + Signed(occurredAt)
  }

  function DeriveKey(side: Side, txn: string, amount: int, occurredAt: int, prefix: string): string {
    var body := Body(side, txn, amount, occurredAt);
    if prefix == "" then body else prefix + ":" + body
  }

  /** Under one prefix, equal keys mean equal content, whatever colons a txn_id holds. */
  lemma KeysFaithful(s1: Side, t1: string, a1: int, o1: int, s2: Side, t2: string, a2: int, o2: int, prefix: string)
    ensures DeriveKey(s1, t1, a1, o1, prefix) == DeriveKey(s2, t2, a2, o2, prefix)
            <==> s1 == s2 && t1 == t2 && a1 == a2 && o1 == o2
  {
    if DeriveKey(s1, t1, a1, o1, prefix) == DeriveKey(s2, t2, a2, o2, prefix) {
      var b1, b2 := Body(s1, t1, a1, o1), Body(s2, t2, a2, o2);
      if prefix != "" {
        var p := prefix + ":";
        assert b1 == (p + b1)[|p|..] && b2 == (p + b2)[|p|..];
      }
      BodiesFaithful(s1, t1, a1, o1, s2, t2, a2, o2);
    }
  }

  lemma BodiesFaithful(s1: Side, t1: string, a1: int, o1: int, s2: Side, t2: string, a2: int, o2: int)
    requires Body(s1, t1, a1, o1) == Body(s2, t2, a2, o2)
    ensures s1 == s2 && t1 == t2 && a1 == a2 && o1 == o2
  {
    SignedHasNoColon(o1);
    SignedHasNoColon(o2);
    SignedHasNoColon(a1);
    SignedHasNoColon(a2);
    var h1, h2 := SideName(s1) + ":" + t1, SideName(s2) + ":" + t2;
    SplitAtLast(':', h1 + ":" + Signed(a1), h2 + ":" + Signed(a2), Signed(o1), Signed(o2));
    SplitAtLast(':', h1, h2, Signed(a1), Signed(a2));
    SplitAtFirst(':', SideName(s1), SideName(s2), t1, t2);
    SignedInjective(a1, a2);
    SignedInjective(o1, o2);
  }

  /** Some row keyed under prefix `p` and some row keyed under `q` share a key. */
  ghost predicate PrefixesCollide(p: string, q: string) {
    exists s1, t1, a1, o1, s2, t2, a2, o2 ::
      DeriveKey(s1, t1, a1, o1, p) == DeriveKey(s2, t2, a2, o2, q)
  }

  /** The absent prefix against one that is the name of a side. */
  predicate LooksUnprefixed(p: string, q: string) { p == "" && (q == "gateway" || q == "ledger") }

  lemma PrefixReadOff(s1: Side, t1: string, a1: int, o1: int, s2: Side, t2: string, a2: int, o2: int, p: string,
                      q: string)
    requires p != "" && q != "" && ':' !in p && ':' !in q
    requires DeriveKey(s1, t1, a1, o1, p) == DeriveKey(s2, t2, a2, o2, q)
    ensures p == q
  {
    SplitAtFirst(':', p, q, Body(s1, t1, a1, o1), Body(s2, t2, a2, o2));
  }

  function Tail(txn: string, amount: int, occurredAt: int): string {
    txn + ":" + Signed(amount) + ":" + Signed(occurredAt)
  }

  lemma BodySplits(side: Side, txn: string, amount: int, occurredAt: int)
    ensures Body(side, txn, amount, occurredAt) == SideName(side) + ":" + Tail(txn, amount, occurredAt)
  {
    hide Signed, SideName;
  }

  lemma UnprefixedStartsWithSide(s1: Side, t1: string, a1: int, o1: int, s2: Side, t2: string, a2: int, o2: int,
                                 q: string)
    requires q != "" && ':' !in q
    requires DeriveKey(s1, t1, a1, o1, "") == DeriveKey(s2, t2, a2, o2, q)
    ensures q == SideName(s1)
  {
    hide Body, Tail;
    BodySplits(s1, t1, a1, o1);
    SideHasNoColon(s1);
    hide SideName;
    SplitAtFirst(':', SideName(s1), q, Tail(t1, a1, o1), Body(s2, t2, a2, o2));
  }

  lemma SideHasNoColon(side: Side)
    ensures ':' !in SideName(side)
  {
  }

  /** A txn_id that begins with a side's name makes the key of a row prefixed with the other
      word. */
  lemma SideNameCollides(s: Side)
    ensures DeriveKey(s, "gateway:t", 1, 0, "") == DeriveKey(Gateway, "t", 1, 0, SideName(s))
  {
    BodySplits(s, "gateway:t", 1, 0);
    BodySplits(Gateway, "t", 1, 0);
    hide Signed, Body;
    assert SideName(Gateway) + ":" + Tail("t", 1, 0) == Tail("gateway:t", 1, 0);
    assert SideName(s) != "";
  }

  /** Two different prefixes without colons can produce one key if and only if one is absent
      and the other is the name of a side. */
  lemma PrefixesCollideExactly(p: string, q: string)
    requires p != q && ':' !in p && ':' !in q
    ensures PrefixesCollide(p, q) <==> LooksUnprefixed(p, q) || LooksUnprefixed(q, p)
  {
    if s1, t1, a1, o1, s2, t2, a2, o2 :| DeriveKey(s1, t1, a1, o1, p) == DeriveKey(s2, t2, a2, o2, q) {
      if p == "" {
        UnprefixedStartsWithSide(s1, t1, a1, o1, s2, t2, a2, o2, q);
      } else if q == "" {
        UnprefixedStartsWithSide(s2, t2, a2, o2, s1, t1, a1, o1, p);
      } else {
        PrefixReadOff(s1, t1, a1, o1, s2, t2, a2, o2, p, q);
      }
    }
    SideNameCollides(Gateway);
    SideNameCollides(Ledger);
    hide DeriveKey;
    if LooksUnprefixed(p, q) {
      var s := if q == "gateway" then Gateway else Ledger;
      assert DeriveKey(s, "gateway:t", 1, 0, p) == DeriveKey(Gateway, "t", 1, 0, q);
    }
    if LooksUnprefixed(q, p) {
      var s := if p == "gateway" then Gateway else Ledger;
      assert DeriveKey(Gateway, "t", 1, 0, p) == DeriveKey(s, "gateway:t", 1, 0, q);
    }
  }

  /** So two different prefixes without colons, neither of them the name of a side, keep their
      rows apart, and so does such a prefix and none. */
  lemma PrefixesSeparate(p: string, q: string)
    requires p != q && ':' !in p && ':' !in q
    requires p != "gateway" && p != "ledger" && q != "gateway" && q != "ledger"
    ensures !PrefixesCollide(p, q)
  {
    hide PrefixesCollide;
    PrefixesCollideExactly(p, q);
  }

  /* --------------------------------- Coercion --------------------------------- */

  /** Column positions; negative when the field is unmapped. */
  datatype Columns = Columns(txn: int, amount: int, currency: int, timestamp: int, key: int)

  datatype SourceRow = SourceRow(
    side: Side,
    line: nat,
    txn: string,
    amount: int,
    currency: string,
    occurredAt: int,
    key: string)

  datatype Reason =
    | EmptyTxn
    | BadAmount(text: string)
    | ZeroAmount
    | BadTimestamp(text: string)
    | BadCurrency(code: string)

  datatype Coerced = Kept(row: SourceRow) | Refused(line: nat, reason: Reason)

  /** Fixed for one file; reading an instant and upper-casing are the platform's. */
  datatype Options = Options(
    side: Side,
    columns: Columns,
    fallbackCurrency: string,
    prefix: string,
    parseTimestamp: string -> Option<int>,
    upper: string -> string)

  const MAX_REPORTED := 50

  function Cell(cells: seq<string>, at: int): string { if 0 <= at < |cells| then cells[at] else "" }

  function TrimLeft(s: string): string { if s != [] && IsSpace(s[0]) then TrimLeft(s[1..]) else s }

  function TrimRight(s: string): string {
    if s != [] && IsSpace(s[|s| - 1]) then TrimRight(s[..|s| - 1]) else s
  }

  function Trim(s: string): string { TrimRight(TrimLeft(s)) }

  predicate AllBlank(s: string) { forall i :: 0 <= i < |s| ==> IsSpace(s[i]) }

  lemma {:induction false} TrimLeftCuts(s: string) returns (lead: string)
    ensures AllBlank(lead) && s == lead + TrimLeft(s) && (TrimLeft(s) != "" ==> !IsSpace(TrimLeft(s)[0]))
  {
    lead := "";
    if s != [] && IsSpace(s[0]) {
      var rest := TrimLeftCuts(s[1..]);
      lead := [s[0]] + rest;
    }
  }

  lemma {:induction false} TrimRightCuts(s: string) returns (trail: string)
    ensures AllBlank(trail) && s == TrimRight(s) + trail && (TrimRight(s) != "" ==> !IsSpace(Last(TrimRight(s))))
    ensures TrimRight(s) != "" ==> TrimRight(s)[0] == s[0]
  {
    trail := "";
    if s != [] && IsSpace(s[|s| - 1]) {
      var rest := TrimRightCuts(s[..|s| - 1]);
      trail := rest + [s[|s| - 1]];
    }
  }

  /** Trimming takes the blanks off both ends, all of them and nothing else. */
  lemma TrimIsExact(s: string) returns (lead: string, trail: string)
    ensures AllBlank(lead) && AllBlank(trail) && s == lead + Trim(s) + trail
    ensures Trim(s) != "" ==> !IsSpace(Trim(s)[0]) && !IsSpace(Last(Trim(s)))
  {
    lead := TrimLeftCuts(s);
    trail := TrimRightCuts(TrimLeft(s));
    hide IsSpace;
  }

  predicate IsCurrency(code: string) { |code| == 3 && forall i :: 0 <= i < 3 ==> 'A' <= code[i] <= 'Z' }

  function CurrencyOf(cells: seq<string>, o: Options): string {
    if o.columns.currency == -1 then o.fallbackCurrency
    else
      var code := o.upper(Trim(Cell(cells, o.columns.currency)));
      if code == "" then o.fallbackCurrency else code
  }

  /** One row: kept, or refused for the first reason that applies. */
  function CoerceRow(cells: seq<string>, line: nat, o: Options): Coerced {
    var txn := Trim(Cell(cells, o.columns.txn));
    if txn == "" then Refused(line, EmptyTxn)
    else
      var amount := ParseMinor(Cell(cells, o.columns.amount), 2);
      if amount.None? then Refused(line, BadAmount(Cell(cells, o.columns.amount)))
      else if amount.value == 0 then Refused(line, ZeroAmount)
      else
        var occurredAt := o.parseTimestamp(Cell(cells, o.columns.timestamp));
        if occurredAt.None? then Refused(line, BadTimestamp(Cell(cells, o.columns.timestamp)))
        else if !IsCurrency(CurrencyOf(cells, o)) then Refused(line, BadCurrency(CurrencyOf(cells, o)))
        else
          var mapped := if o.columns.key == -1 then "" else Trim(Cell(cells, o.columns.key));
          var key := if mapped != "" then mapped else DeriveKey(o.side, txn, amount.value, occurredAt.value, o.prefix);
          Kept(SourceRow(o.side, line, txn, amount.value, CurrencyOf(cells, o), occurredAt.value, key))
  }

  /** Every row of the file with what became of it; lines count from one, after the header. */
  function Outcomes(rows: seq<seq<string>>, o: Options): seq<Coerced> {
    seq(|rows|, i requires 0 <= i < |rows| => CoerceRow(rows[i], i + 2, o))
  }

  function KeptOf(cs: seq<Coerced>): seq<SourceRow> {
    if cs == [] then []
    else KeptOf(cs[..|cs| - 1]) + if cs[|cs| - 1].Kept? then [cs[|cs| - 1].row] else []
  }

  function RefusedOf(cs: seq<Coerced>): seq<Coerced> {
    if cs == [] then []
    else RefusedOf(cs[..|cs| - 1]) + if cs[|cs| - 1].Refused? then [cs[|cs| - 1]] else []
  }

  method CoerceRows(rows: seq<seq<string>>, o: Options)
    returns (kept: seq<SourceRow>, rejects: seq<Coerced>, rejectedCount: nat)
    ensures kept == KeptOf(Outcomes(rows, o))
    ensures rejectedCount == |RefusedOf(Outcomes(rows, o))|
    ensures rejects == RefusedOf(Outcomes(rows, o))[..Min(MAX_REPORTED, rejectedCount)]
  {
    hide CoerceRow;
    kept, rejects, rejectedCount := [], [], 0;
    ghost var all := Outcomes(rows, o);
    for i := 0 to |rows|
      invariant kept == KeptOf(all[..i])
      invariant rejectedCount == |RefusedOf(all[..i])|
      invariant rejects == RefusedOf(all[..i])[..Min(MAX_REPORTED, rejectedCount)]
    {
      assert all[..i + 1][..i] == all[..i];
      var line := i + 2;
      var outcome := CoerceRow(rows[i], line, o);
      if outcome.Refused? {
        rejectedCount := rejectedCount + 1;
        if |rejects| < MAX_REPORTED { rejects := rejects + [outcome]; }
      } else {
        kept := kept + [outcome.row];
      }
    }
    assert all[..|rows|] == all;
  }

  function LineOf(c: Coerced): nat { if c.Kept? then c.row.line else c.line }

  function LinesOf(rows: seq<SourceRow>): seq<nat> { seq(|rows|, i requires 0 <= i < |rows| => rows[i].line) }

  function RefusedLines(cs: seq<Coerced>): seq<nat> { seq(|cs|, i requires 0 <= i < |cs| => LineOf(cs[i])) }

  predicate Rising(lines: seq<nat>, below: nat) {
    && (forall i, j :: 0 <= i < j < |lines| ==> lines[i] < lines[j])
    && (forall i :: 0 <= i < |lines| ==> lines[i] < below)
  }

  lemma RisingGrows(lines: seq<nat>, below: nat)
    requires Rising(lines, below)
    ensures Rising(lines, below + 1) && Rising(lines + [below], below + 1)
  {
  }

  lemma OutcomeLines(rows: seq<seq<string>>, o: Options)
    ensures |Outcomes(rows, o)| == |rows| && forall i :: 0 <= i < |rows| ==> LineOf(Outcomes(rows, o)[i]) == i + 2
  {
    hide DeriveKey, ParseMinor, Trim, CurrencyOf, IsCurrency;
  }

  /** Every row is kept or refused, none both, none twice: the two lists add up to the file,
      each in file order, and each row is in the one its outcome says. */
  lemma EveryRowAccounted(rows: seq<seq<string>>, o: Options)
    ensures var cs := Outcomes(rows, o);
      && |KeptOf(cs)| + |RefusedOf(cs)| == |rows|
      && Rising(LinesOf(KeptOf(cs)), |rows| + 2) && Rising(RefusedLines(RefusedOf(cs)), |rows| + 2)
      && (forall i :: 0 <= i < |rows| ==> LineOf(cs[i]) == i + 2)
      && (forall i :: 0 <= i < |rows| ==> if cs[i].Kept? then cs[i].row in KeptOf(cs) else cs[i] in RefusedOf(cs))
  {
    var cs := Outcomes(rows, o);
    OutcomeLines(rows, o);
    hide Outcomes, KeptOf, RefusedOf, Rising;
    assert cs[..|cs|] == cs;
    LinesRise(cs, |cs|);
    forall i | 0 <= i < |rows| ensures if cs[i].Kept? then cs[i].row in KeptOf(cs) else cs[i] in RefusedOf(cs) {
      RowListed(cs, |cs|, i);
    }
  }

  lemma OneMoreOutcome(cs: seq<Coerced>, n: nat)
    requires n < |cs|
    ensures KeptOf(cs[..n + 1]) == if cs[n].Kept? then KeptOf(cs[..n]) + [cs[n].row] else KeptOf(cs[..n])
    ensures RefusedOf(cs[..n + 1]) == if cs[n].Refused? then RefusedOf(cs[..n]) + [cs[n]] else RefusedOf(cs[..n])
  {
    assert cs[..n + 1][..n] == cs[..n];
  }

  lemma LinesOneMore(k: seq<SourceRow>, r: seq<Coerced>, c: Coerced, line: nat)
    requires LineOf(c) == line && Rising(LinesOf(k), line) && Rising(RefusedLines(r), line)
    ensures Rising(LinesOf(k), line + 1) && Rising(RefusedLines(r), line + 1)
    ensures c.Kept? ==> Rising(LinesOf(k + [c.row]), line + 1)
    ensures c.Refused? ==> Rising(RefusedLines(r + [c]), line + 1)
  {
    RisingGrows(LinesOf(k), line);
    RisingGrows(RefusedLines(r), line);
    hide Rising;
    if c.Kept? {
      assert LinesOf(k + [c.row]) == LinesOf(k) + [line];
    } else {
      assert RefusedLines(r + [c]) == RefusedLines(r) + [line];
    }
  }

  lemma {:induction false} LinesRise(cs: seq<Coerced>, n: nat)
    requires n <= |cs| && forall i :: 0 <= i < |cs| ==> LineOf(cs[i]) == i + 2
    ensures |KeptOf(cs[..n])| + |RefusedOf(cs[..n])| == n
    ensures Rising(LinesOf(KeptOf(cs[..n])), n + 2) && Rising(RefusedLines(RefusedOf(cs[..n])), n + 2)
  {
    if n > 0 {
      LinesRise(cs, n - 1);
      OneMoreOutcome(cs, n - 1);
      LinesOneMore(KeptOf(cs[..n - 1]), RefusedOf(cs[..n - 1]), cs[n - 1], n + 1);
      hide KeptOf, RefusedOf, Rising, LinesOf, RefusedLines;
    }
  }

  lemma {:induction false} RowListed(cs: seq<Coerced>, n: nat, i: nat)
    requires i < n <= |cs|
    ensures if cs[i].Kept? then cs[i].row in KeptOf(cs[..n]) else cs[i] in RefusedOf(cs[..n])
  {
    assert cs[..n][..n - 1] == cs[..n - 1];
    if i < n - 1 { RowListed(cs, n - 1, i); }
  }

  /** What the API demands of a row that survives. */
  predicate Acceptable(r: SourceRow) {
    r.txn != "" && r.amount != 0 && IsSafe(r.amount) && IsCurrency(r.currency) && r.key != ""
  }

  lemma KeptIsAcceptable(cells: seq<string>, line: nat, o: Options)
    ensures CoerceRow(cells, line, o).Kept? ==> Acceptable(CoerceRow(cells, line, o).row)
  {
    hide IsSafe, Trim, Match, Strip, Magnitude, DeriveKey;
    var c := CoerceRow(cells, line, o);
    if c.Kept? {
      KeyNonEmpty(o.side, c.row.txn, c.row.amount, c.row.occurredAt, o.prefix);
      ParsedIsSafe(Cell(cells, o.columns.amount));
    }
  }

  /** A row is kept exactly when it has a txn_id, a non-zero amount, an instant and a currency
      that can be read. */
  lemma KeptExactly(cells: seq<string>, line: nat, o: Options)
    ensures CoerceRow(cells, line, o).Kept? <==>
      && Trim(Cell(cells, o.columns.txn)) != ""
      && ParseMinor(Cell(cells, o.columns.amount), 2).Some? && ParseMinor(Cell(cells, o.columns.amount), 2) != Some(0)
      && o.parseTimestamp(Cell(cells, o.columns.timestamp)).Some?
      && IsCurrency(CurrencyOf(cells, o))
  {
    hide Trim, ParseMinor, CurrencyOf, IsCurrency, DeriveKey;
  }

  /** A refusal gives a reason that is true of the row, and the text it is about. */
  lemma RefusalIsTrue(cells: seq<string>, line: nat, o: Options)
    requires CoerceRow(cells, line, o).Refused?
    ensures CoerceRow(cells, line, o).line == line
    ensures match CoerceRow(cells, line, o).reason
      case EmptyTxn => Trim(Cell(cells, o.columns.txn)) == ""
      case BadAmount(text) => text == Cell(cells, o.columns.amount) && ParseMinor(text, 2).None?
      case ZeroAmount => ParseMinor(Cell(cells, o.columns.amount), 2) == Some(0)
      case BadTimestamp(text) => text == Cell(cells, o.columns.timestamp) && o.parseTimestamp(text).None?
      case BadCurrency(code) => code == CurrencyOf(cells, o) && !IsCurrency(code)
  {
    hide Trim, ParseMinor, CurrencyOf, IsCurrency, DeriveKey;
  }

  /** The file's currency when it has one, and the chosen default otherwise. */
  lemma CurrencyFallsBack(cells: seq<string>, o: Options)
    ensures o.columns.currency == -1 || o.upper(Trim(Cell(cells, o.columns.currency))) == ""
      ==> CurrencyOf(cells, o) == o.fallbackCurrency
    ensures o.columns.currency != -1 && o.upper(Trim(Cell(cells, o.columns.currency))) != ""
      ==> CurrencyOf(cells, o) == o.upper(Trim(Cell(cells, o.columns.currency)))
  {
  }

  lemma KeyNonEmpty(side: Side, txn: string, amount: int, occurredAt: int, prefix: string)
    ensures DeriveKey(side, txn, amount, occurredAt, prefix) != ""
  {
    hide Signed;
  }

  lemma ParsedIsSafe(raw: string)
    ensures ParseMinor(raw, 2).Some? ==> IsSafe(ParseMinor(raw, 2).value)
  {
    hide Match, Strip, Magnitude;
  }

  /** A row without a key of its own gets the derived one. */
  lemma KeyIsDerived(cells: seq<string>, line: nat, o: Options)
    requires o.columns.key == -1 || Trim(Cell(cells, o.columns.key)) == ""
    requires CoerceRow(cells, line, o).Kept?
    ensures var r := CoerceRow(cells, line, o).row; r.key == DeriveKey(o.side, r.txn, r.amount, r.occurredAt, o.prefix)
  {
    hide DeriveKey;
  }

  /** Without a key column, two kept rows share a key exactly when they repeat one
      transaction; the currency plays no part. */
  lemma KeptKeysFaithful(c1: seq<string>, l1: nat, c2: seq<string>, l2: nat, o: Options)
    requires o.columns.key == -1
    requires CoerceRow(c1, l1, o).Kept? && CoerceRow(c2, l2, o).Kept?
    ensures var r1, r2 := CoerceRow(c1, l1, o).row, CoerceRow(c2, l2, o).row;
            r1.key == r2.key <==> r1.txn == r2.txn && r1.amount == r2.amount && r1.occurredAt == r2.occurredAt
  {
    KeyIsDerived(c1, l1, o);
    KeyIsDerived(c2, l2, o);
    hide CoerceRow, DeriveKey;
    var r1, r2 := CoerceRow(c1, l1, o).row, CoerceRow(c2, l2, o).row;
    KeysFaithful(o.side, r1.txn, r1.amount, r1.occurredAt, o.side, r2.txn, r2.amount, r2.occurredAt, o.prefix);
  }

  /* ------------------------------- Out and in again ------------------------------- */

  /** The columns of a file written by `toCsv`. */
  const WRITTEN_COLUMNS := Columns(0, 1, 2, 3, 4)

  function WrittenCells(row: SourceRow, iso: int -> string): seq<string> {
    [row.txn, ToDecimalString(row.amount, 2), row.currency, iso(row.occurredAt), row.key]
  }

  /** A row written to a file and read back is the same row, for any printing of instants that
      the reader undoes. */
  lemma FileRoundTrip(row: SourceRow, line: nat, o: Options, iso: int -> string)
    requires Acceptable(row) && o.side == row.side && o.columns == WRITTEN_COLUMNS
    requires Trim(row.txn) == row.txn && Trim(row.currency) == row.currency && Trim(row.key) == row.key
    requires o.upper(row.currency) == row.currency
    requires o.parseTimestamp(iso(row.occurredAt)) == Some(row.occurredAt)
    ensures CoerceRow(WrittenCells(row, iso), line, o) == Kept(row.(line := line))
  {
    hide Trim, ParseMinor, ToDecimalString, DeriveKey, IsSafe;
    DecimalRoundTrip(row.amount, 2);
    var cells := WrittenCells(row, iso);
    assert Cell(cells, 0) == row.txn && Cell(cells, 1) == ToDecimalString(row.amount, 2);
    assert Cell(cells, 2) == row.currency && Cell(cells, 3) == iso(row.occurredAt) && Cell(cells, 4) == row.key;
  }

  /** Without its key column the file still gives the row back, under the derived key. */
  lemma FileRoundTripDerived(row: SourceRow, line: nat, o: Options, iso: int -> string)
    requires Acceptable(row) && o.side == row.side && o.columns == WRITTEN_COLUMNS.(key := -1)
    requires Trim(row.txn) == row.txn && Trim(row.currency) == row.currency
    requires o.upper(row.currency) == row.currency
    requires o.parseTimestamp(iso(row.occurredAt)) == Some(row.occurredAt)
    ensures CoerceRow(WrittenCells(row, iso), line, o)
         == Kept(row.(line := line, key := DeriveKey(row.side, row.txn, row.amount, row.occurredAt, o.prefix)))
  {
    hide Trim, ParseMinor, ToDecimalString, DeriveKey, IsSafe;
    DecimalRoundTrip(row.amount, 2);
    var cells := WrittenCells(row, iso);
    assert Cell(cells, 0) == row.txn && Cell(cells, 1) == ToDecimalString(row.amount, 2);
    assert Cell(cells, 2) == row.currency && Cell(cells, 3) == iso(row.occurredAt);
  }
}
