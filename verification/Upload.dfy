/** Rows on their way to the API: the form they take on the wire, what the request models let
    through, and what the keys are worth once they have been cut to the column's width. */
module Upload {
  import opened Basics
  import opened Decimals
  import opened Matching
  import opened Money
  import opened DerivedKeys
  import opened Tables
  import opened Workload
  import opened BrowserRun

  const KEY_LIMIT := 255
  const ID_LIMIT := 128

  /** Instants in milliseconds that a four-digit year from 0001 on can express. */
  const FIRST_INSTANT: int := -62_135_596_800_000
  const LAST_INSTANT: int := 253_402_300_799_999

  function Slice(s: string, n: nat): string { if |s| <= n then s else s[..n] }

  datatype Wire = Wire(
    side: Side,
    reference: string,
    txn: string,
    amount: string,
    currency: string,
    occurredAt: int,
    key: string)

  /** The amount as a decimal string; the row's key stands in for the system's own reference. */
  function ToWire(r: SourceRow): Wire {
    Wire(r.side, Slice(r.key, ID_LIMIT), r.txn, ToDecimalString(r.amount, 2), r.currency, r.occurredAt,
         Slice(r.key, KEY_LIMIT))
  }

  /* ------------------------------ The request models ------------------------------ */

  /** The decimal a written number stands for. */
  function DecimalValue(sign: string, whole: string, frac: string): real
    requires AllDigits(whole + frac)
  {
    var v := ValueOf(whole + frac) as real / Pow10(|frac|) as real;
    if sign == "-" then -v else v
  }

  /** numeric(18,2): at most eighteen digits, two of them after the point. */
  ghost predicate MoneyReads(text: string, v: real) {
    exists sign, whole, frac :: MoneyWritten(text, sign, whole, frac) && v == DecimalValue(sign, whole, frac)
  }

  predicate MoneyWritten(text: string, sign: string, whole: string, frac: string) {
    && IsWritten(sign, whole, true, frac) && text == Money.Written(sign, whole, true, frac) && AllDigits(whole + frac)
    && whole != "" && |whole| + |frac| <= 18 && |frac| <= 2
  }

  predicate ShortId(s: string) { 1 <= |s| <= ID_LIMIT }

  ghost predicate ApiAccepts(w: Wire) {
    && ShortId(w.txn) && ShortId(w.reference) && 1 <= |w.key| <= KEY_LIMIT && IsCurrency(w.currency)
    && FIRST_INSTANT <= w.occurredAt <= LAST_INSTANT
    && exists v :: MoneyReads(w.amount, v) && v != 0.0
  }

  /* ----------------------------------- Amounts ----------------------------------- */

  lemma {:induction false} DigitsWithin(n: nat, k: nat)
    requires k >= 1 && n < Pow10(k)
    ensures |Digits(n)| <= k
  {
    if n >= 10 {
      assert k >= 2;
      DigitsWithin(n / 10, k - 1);
    }
  }

  lemma SafeIsShort()
    ensures MAX_SAFE < Pow10(16)
  {
    PowAdd(8, 8);
    assert Pow10(8) == 100_000_000;
  }

  lemma PrintedIsShort(v: int)
    requires IsSafe(v)
    ensures |PrintedDigits(v, 2)| <= 16
  {
    SafeIsShort();
    DigitsWithin(Abs(v), 16);
    hide Digits, Pow10;
  }

  /** The parts of a printed amount, and their value. */
  lemma PrintedParts(v: int) returns (whole: string, frac: string)
    requires IsSafe(v)
    ensures MoneyWritten(ToDecimalString(v, 2), if v < 0 then "-" else "", whole, frac)
    ensures |frac| == 2 && ValueOf(whole + frac) == Abs(v)
  {
    PrintedIsShort(v);
    PrintedValue(v, 2);
    hide IsSafe, PrintedDigits, ValueOf;
    var digits := PrintedDigits(v, 2);
    whole, frac := digits[..|digits| - 2], digits[|digits| - 2..];
    assert whole + frac == digits;
  }

  /** A text stands for one decimal at most. */
  lemma MoneyReadsOnce(text: string, v: real, w: real)
    requires MoneyReads(text, v) && MoneyReads(text, w)
    ensures v == w
  {
    var s1, w1, f1 :| MoneyWritten(text, s1, w1, f1) && v == DecimalValue(s1, w1, f1);
    var s2, w2, f2 :| MoneyWritten(text, s2, w2, f2) && w == DecimalValue(s2, w2, f2);
    MatchWritten(s1, w1, true, f1);
    MatchWritten(s2, w2, true, f2);
    hide Match, Money.Written, ValueOf, Pow10;
  }

  /** What the API reads off the wire is the row's amount, exactly. */
  lemma AmountOnTheWire(v: int, read: real)
    requires IsSafe(v)
    ensures MoneyReads(ToDecimalString(v, 2), read) <==> read == Major(v)
  {
    var whole, frac := PrintedParts(v);
    var sign := if v < 0 then "-" else "";
    assert Pow10(2) == 100;
    assert DecimalValue(sign, whole, frac) == Major(v);
    hide ToDecimalString, DecimalValue, MoneyWritten;
    assert MoneyReads(ToDecimalString(v, 2), Major(v));
    if MoneyReads(ToDecimalString(v, 2), read) {
      MoneyReadsOnce(ToDecimalString(v, 2), read, Major(v));
    }
  }

  /* --------------------------------- Acceptance --------------------------------- */

  /** The reader of uploaded files is meant to let through only what the API accepts.  It does
      so exactly for rows whose txn_id fits the column and whose instant has a four-digit year:
      it checks neither. */
  lemma SurvivorAcceptedExactly(cells: seq<string>, line: nat, o: Options)
    requires CoerceRow(cells, line, o).Kept?
    ensures var row := CoerceRow(cells, line, o).row;
      ApiAccepts(ToWire(row)) <==> |row.txn| <= ID_LIMIT && FIRST_INSTANT <= row.occurredAt <= LAST_INSTANT
  {
    KeptIsAcceptable(cells, line, o);
    var row := CoerceRow(cells, line, o).row;
    hide CoerceRow, IsSafe, MoneyReads, ToDecimalString, IsCurrency;
    AmountOnTheWire(row.amount, Major(row.amount));
    assert Major(row.amount) != 0.0;
  }

  function Xs(n: nat): string { seq(n, _ => 'x') }

  lemma XsTrimmed(n: nat)
    ensures Trim(Xs(n)) == Xs(n)
  {
  }

  /** A row that survives the reader and is refused by the API: its txn_id is one character too
      long. */
  lemma LongIdSurvives() returns (cells: seq<string>, o: Options)
    ensures CoerceRow(cells, 2, o).Kept? && !ApiAccepts(ToWire(CoerceRow(cells, 2, o).row))
  {
    var row := SourceRow(Gateway, 2, Xs(ID_LIMIT + 1), 100, "USD", 0, "k");
    o := Options(Gateway, WRITTEN_COLUMNS, "USD", "", _ => Some(0), s => s);
    cells := WrittenCells(row, _ => "");
    XsTrimmed(ID_LIMIT + 1);
    FileRoundTrip(row, 2, o, _ => "");
    hide CoerceRow, WrittenCells, Trim, MoneyReads, ToDecimalString;
  }

  /* ------------------------------------- Keys ------------------------------------- */

  lemma SignedWithin(n: int, k: nat)
    requires k >= 1 && Abs(n) < Pow10(k)
    ensures |Signed(n)| <= k + 1
  {
    DigitsWithin(Abs(n), k);
  }

  /** A derived key of an accepted row is not cut, unless its prefix is longer than any in use. */
  lemma DerivedKeyFits(side: Side, txn: string, amount: int, occurredAt: int, prefix: string)
    requires |txn| <= ID_LIMIT && IsSafe(amount) && FIRST_INSTANT <= occurredAt <= LAST_INSTANT && |prefix| <= 82
    ensures |DeriveKey(side, txn, amount, occurredAt, prefix)| <= KEY_LIMIT
  {
    SafeIsShort();
    SignedWithin(amount, 16);
    SignedWithin(occurredAt, 16);
    hide Signed, Pow10;
  }

  /** So of an uploaded file without a key column two accepted rows carry one key to the API if
      and only if they repeat one transaction. */
  lemma WireKeysFaithful(c1: seq<string>, l1: nat, c2: seq<string>, l2: nat, o: Options)
    requires o.columns.key == -1 && |o.prefix| <= 82
    requires CoerceRow(c1, l1, o).Kept? && CoerceRow(c2, l2, o).Kept?
    requires ApiAccepts(ToWire(CoerceRow(c1, l1, o).row)) && ApiAccepts(ToWire(CoerceRow(c2, l2, o).row))
    ensures var r1, r2 := CoerceRow(c1, l1, o).row, CoerceRow(c2, l2, o).row;
      ToWire(r1).key == ToWire(r2).key <==> r1.txn == r2.txn && r1.amount == r2.amount && r1.occurredAt == r2.occurredAt
  {
    var r1, r2 := CoerceRow(c1, l1, o).row, CoerceRow(c2, l2, o).row;
    KeptIsAcceptable(c1, l1, o);
    KeptIsAcceptable(c2, l2, o);
    KeyIsDerived(c1, l1, o);
    KeyIsDerived(c2, l2, o);
    KeptKeysFaithful(c1, l1, c2, l2, o);
    hide CoerceRow, DeriveKey, IsSafe, MoneyReads, ToDecimalString;
    DerivedKeyFits(o.side, r1.txn, r1.amount, r1.occurredAt, o.prefix);
    DerivedKeyFits(o.side, r2.txn, r2.amount, r2.occurredAt, o.prefix);
  }

  /** Two texts cut to `n` characters. */
  predicate AlikeUpTo(a: string, b: string, n: nat) { a == b || (|a| >= n && |b| >= n && a[..n] == b[..n]) }

  lemma SlicesAlike(a: string, b: string, n: nat)
    ensures Slice(a, n) == Slice(b, n) <==> AlikeUpTo(a, b, n)
  {
    assert |a| == n ==> a[..n] == a;
    assert |b| == n ==> b[..n] == b;
  }

  /** Any two rows carry one key to the API if and only if their keys are equal, or agree on as
      many characters as the column holds: the second such row is then counted as a retry of
      the first, whatever it says.  The reference cut from the same key is shorter still. */
  lemma WireKeysExactly(a: SourceRow, b: SourceRow)
    ensures ToWire(a).key == ToWire(b).key <==> AlikeUpTo(a.key, b.key, KEY_LIMIT)
    ensures ToWire(a).reference == ToWire(b).reference <==> AlikeUpTo(a.key, b.key, ID_LIMIT)
  {
    SlicesAlike(a.key, b.key, KEY_LIMIT);
    SlicesAlike(a.key, b.key, ID_LIMIT);
    hide ToDecimalString;
  }

  /** The row of one transaction, keyed by its own content. */
  function OwnKeyed(txn: string): SourceRow {
    SourceRow(Gateway, 2, txn, 100, "USD", 0, DeriveKey(Gateway, txn, 100, 0, ""))
  }

  lemma OwnKeyedAccepted(txn: string)
    requires ShortId(txn)
    ensures ApiAccepts(ToWire(OwnKeyed(txn)))
  {
    AmountOnTheWire(100, Major(100));
    DerivedKeyFits(Gateway, txn, 100, 0, "");
    KeyNonEmpty(Gateway, txn, 100, 0, "");
    hide MoneyReads, ToDecimalString, DeriveKey;
  }

  lemma KeyHead(txn: string)
    requires |txn| == ID_LIMIT
    ensures |OwnKeyed(txn).key| >= ID_LIMIT && OwnKeyed(txn).key[..ID_LIMIT] == "gateway:" + txn[..ID_LIMIT - 8]
  {
    hide Signed;
    assert OwnKeyed(txn).key == "gateway:" + txn + ":" + Signed(100) + ":" + Signed(0);
  }

  /** The reference is taken to be unique per row by construction; it is not: two accepted rows
      of different transactions, each with a key of its own, share one. */
  lemma ReferencesCollide() returns (a: SourceRow, b: SourceRow)
    ensures ApiAccepts(ToWire(a)) && ApiAccepts(ToWire(b)) && a.txn != b.txn
    ensures ToWire(a).key != ToWire(b).key && ToWire(a).reference == ToWire(b).reference
  {
    var s, t := Xs(ID_LIMIT), Xs(ID_LIMIT - 1) + "y";
    a, b := OwnKeyed(s), OwnKeyed(t);
    assert s[ID_LIMIT - 1] != t[ID_LIMIT - 1];
    OwnKeyedAccepted(s);
    OwnKeyedAccepted(t);
    KeysFaithful(Gateway, s, 100, 0, Gateway, t, 100, 0, "");
    DerivedKeyFits(Gateway, s, 100, 0, "");
    DerivedKeyFits(Gateway, t, 100, 0, "");
    WireKeysExactly(a, b);
    KeyHead(s);
    KeyHead(t);
    assert s[..ID_LIMIT - 8] == t[..ID_LIMIT - 8];
    hide *;
  }

  /* ------------------------------- Generated rows ------------------------------- */

  /** The request stands for the submission: milliseconds become microseconds. */
  ghost predicate Submits(w: Wire, sub: Submission) {
    && sub.txn == w.txn && MoneyReads(w.amount, sub.amount) && sub.currency == w.currency
    && sub.occurred == w.occurredAt * 1000 && sub.key == w.key
  }

  /** A generated row submits its side of the planned transaction and nothing else, so a run
      that receives what the file holds is a run of the plan. */
  lemma GeneratedRowSubmits(d: Draw, currency: string, runId: string, i: nat, row: SourceRow, sub: Submission)
    requires RowOf(d, currency, runId, i, row) && IsSafe(row.amount) && |row.key| <= KEY_LIMIT
    ensures Submits(ToWire(row), sub) <==> sub == SubmissionOf(PlannedDraw(d, currency, runId, i), row.side)
  {
    AmountOnTheWire(row.amount, sub.amount);
    hide MoneyReads, ToDecimalString, GeneratedKey, TxnId, IsSafe;
  }
}
