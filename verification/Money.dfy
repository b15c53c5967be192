/** Money as integer minor units: reading a cell, and the two ways of printing an amount. */
module Money {
  import opened Basics
  import opened Decimals

  /** Number.MAX_SAFE_INTEGER. */
  const MAX_SAFE: int := 9_007_199_254_740_991

  /** The largest scale whose power of ten is a finite double: from 309 on `10 ** scale` is
      Infinity, so a magnitude is Infinity or NaN and never a safe integer. */
  const MAX_SCALE: nat := 308

  predicate IsSafe(v: int) { -MAX_SAFE <= v <= MAX_SAFE }

  /** What `\s` matches and `trim` removes. */
  predicate IsSpace(c: char) {
    var n := c as int;
    9 <= n <= 13 || n == 32 || n == 0xA0 || n == 0x1680 || 0x2000 <= n <= 0x200A
    || n == 0x2028 || n == 0x2029 || n == 0x202F || n == 0x205F || n == 0x3000 || n == 0xFEFF
  }

  predicate Dropped(c: char) { c == ',' || IsSpace(c) }

  function Strip(s: string): string {
    if s == [] then []
    else Strip(s[..|s| - 1]) + if Dropped(s[|s| - 1]) then [] else [s[|s| - 1]]
  }

  function Zeros(n: nat): (s: string)
    ensures |s| == n && AllDigits(s)
  {
    if n == 0 then [] else Zeros(n - 1) + ['0']
  }

  function Pow10(n: nat): (p: nat)
    ensures p >= 1
  {
    if n == 0 then 1 else 10 * Pow10(n - 1)
  }

  /** Where the fraction starts: the first dot, or the end. */
  function DotAt(s: string): (i: nat)
    ensures i <= |s| && '.' !in s[..i]
    ensures i < |s| ==> s[i] == '.'
  {
    if s == [] then 0
    else if s[0] == '.' then 0
    else 1 + DotAt(s[1..])
  }

  /** Sign, whole part and fraction of a matched text. */
  datatype Cell = Cell(negative: bool, whole: string, frac: string)

  /** An optional sign, digits, and optionally a dot and more digits. */
  function Match(text: string): (m: Option<Cell>)
    ensures m.Some? ==> AllDigits(m.value.whole) && AllDigits(m.value.frac)
  {
    var signed := text != [] && text[0] in "+-";
    var body := if signed then text[1..] else text;
    var dot := DotAt(body);
    var whole, frac := body[..dot], if dot < |body| then body[dot + 1..] else [];
    if AllDigits(whole) && AllDigits(frac) then Some(Cell(signed && text[0] == '-', whole, frac)) else None
  }

  /** The fraction padded or truncated to the currency's scale. */
  function Padded(frac: string, scale: nat): string { (frac + Zeros(scale))[..scale] }

  function Magnitude(c: Cell, scale: nat): nat
    requires AllDigits(c.whole) && AllDigits(c.frac)
  {
    ValueOf(c.whole) * Pow10(scale) + ValueOf(Padded(c.frac, scale))
  }

  /** `None` for anything that is not a number this reader will guess at. */
  function ParseMinor(raw: string, scale: nat): Option<int> {
    var text := Strip(raw);
    if text == [] then None
    else
      var m := Match(text);
      if m.None? then None
      else
        var c := m.value;
        if c.whole == [] && c.frac == [] then None
        else if scale > MAX_SCALE then None
        else
          var magnitude: int := Magnitude(c, scale);
          if !IsSafe(magnitude) then None
          else Some(if c.negative then -magnitude else magnitude)
  }

  /** The digits of the magnitude, at least one before the point. */
  function PrintedDigits(value: int, scale: nat): (s: string)
    ensures AllDigits(s) && |s| > scale
  {
    var digits := Digits(Abs(value));
    if |digits| < scale + 1 then Zeros(scale + 1 - |digits|) + digits else digits
  }

  function Sign(value: int): string { if value < 0 then "-" else "" }

  function ToDecimalString(value: int, scale: nat): string {
    var digits := PrintedDigits(value, scale);
    Sign(value) + digits[..|digits| - scale] + "." + digits[|digits| - scale..]
  }

  /** A comma before every third digit from the right. */
  function Grouped(whole: string): string {
    if |whole| <= 3 then whole else Grouped(whole[..|whole| - 3]) + "," + whole[|whole| - 3..]
  }

  function FormatMinor(value: int, scale: nat): string {
    var digits := PrintedDigits(value, scale);
    Sign(value) + Grouped(digits[..|digits| - scale]) + "." + digits[|digits| - scale..]
  }

  /* ------------------------------- Digit strings ------------------------------- */

  lemma {:induction false} StripConcat(a: string, b: string)
    ensures Strip(a + b) == Strip(a) + Strip(b)
  {
    if b == [] {
      assert a + b == a;
    } else {
      var front := b[..|b| - 1];
      assert (a + b)[..|a + b| - 1] == a + front;
      StripConcat(a, front);
    }
  }

  lemma {:induction false} StripKeeps(s: string)
    requires forall i :: 0 <= i < |s| ==> !Dropped(s[i])
    ensures Strip(s) == s
  {
    if s != [] {
      StripKeeps(s[..|s| - 1]);
      assert s == s[..|s| - 1] + [s[|s| - 1]];
    }
  }

  lemma StripDigits(s: string)
    requires AllDigits(s)
    ensures Strip(s) == s
  {
    forall i | 0 <= i < |s| ensures !Dropped(s[i]) { assert IsDigit(s[i]); }
    StripKeeps(s);
  }

  lemma StripComma()
    ensures Strip(",") == []
  {
    assert ","[..0] == [];
  }

  lemma {:induction false} StripGrouped(whole: string)
    requires AllDigits(whole)
    ensures Strip(Grouped(whole)) == whole
  {
    hide Strip;
    if |whole| <= 3 {
      StripDigits(whole);
    } else {
      var head, tail := whole[..|whole| - 3], whole[|whole| - 3..];
      StripGrouped(head);
      StripDigits(tail);
      StripComma();
      StripConcat(Grouped(head), ",");
      StripConcat(Grouped(head) + ",", tail);
      assert whole == head + tail;
    }
  }

  lemma {:induction false} ValueOfConcat(a: string, b: string)
    requires AllDigits(a) && AllDigits(b) && AllDigits(a + b)
    ensures ValueOf(a + b) == ValueOf(a) * Pow10(|b|) + ValueOf(b)
  {
    if b == [] {
      assert a + b == a;
    } else {
      var front := b[..|b| - 1];
      assert (a + b)[..|a + b| - 1] == a + front;
      ValueOfConcat(a, front);
      ShiftDigit(ValueOf(a), Pow10(|front|), ValueOf(front), DigitValue(b[|b| - 1]));
    }
  }

  lemma ShiftDigit(x: nat, p: nat, y: nat, d: nat)
    ensures 10 * (x * p + y) + d == x * (10 * p) + (10 * y + d)
  {
  }

  lemma {:induction false} ValueOfZeros(n: nat)
    ensures ValueOf(Zeros(n)) == 0
  {
    if n > 0 {
      ValueOfZeros(n - 1);
      assert Zeros(n)[..n - 1] == Zeros(n - 1);
    }
  }

  lemma {:induction false} ValueBelowPow(s: string)
    requires AllDigits(s)
    ensures ValueOf(s) < Pow10(|s|)
  {
    if s != [] { ValueBelowPow(s[..|s| - 1]); }
  }

  lemma {:induction false} PowAdd(a: nat, b: nat)
    ensures Pow10(a + b) == Pow10(a) * Pow10(b)
  {
    if b > 0 { PowAdd(a, b - 1); }
  }

  lemma LeadingZeros(n: nat, digits: string)
    requires AllDigits(digits) && AllDigits(Zeros(n) + digits)
    ensures ValueOf(Zeros(n) + digits) == ValueOf(digits)
  {
    ValueOfConcat(Zeros(n), digits);
    ValueOfZeros(n);
    assert 0 * Pow10(|digits|) == 0;
  }

  lemma PrintedValue(value: int, scale: nat)
    ensures ValueOf(PrintedDigits(value, scale)) == Abs(value)
  {
    hide ValueOf, Digits, Zeros;
    var digits := Digits(Abs(value));
    ValueOfDigits(Abs(value));
    if |digits| < scale + 1 { LeadingZeros(scale + 1 - |digits|, digits); }
  }

  /* -------------------------------- Round trips -------------------------------- */

  lemma {:induction false} DotAfter(whole: string, frac: string)
    requires AllDigits(whole)
    ensures DotAt(whole + "." + frac) == |whole|
  {
    if whole != [] {
      assert IsDigit(whole[0]);
      assert (whole + "." + frac)[1..] == whole[1..] + "." + frac;
      DotAfter(whole[1..], frac);
    }
  }

  lemma FirstDigit(s: string)
    requires AllDigits(s) && s != []
    ensures IsDigit(s[0])
  {
  }

  /** Reading a printed amount finds its sign and its two parts. */
  lemma MatchPrinted(negative: bool, whole: string, frac: string)
    requires AllDigits(whole) && AllDigits(frac) && whole != []
    ensures Match((if negative then "-" else "") + whole + "." + frac) == Some(Cell(negative, whole, frac))
  {
    var sign := if negative then "-" else "";
    var text := sign + whole + "." + frac;
    hide AllDigits;
    assert IsDigit(whole[0]) by { FirstDigit(whole); }
    assert !negative ==> text[0] == whole[0];
    var body := if negative then text[1..] else text;
    assert body == whole + "." + frac;
    DotAfter(whole, frac);
    hide DotAt;
    assert body[..|whole|] == whole && body[|whole| + 1..] == frac;
  }

  lemma ReadPrinted(value: int, scale: nat)
    requires IsSafe(value)
    ensures var digits := PrintedDigits(value, scale);
            var c := Cell(value < 0, digits[..|digits| - scale], digits[|digits| - scale..]);
            Magnitude(c, scale) == Abs(value)
  {
    var digits := PrintedDigits(value, scale);
    var whole, frac := digits[..|digits| - scale], digits[|digits| - scale..];
    assert Padded(frac, scale) == frac;
    assert digits == whole + frac;
    ValueOfConcat(whole, frac);
    PrintedValue(value, scale);
  }

  lemma ReadBack(value: int, scale: nat, raw: string)
    requires IsSafe(value) && Strip(raw) == ToDecimalString(value, scale)
    ensures ParseMinor(raw, scale) == if scale <= MAX_SCALE then Some(value) else None
  {
    hide Match, Magnitude, Strip, PrintedDigits;
    var digits := PrintedDigits(value, scale);
    MatchPrinted(value < 0, digits[..|digits| - scale], digits[|digits| - scale..]);
    ReadPrinted(value, scale);
  }

  lemma StripSign(value: int)
    ensures Strip(Sign(value)) == Sign(value)
  {
    StripKeeps(Sign(value));
  }

  lemma StripDot()
    ensures Strip(".") == "."
  {
    StripKeeps(".");
  }

  lemma StripParts(sign: string, whole: string, grouped: string, frac: string)
    requires Strip(sign) == sign && Strip(grouped) == whole && AllDigits(frac)
    ensures Strip(sign + grouped + "." + frac) == sign + whole + "." + frac
  {
    StripConcat(sign + grouped + ".", frac);
    StripConcat(sign + grouped, ".");
    StripConcat(sign, grouped);
    StripDot();
    StripDigits(frac);
  }

  /** The wire format reads back exactly, at every scale a double can hold. */
  lemma DecimalRoundTrip(value: int, scale: nat)
    requires IsSafe(value)
    ensures ParseMinor(ToDecimalString(value, scale), scale) == if scale <= MAX_SCALE then Some(value) else None
  {
    hide ParseMinor, Strip, IsSafe;
    var digits := PrintedDigits(value, scale);
    var whole, frac := digits[..|digits| - scale], digits[|digits| - scale..];
    StripSign(value);
    StripDigits(whole);
    StripParts(Sign(value), whole, whole, frac);
    ReadBack(value, scale, ToDecimalString(value, scale));
  }

  /** So does the comma-grouped display format. */
  lemma FormatRoundTrip(value: int, scale: nat)
    requires IsSafe(value)
    ensures ParseMinor(FormatMinor(value, scale), scale) == if scale <= MAX_SCALE then Some(value) else None
  {
    hide ParseMinor, Strip, IsSafe, Grouped;
    var digits := PrintedDigits(value, scale);
    var whole, frac := digits[..|digits| - scale], digits[|digits| - scale..];
    StripSign(value);
    StripGrouped(whole);
    StripParts(Sign(value), whole, Grouped(whole), frac);
    ReadBack(value, scale, FormatMinor(value, scale));
  }

  /** Printing what was read is canonical: reading it again gives the same amount, and two
      accepted texts print alike exactly when they mean the same amount. */
  lemma PrintIsCanonical(a: string, b: string, scale: nat)
    requires ParseMinor(a, scale).Some? && ParseMinor(b, scale).Some?
    ensures var x, y := ParseMinor(a, scale).value, ParseMinor(b, scale).value;
      && ParseMinor(ToDecimalString(x, scale), scale) == Some(x)
      && ParseMinor(FormatMinor(x, scale), scale) == Some(x)
      && (ToDecimalString(x, scale) == ToDecimalString(y, scale) <==> x == y)
  {
    var x, y := ParseMinor(a, scale).value, ParseMinor(b, scale).value;
    DecimalRoundTrip(x, scale);
    DecimalRoundTrip(y, scale);
    FormatRoundTrip(x, scale);
  }

  /* ------------------------------ What reading means ------------------------------ */

  lemma DivisionUnique(n: nat, d: nat, a: nat, r: nat)
    requires d >= 1 && n == a * d + r && r < d
    ensures n / d == a
  {
    var q := n / d;
    assert n == q * d + n % d;
    ProductGap(d, a, q, r, n % d);
  }

  lemma ProductGap(d: nat, a: nat, q: nat, r: nat, s: nat)
    requires d >= 1 && r < d && s < d && a * d + r == q * d + s
    ensures a == q
  {
    assert (a - q) * d == s - r;
    assert a - q >= 1 ==> (a - q) * d >= d;
    assert a - q <= -1 ==> (a - q) * d + d <= 0;
  }

  /** With at least `scale` digits after the point the excess is cut off. */
  lemma CutTruncates(a: nat, d: nat, q: nat, m: nat)
    requires d >= 1 && m >= 1 && q < d
    ensures m * d >= 1 && (a * d + q) * m / (m * d) == a
  {
    assert m * d >= 1;
    assert (a * d + q) * m == a * (m * d) + q * m;
    assert q * m < d * m;
    DivisionUnique((a * d + q) * m, m * d, a, q * m);
  }

  lemma PadScales(w: nat, f: nat, d: nat, e: nat)
    requires d >= 1
    ensures (w * d + f) * (d * e) / d == w * (d * e) + f * e
  {
    assert (w * d + f) * (d * e) == (w * (d * e) + f * e) * d;
    DivisionUnique((w * d + f) * (d * e), d, w * (d * e) + f * e, 0);
  }

  /** The magnitude is the written number scaled and truncated: digits past the currency's
      scale are dropped, never rounded. */
  lemma MagnitudeTruncates(c: Cell, scale: nat)
    requires AllDigits(c.whole) && AllDigits(c.frac) && AllDigits(c.whole + c.frac)
    ensures Magnitude(c, scale) == ValueOf(c.whole + c.frac) * Pow10(scale) / Pow10(|c.frac|)
  {
    ValueOfConcat(c.whole, c.frac);
    if |c.frac| >= scale { CutCase(c, scale); } else { PadCase(c, scale); }
  }

  lemma CutCase(c: Cell, scale: nat)
    requires AllDigits(c.whole) && AllDigits(c.frac) && |c.frac| >= scale
    ensures Magnitude(c, scale)
      == (ValueOf(c.whole) * Pow10(|c.frac|) + ValueOf(c.frac)) * Pow10(scale) / Pow10(|c.frac|)
  {
    var kept, cut := c.frac[..scale], c.frac[scale..];
    assert Padded(c.frac, scale) == kept;
    assert c.frac == kept + cut;
    ValueOfConcat(kept, cut);
    ValueBelowPow(cut);
    PowAdd(scale, |cut|);
    CutArithmetic(ValueOf(c.whole), ValueOf(kept), Pow10(|cut|), Pow10(scale), ValueOf(cut));
  }

  lemma CutArithmetic(w: nat, p: nat, d: nat, m: nat, q: nat)
    requires d >= 1 && m >= 1 && q < d
    ensures m * d >= 1 && (w * (m * d) + (p * d + q)) * m / (m * d) == w * m + p
  {
    assert w * (m * d) + (p * d + q) == (w * m + p) * d + q;
    CutTruncates(w * m + p, d, q, m);
  }

  lemma PadCase(c: Cell, scale: nat)
    requires AllDigits(c.whole) && AllDigits(c.frac) && |c.frac| < scale
    ensures Magnitude(c, scale)
      == (ValueOf(c.whole) * Pow10(|c.frac|) + ValueOf(c.frac)) * Pow10(scale) / Pow10(|c.frac|)
  {
    hide ValueOf, Pow10, Zeros;
    var n := |c.frac|;
    ZerosPrefix(scale, scale - n);
    assert Padded(c.frac, scale) == c.frac + Zeros(scale - n);
    ValueOfConcat(c.frac, Zeros(scale - n));
    ValueOfZeros(scale - n);
    PowAdd(n, scale - n);
    PadScales(ValueOf(c.whole), ValueOf(c.frac), Pow10(n), Pow10(scale - n));
  }

  lemma {:induction false} ZerosPrefix(n: nat, k: nat)
    requires k <= n
    ensures Zeros(n)[..k] == Zeros(k)
  {
    if k < n {
      ZerosPrefix(n - 1, k);
      assert Zeros(n)[..k] == Zeros(n - 1)[..k];
    }
  }

  /* ---------------------------- What is accepted, exactly ---------------------------- */

  /** A number as it may be written: sign, digits, and a point with more digits or none. */
  function Written(sign: string, whole: string, dot: bool, frac: string): string {
    sign + whole + if dot then "." + frac else ""
  }

  predicate IsWritten(sign: string, whole: string, dot: bool, frac: string) {
    sign in {"", "+", "-"} && AllDigits(whole) && AllDigits(frac) && (dot || frac == "")
  }

  lemma {:induction false} NoDot(whole: string)
    requires AllDigits(whole)
    ensures DotAt(whole) == |whole|
  {
    if whole != [] {
      assert IsDigit(whole[0]);
      NoDot(whole[1..]);
    }
  }

  function Rest(whole: string, dot: bool, frac: string): string { whole + if dot then "." + frac else "" }

  lemma RestSplits(whole: string, dot: bool, frac: string)
    requires AllDigits(whole) && (dot || frac == "")
    ensures var body := Rest(whole, dot, frac);
      && DotAt(body) == |whole| && body[..|whole|] == whole && (|whole| < |body| <==> dot)
      && (dot ==> body[|whole| + 1..] == frac)
  {
    if dot {
      DotAfter(whole, frac);
      assert Rest(whole, dot, frac) == whole + "." + frac;
    } else {
      NoDot(whole);
      assert Rest(whole, dot, frac) == whole;
    }
    hide DotAt;
  }

  lemma SignRead(sign: string, whole: string, dot: bool, frac: string)
    requires IsWritten(sign, whole, dot, frac)
    ensures var text := Written(sign, whole, dot, frac);
      && (sign != "" <==> text != [] && text[0] in "+-") && (sign != "" ==> text[0] == sign[0])
      && (if sign != "" then text[1..] else text) == Rest(whole, dot, frac)
  {
    var text := Written(sign, whole, dot, frac);
    assert text == sign + Rest(whole, dot, frac);
    if sign == "" && whole != "" { assert text[0] == whole[0] && IsDigit(whole[0]); }
  }

  lemma MatchWritten(sign: string, whole: string, dot: bool, frac: string)
    requires IsWritten(sign, whole, dot, frac)
    ensures Match(Written(sign, whole, dot, frac)) == Some(Cell(sign == "-", whole, frac))
  {
    SignRead(sign, whole, dot, frac);
    RestSplits(whole, dot, frac);
    hide DotAt, AllDigits, Written, Rest;
  }

  /** A cell whose text, blanks and commas aside, is a written number reads as that number
      scaled and truncated, unless it has no digit or leaves the safe range. */
  lemma ReadsWritten(raw: string, sign: string, whole: string, dot: bool, frac: string, scale: nat)
    requires IsWritten(sign, whole, dot, frac) && Strip(raw) == Written(sign, whole, dot, frac)
    requires AllDigits(whole + frac)
    ensures var m: int := ValueOf(whole + frac) * Pow10(scale) / Pow10(|frac|);
      ParseMinor(raw, scale)
      == if whole + frac == "" || scale > MAX_SCALE || !IsSafe(m) then None
         else Some(if sign == "-" then -m else m)
  {
    hide Match, Strip, Magnitude, ValueOf, Pow10, AllDigits, IsSafe;
    MatchWritten(sign, whole, dot, frac);
    MagnitudeTruncates(Cell(sign == "-", whole, frac), scale);
    assert whole + frac == "" <==> whole == "" && frac == "";
  }

  lemma SplitsAtDot(body: string) returns (whole: string, dot: bool, frac: string)
    ensures var at := DotAt(body);
      whole == body[..at] && frac == (if at < |body| then body[at + 1..] else []) && (dot || frac == "")
    ensures body == Rest(whole, dot, frac)
  {
    var at := DotAt(body);
    hide DotAt;
    whole, dot := body[..at], at < |body|;
    frac := if dot then body[at + 1..] else "";
    if dot {
      assert body == body[..at] + [body[at]] + body[at + 1..];
    } else {
      assert body[..at] == body;
    }
  }

  lemma SplitsOffSign(text: string) returns (sign: string, body: string)
    ensures var signed := text != [] && text[0] in "+-";
      body == (if signed then text[1..] else text) && sign == (if signed then [text[0]] else "")
    ensures text == sign + body && sign in {"", "+", "-"}
  {
    var signed := text != [] && text[0] in "+-";
    body := if signed then text[1..] else text;
    sign := if signed then [text[0]] else "";
    if signed { assert text[0] == '+' || text[0] == '-'; }
  }

  lemma MatchDigits(text: string, body: string)
    requires Match(text).Some? && body == (if text != [] && text[0] in "+-" then text[1..] else text)
    ensures var at := DotAt(body); AllDigits(body[..at]) && AllDigits(if at < |body| then body[at + 1..] else [])
  {
    hide AllDigits, DotAt;
  }

  lemma MatchIsWritten(text: string) returns (sign: string, whole: string, dot: bool, frac: string)
    requires Match(text).Some?
    ensures IsWritten(sign, whole, dot, frac) && text == Written(sign, whole, dot, frac)
  {
    hide Match, DotAt, AllDigits;
    var body;
    sign, body := SplitsOffSign(text);
    MatchDigits(text, body);
    whole, dot, frac := SplitsAtDot(body);
    WrittenRest(sign, whole, dot, frac);
    hide Written, Rest;
  }

  lemma WrittenRest(sign: string, whole: string, dot: bool, frac: string)
    ensures Written(sign, whole, dot, frac) == sign + Rest(whole, dot, frac)
  {
    assert sign + whole + (if dot then "." + frac else "") == sign + (whole + if dot then "." + frac else "");
  }

  /** Nothing else is accepted. */
  lemma AcceptedIsWritten(raw: string, scale: nat)
    returns (sign: string, whole: string, dot: bool, frac: string)
    requires ParseMinor(raw, scale).Some?
    ensures IsWritten(sign, whole, dot, frac) && Strip(raw) == Written(sign, whole, dot, frac)
  {
    hide Strip, Match, Magnitude, IsSafe, IsWritten, Written;
    sign, whole, dot, frac := MatchIsWritten(Strip(raw));
  }

  /* -------------------------------- What is printed -------------------------------- */

  lemma {:induction false} StripBlank(blank: string)
    requires forall c :: c in blank ==> c in " ,\t\n\r\U{00A0}\U{2009}\U{202F}"
    ensures Strip(blank) == ""
  {
    if blank != [] {
      var front, last := blank[..|blank| - 1], blank[|blank| - 1];
      assert last in blank;
      StripBlank(front);
    }
  }

  /** Spaces, thin and non-breaking ones too, and commas mean nothing, wherever they stand. */
  lemma BlanksIgnored(a: string, blank: string, b: string, scale: nat)
    requires forall c :: c in blank ==> c in " ,\t\n\r\U{00A0}\U{2009}\U{202F}"
    ensures ParseMinor(a + blank + b, scale) == ParseMinor(a + b, scale)
  {
    StripConcat(a + blank, b);
    StripConcat(a, blank);
    StripConcat(a, b);
    StripBlank(blank);
    hide Strip, ParseMinor;
    SameStripped(a + blank + b, a + b, scale);
  }

  lemma SameStripped(a: string, b: string, scale: nat)
    requires Strip(a) == Strip(b)
    ensures ParseMinor(a, scale) == ParseMinor(b, scale)
  {
    hide Strip, Match, Magnitude, IsSafe;
  }

  /** The wire format has exactly `scale` digits after its one point and a shortest whole part
      before it. */
  lemma DecimalShape(value: int, scale: nat) returns (whole: string, frac: string)
    ensures AllDigits(whole) && AllDigits(frac) && |frac| == scale
    ensures whole != "" && (|whole| > 1 ==> whole[0] != '0')
    ensures ToDecimalString(value, scale) == (if value < 0 then "-" else "") + whole + "." + frac
    ensures FormatMinor(value, scale) == (if value < 0 then "-" else "") + Grouped(whole) + "." + frac
  {
    var digits := PrintedDigits(value, scale);
    whole, frac := digits[..|digits| - scale], digits[|digits| - scale..];
    if |Digits(Abs(value))| >= scale + 1 { assert whole[0] == Digits(Abs(value))[0]; }
  }

  /** A comma stands at every fourth place from the right, and nowhere else. */
  predicate CommasInThrees(g: string) { forall i :: 0 <= i < |g| ==> (g[i] == ',' <==> (|g| - i) % 4 == 0) }

  lemma OneMoreGroup(head: string, tail: string)
    requires CommasInThrees(head) && AllDigits(tail) && |tail| == 3
    ensures CommasInThrees(head + "," + tail)
  {
    var g := head + "," + tail;
    forall i | 0 <= i < |g| ensures g[i] == ',' <==> (|g| - i) % 4 == 0 {
      if i < |head| {
        assert g[i] == head[i];
        assert |g| - i == (|head| - i) + 4;
      } else if i > |head| {
        assert g[i] == tail[i - |head| - 1] && IsDigit(tail[i - |head| - 1]);
      }
    }
  }

  /** The display form is the same digits with a comma before every third from the right, and
      nowhere else. */
  lemma {:induction false} GroupedInThrees(whole: string)
    requires AllDigits(whole)
    ensures CommasInThrees(Grouped(whole))
    ensures |Grouped(whole)| == if whole == "" then 0 else |whole| + (|whole| - 1) / 3
  {
    hide CommasInThrees, AllDigits;
    if |whole| > 3 {
      var head, tail := whole[..|whole| - 3], whole[|whole| - 3..];
      assert whole == head + tail;
      DigitsApart(head, tail);
      GroupedInThrees(head);
      OneMoreGroup(Grouped(head), tail);
    } else {
      ShortGroup(whole);
    }
  }

  lemma DigitsApart(head: string, tail: string)
    requires AllDigits(head + tail)
    ensures AllDigits(head) && AllDigits(tail)
  {
    forall i | 0 <= i < |head| ensures IsDigit(head[i]) { assert head[i] == (head + tail)[i]; }
    forall i | 0 <= i < |tail| ensures IsDigit(tail[i]) { assert tail[i] == (head + tail)[|head| + i]; }
  }

  lemma ShortGroup(whole: string)
    requires AllDigits(whole) && |whole| <= 3
    ensures CommasInThrees(whole)
  {
    forall i | 0 <= i < |whole| ensures whole[i] != ',' { assert IsDigit(whole[i]); }
  }
}
