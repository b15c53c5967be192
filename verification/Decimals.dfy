/** Decimal numerals: printing a natural number and reading it back. */
module Decimals {

  predicate IsDigit(c: char) { '0' <= c <= '9' }

  predicate AllDigits(s: string) { forall i :: 0 <= i < |s| ==> IsDigit(s[i]) }

  function DigitValue(c: char): (v: nat)
    requires IsDigit(c)
    ensures v < 10
  {
    c as int - '0' as int
  }

  function DigitChar(v: nat): (c: char)
    requires v < 10
    ensures IsDigit(c) && DigitValue(c) == v
  {
    ('0' as int + v) as char
  }

  /** The value of a digit string; the empty string is zero. */
  function ValueOf(s: string): nat
    requires AllDigits(s)
  {
    if s == [] then 0 else 10 * ValueOf(s[..|s| - 1]) + DigitValue(s[|s| - 1])
  }

  /** The shortest decimal numeral of `n`. */
  function Digits(n: nat): (s: string)
    ensures AllDigits(s) && s != []
    ensures |s| == 1 || s[0] != '0'
  {
    if n < 10 then [DigitChar(n)] else Digits(n / 10) + [DigitChar(n % 10)]
  }

  lemma {:induction false} ValueOfDigits(n: nat)
    ensures ValueOf(Digits(n)) == n
  {
    if n >= 10 {
      ValueOfDigits(n / 10);
      assert Digits(n)[..|Digits(n)| - 1] == Digits(n / 10);
    } else {
      assert Digits(n)[..0] == [];
    }
  }

  lemma DigitsInjective(a: nat, b: nat)
    ensures Digits(a) == Digits(b) ==> a == b
  {
    ValueOfDigits(a);
    ValueOfDigits(b);
  }

  /** A separator that occurs in neither tail splits both strings at the same place. */
  lemma SplitAtLast(sep: char, a: string, b: string, x: string, y: string)
    requires sep !in x && sep !in y && a + [sep] + x == b + [sep] + y
    ensures a == b && x == y
  {
    var s := a + [sep] + x;
    LastAt(sep, s, a, x);
    LastAt(sep, s, b, y);
    assert |a| == |b|;
    assert a == s[..|a|] == b;
    assert x == s[|a| + 1..] == y;
  }

  lemma LastAt(sep: char, s: string, a: string, x: string)
    requires s == a + [sep] + x && sep !in x
    ensures |a| < |s| && s[|a|] == sep && forall i :: |a| < i < |s| ==> s[i] != sep
  {
    forall i | |a| < i < |s| ensures s[i] != sep { assert s[i] == x[i - |a| - 1]; }
  }

  /** The same from the left. */
  lemma SplitAtFirst(sep: char, a: string, b: string, x: string, y: string)
    requires sep !in a && sep !in b && a + [sep] + x == b + [sep] + y
    ensures a == b && x == y
  {
    var s := a + [sep] + x;
    FirstAt(sep, s, a, x);
    FirstAt(sep, s, b, y);
    assert |a| == |b|;
    assert a == s[..|a|] == b;
    assert x == s[|a| + 1..] == y;
  }

  lemma FirstAt(sep: char, s: string, a: string, x: string)
    requires s == a + [sep] + x && sep !in a
    ensures |a| < |s| && s[|a|] == sep && forall i :: 0 <= i < |a| ==> s[i] != sep
  {
    forall i | 0 <= i < |a| ensures s[i] != sep { assert s[i] == a[i]; }
  }

  /** An integer in decimal, with a leading minus when negative. */
  function Signed(n: int): string { if n < 0 then "-" + Digits(-n) else Digits(n) }

  lemma SignedInjective(a: int, b: int)
    ensures Signed(a) == Signed(b) ==> a == b
  {
    if Signed(a) == Signed(b) {
      assert Signed(a)[0] == '-' <==> a < 0;
      assert Signed(b)[0] == '-' <==> b < 0;
      if a < 0 {
        assert Digits(-a) == Signed(a)[1..] == Signed(b)[1..] == Digits(-b);
        DigitsInjective(-a, -b);
      } else {
        DigitsInjective(a, b);
      }
    }
  }

  lemma SignedHasNoColon(n: int)
    ensures ':' !in Signed(n)
  {
    var digits := if n < 0 then Digits(-n) else Digits(n);
    forall i | 0 <= i < |digits| ensures digits[i] != ':' { assert IsDigit(digits[i]); }
  }
}
