/** Decimal numerals as JavaScript prints non-negative integers: no leading zero, "0" for zero. */
module Decimal {

  ghost predicate AllDigits(ds: seq<int>) {
    forall i :: 0 <= i < |ds| ==> 0 <= ds[i] <= 9
  }

  function Digits(n: nat): (ds: seq<int>)
    ensures |ds| >= 1 && AllDigits(ds)
  {
    if n < 10 then [n] else Digits(n / 10) + [n % 10]
  }

  function Value(ds: seq<int>): nat
    requires AllDigits(ds)
  {
    if ds == [] then 0 else 10 * Value(ds[..|ds| - 1]) + ds[|ds| - 1]
  }

  lemma {:induction false} ValueOfDigits(n: nat)
    ensures Value(Digits(n)) == n
  {
    if n >= 10 {
      ValueOfDigits(n / 10);
      assert Digits(n)[..|Digits(n)| - 1] == Digits(n / 10);
    }
  }

  lemma DigitsInjective(m: nat, n: nat)
    requires Digits(m) == Digits(n)
    ensures m == n
  {
    ValueOfDigits(m);
    ValueOfDigits(n);
  }

  /** The numeral as text. */
  function Print(n: nat): (s: string)
    ensures |s| == |Digits(n)| && forall i :: 0 <= i < |s| ==> '0' <= s[i] <= '9'
  {
    seq(|Digits(n)|, i requires 0 <= i < |Digits(n)| => '0' + Digits(n)[i] as char)
  }

  /** The last digit stands last. */
  lemma PrintIs(n: nat)
    ensures n < 10 ==> Print(n) == [(48 + n) as char]
    ensures n >= 10 ==> Print(n) == Print(n / 10) + [(48 + n % 10) as char]
  {
  }

  lemma PrintInjective(m: nat, n: nat)
    requires Print(m) == Print(n)
    ensures m == n
  {
    forall i | 0 <= i < |Digits(m)|
      ensures Digits(m)[i] == Digits(n)[i]
    {
      assert Print(m)[i] == Print(n)[i];
    }
    assert Digits(m) == Digits(n);
    DigitsInjective(m, n);
  }

  /**
   * Text, a separator, a numeral: the split is unique when the separator is no digit,
   * whatever characters the text holds.
   */
  lemma {:induction false} SplitLastNumeral(a: string, m: nat, b: string, n: nat, sep: char)
    requires !('0' <= sep <= '9')
    requires a + [sep] + Print(m) == b + [sep] + Print(n)
    ensures a == b && m == n
  {
    SeparatorIsLast(a, m, b, n, sep);
    SeparatorIsLast(b, n, a, m, sep);
    var s, t := a + [sep] + Print(m), b + [sep] + Print(n);
    assert s[..|a|] == a && t[..|b|] == b;
    assert s[|a| + 1..] == Print(m) && t[|b| + 1..] == Print(n);
    PrintInjective(m, n);
  }

  /** Past the separator only digits follow, so the other text cannot put its separator there. */
  lemma SeparatorIsLast(a: string, m: nat, b: string, n: nat, sep: char)
    requires !('0' <= sep <= '9')
    requires a + [sep] + Print(m) == b + [sep] + Print(n)
    ensures |b| <= |a|
  {
    var s, t := a + [sep] + Print(m), b + [sep] + Print(n);
    assert t[|b|] == sep;
    assert forall i :: |a| < i < |s| ==> s[i] == Print(m)[i - |a| - 1];
  }
}
