/**
 * JSON text over UTF-16 code units: string literals as `JSON.stringify` escapes them
 * (RFC 8259 section 7, with lone surrogates escaped), integers, and readers that undo both.
 */
module JsonText {
  import opened Wrappers
  import Decimal

  type CodeUnit = n: int | 0 <= n < 0x1_0000
  type Text = seq<CodeUnit>

  const QUOTE: CodeUnit := 0x22
  const BACKSLASH: CodeUnit := 0x5C
  const MINUS: CodeUnit := 0x2D

  predicate IsHighSurrogate(u: CodeUnit) { 0xD800 <= u <= 0xDBFF }

  predicate IsLowSurrogate(u: CodeUnit) { 0xDC00 <= u <= 0xDFFF }

  predicate IsDigit(u: CodeUnit) { 0x30 <= u <= 0x39 }

  function HexUnit(d: int): CodeUnit
    requires 0 <= d < 16
  {
    if d < 10 then 0x30 + d else 0x57 + d
  }

  function HexValue(u: CodeUnit): Option<int> {
    if IsDigit(u) then Some(u - 0x30)
    else if 0x61 <= u <= 0x66 then Some(u - 0x57)
    else if 0x41 <= u <= 0x46 then Some(u - 0x37)
    else None
  }

  /** The text one code unit becomes when it is not half of a surrogate pair. */
  function EscapeUnit(u: CodeUnit): Text {
    if u == QUOTE || u == BACKSLASH then [BACKSLASH, u]
    else if u == 0x08 then [BACKSLASH, 0x62]
    else if u == 0x0C then [BACKSLASH, 0x66]
    else if u == 0x0A then [BACKSLASH, 0x6E]
    else if u == 0x0D then [BACKSLASH, 0x72]
    else if u == 0x09 then [BACKSLASH, 0x74]
    else if u < 0x20 || IsHighSurrogate(u) || IsLowSurrogate(u) then
      [BACKSLASH, 0x75, HexUnit(u / 16 / 16 / 16), HexUnit(u / 16 / 16 % 16), HexUnit(u / 16 % 16), HexUnit(u % 16)]
    else [u]
  }

  function Escape(s: Text): Text {
    if s == [] then []
    else if |s| >= 2 && IsHighSurrogate(s[0]) && IsLowSurrogate(s[1]) then s[..2] + Escape(s[2..])
    else EscapeUnit(s[0]) + Escape(s[1..])
  }

  /** A string literal. */
  function Quote(s: Text): Text {
    [QUOTE] + Escape(s) + [QUOTE]
  }

  /** The code unit an escape sequence at the front of `t` stands for, and the sequence's length. */
  function ReadEscape(t: Text): Option<(CodeUnit, nat)>
    requires |t| >= 1 && t[0] == BACKSLASH
  {
    if |t| < 2 then None
    else if t[1] == QUOTE || t[1] == BACKSLASH || t[1] == 0x2F then Some((t[1], 2))
    else if t[1] == 0x62 then Some((0x08, 2))
    else if t[1] == 0x66 then Some((0x0C, 2))
    else if t[1] == 0x6E then Some((0x0A, 2))
    else if t[1] == 0x72 then Some((0x0D, 2))
    else if t[1] == 0x74 then Some((0x09, 2))
    else if t[1] == 0x75 && |t| >= 6 then
      match (HexValue(t[2]), HexValue(t[3]), HexValue(t[4]), HexValue(t[5]))
      case (Some(a), Some(b), Some(c), Some(d)) =>
        if 0 <= 0x1000 * a + 0x100 * b + 0x10 * c + d < 0x1_0000
        then Some((0x1000 * a + 0x100 * b + 0x10 * c + d, 6)) else None
      case _ => None
    else None
  }

  function Prepend(s: Text, r: Option<(Text, Text)>): Option<(Text, Text)> {
    match r
    case None => None
    case Some((t, rest)) => Some((s + t, rest))
  }

  /** Reads a string literal's body and its closing quote; yields the string and what follows. */
  function ReadBody(t: Text): (r: Option<(Text, Text)>)
    ensures r.Some? ==> |r.value.1| < |t|
    decreases |t|
  {
    if t == [] then None
    else if t[0] == QUOTE then Some(([], t[1..]))
    else if t[0] == BACKSLASH then
      match ReadEscape(t)
      case None => None
      case Some((u, n)) => if 1 <= n <= |t| then Prepend([u], ReadBody(t[n..])) else None
    else Prepend([t[0]], ReadBody(t[1..]))
  }

  lemma HexDigits(u: CodeUnit)
    ensures u == 0x1000 * (u / 16 / 16 / 16) + 0x100 * (u / 16 / 16 % 16) + 0x10 * (u / 16 % 16) + u % 16
    ensures 0 <= u / 16 / 16 / 16 < 16
  {
    var a: int := u / 16;
    var b := a / 16;
    assert u == 16 * a + u % 16 && a == 16 * b + a % 16 && b == 16 * (b / 16) + b % 16;
  }

  lemma HexValueOfUnit(d: int)
    requires 0 <= d < 16
    ensures HexValue(HexUnit(d)) == Some(d)
  {
  }

  lemma ReadEscapeUndoes(u: CodeUnit, t: Text)
    requires EscapeUnit(u)[0] == BACKSLASH
    ensures ReadEscape(EscapeUnit(u) + t) == Some((u, |EscapeUnit(u)|))
  {
    var x := EscapeUnit(u);
    var e := x + t;
    assert forall i :: 0 <= i < |x| ==> e[i] == x[i];
    if |x| == 6 {
      HexDigits(u);
      HexValueOfUnit(u / 16 / 16 / 16);
      HexValueOfUnit(u / 16 / 16 % 16);
      HexValueOfUnit(u / 16 % 16);
      HexValueOfUnit(u % 16);
      assert e[1] == 0x75;
      assert HexValue(e[2]) == Some(u / 16 / 16 / 16);
      assert HexValue(e[3]) == Some(u / 16 / 16 % 16);
      assert HexValue(e[4]) == Some(u / 16 % 16);
      assert HexValue(e[5]) == Some(u % 16);
    }
  }

  lemma ReadUnitUndoes(u: CodeUnit, t: Text)
    ensures ReadBody(EscapeUnit(u) + t) == Prepend([u], ReadBody(t))
  {
    var e := EscapeUnit(u) + t;
    assert e[|EscapeUnit(u)|..] == t;
    if EscapeUnit(u)[0] == BACKSLASH {
      ReadEscapeUndoes(u, t);
    }
  }

  lemma ReadRawUnit(u: CodeUnit, t: Text)
    requires u != QUOTE && u != BACKSLASH
    ensures ReadBody([u] + t) == Prepend([u], ReadBody(t))
  {
    assert ([u] + t)[1..] == t;
  }

  lemma ReadPair(high: CodeUnit, low: CodeUnit, t: Text)
    requires IsHighSurrogate(high) && IsLowSurrogate(low)
    ensures ReadBody([high, low] + t) == Prepend([high, low], ReadBody(t))
  {
    ReadRawUnit(low, t);
    ReadRawUnit(high, [low] + t);
    assert [high, low] + t == [high] + ([low] + t);
    assert forall x: Text :: [high] + ([low] + x) == [high, low] + x;
  }

  /** Escaped text reads back as itself, in front of whatever the rest reads as. */
  lemma {:induction false} ReadEscaped(s: Text, t: Text)
    ensures ReadBody(Escape(s) + t) == Prepend(s, ReadBody(t))
  {
    if s == [] {
      assert Escape(s) + t == t;
      assert forall x: Text :: s + x == x;
    } else {
      var k := if |s| >= 2 && IsHighSurrogate(s[0]) && IsLowSurrogate(s[1]) then 2 else 1;
      var e := if k == 2 then s[..2] else EscapeUnit(s[0]);
      ReadEscaped(s[k..], t);
      assert Escape(s) + t == e + (Escape(s[k..]) + t);
      if k == 2 {
        assert s[..2] == [s[0], s[1]];
        ReadPair(s[0], s[1], Escape(s[k..]) + t);
      } else {
        assert s[..1] == [s[0]];
        ReadUnitUndoes(s[0], Escape(s[k..]) + t);
      }
      assert ReadBody(Escape(s) + t) == Prepend(s[..k], Prepend(s[k..], ReadBody(t)));
      PrependSplit(s, k, ReadBody(t));
    }
  }

  lemma PrependSplit(s: Text, k: nat, r: Option<(Text, Text)>)
    requires k <= |s|
    ensures Prepend(s[..k], Prepend(s[k..], r)) == Prepend(s, r)
  {
    if r.Some? {
      assert s[..k] + (s[k..] + r.value.0) == s + r.value.0;
    }
  }

  /** Reading a literal's body gives the string back, whatever follows the literal. */
  lemma ReadBodyUndoesEscape(s: Text, rest: Text)
    ensures ReadBody(Escape(s) + [QUOTE] + rest) == Some((s, rest))
  {
    assert Escape(s) + [QUOTE] + rest == Escape(s) + ([QUOTE] + rest);
    ReadEscaped(s, [QUOTE] + rest);
    assert ([QUOTE] + rest)[1..] == rest;
    assert s + [] == s;
  }

  /** An unsigned integer literal. */
  function PrintNat(n: nat): (t: Text)
    ensures |t| >= 1 && forall i :: 0 <= i < |t| ==> IsDigit(t[i])
  {
    seq(|Decimal.Digits(n)|, i requires 0 <= i < |Decimal.Digits(n)| => 0x30 + Decimal.Digits(n)[i])
  }

  /** An integer literal; negative zero prints as zero. */
  function PrintInt(n: int): Text {
    if n < 0 then [MINUS] + PrintNat(-n) else PrintNat(n)
  }

  /** How many digits `t` starts with. */
  function DigitRun(t: Text): (n: nat)
    ensures n <= |t| && forall i :: 0 <= i < n ==> IsDigit(t[i])
  {
    if t != [] && IsDigit(t[0]) then 1 + DigitRun(t[1..]) else 0
  }

  function DigitValues(t: Text): (ds: seq<int>)
    requires forall i :: 0 <= i < |t| ==> IsDigit(t[i])
    ensures |ds| == |t| && (forall i :: 0 <= i < |t| ==> ds[i] == t[i] as int - 0x30) && Decimal.AllDigits(ds)
  {
    assert forall i :: 0 <= i < |t| ==> IsDigit(t[i]) && 0 <= t[i] - 0x30 <= 9;
    seq(|t|, i requires 0 <= i < |t| => t[i] as int - 0x30)
  }

  function ReadNat(t: Text): (r: Option<(nat, Text)>)
    ensures r.Some? ==> |r.value.1| < |t|
  {
    var n := DigitRun(t);
    if n == 0 then None else Some((Decimal.Value(DigitValues(t[..n])), t[n..]))
  }

  ghost predicate NoDigitFirst(t: Text) {
    t != [] ==> !IsDigit(t[0])
  }

  lemma {:induction false} DigitRunOfDigits(ds: Text, rest: Text)
    requires forall i :: 0 <= i < |ds| ==> IsDigit(ds[i])
    requires NoDigitFirst(rest)
    ensures DigitRun(ds + rest) == |ds|
  {
    if ds == [] {
      assert ds + rest == rest;
    } else {
      assert (ds + rest)[1..] == ds[1..] + rest;
      DigitRunOfDigits(ds[1..], rest);
    }
  }

  lemma ReadNatUndoesPrint(n: nat, rest: Text)
    requires NoDigitFirst(rest)
    ensures ReadNat(PrintNat(n) + rest) == Some((n, rest))
  {
    var t := PrintNat(n) + rest;
    DigitRunOfDigits(PrintNat(n), rest);
    assert t[..|PrintNat(n)|] == PrintNat(n) && t[|PrintNat(n)|..] == rest;
    assert DigitValues(PrintNat(n)) == Decimal.Digits(n);
    Decimal.ValueOfDigits(n);
  }

  /** The order JavaScript's `<` puts on strings: code unit by code unit, a prefix first. */
  predicate Less(a: Text, b: Text) {
    b != [] && (a == [] || a[0] < b[0] || (a[0] == b[0] && Less(a[1..], b[1..])))
  }

  lemma {:induction false} LessTransitive(a: Text, b: Text, c: Text)
    requires Less(a, b) && Less(b, c)
    ensures Less(a, c)
  {
    if a != [] && a[0] == b[0] == c[0] {
      LessTransitive(a[1..], b[1..], c[1..]);
    }
  }

  lemma {:induction false} LessTotal(a: Text, b: Text)
    ensures Less(a, b) || Less(b, a) || a == b
    ensures !(Less(a, b) && Less(b, a))
    ensures Less(a, b) ==> a != b
  {
    if a != [] && b != [] && a[0] == b[0] {
      LessTotal(a[1..], b[1..]);
      assert a == [a[0]] + a[1..] && b == [b[0]] + b[1..];
    }
  }
}
