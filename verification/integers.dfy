/** Python's `int(s)` on strings and `str(n)` on integers, in base 10. */
module Integers {
  import opened Outcomes
  import opened Text

  predicate IsDigit(c: char) {
    '0' <= c <= '9'
  }

  function DigitValue(c: char): nat
    requires IsDigit(c)
  {
    c as int - '0' as int
  }

  function DigitChar(d: nat): (c: char)
    requires d < 10
    ensures IsDigit(c) && DigitValue(c) == d
  {
    ('0' as int + d) as char
  }

  /** The whitespace `int()` skips around a literal: the six ASCII blanks and
      every non-ASCII character `str.isspace` accepts. The separators
      U+001C..U+001F count as whitespace for `str.strip` but not for `int()`. */
  predicate IsIntSpace(c: char) {
    c == ' ' || '\t' <= c <= '\r' || (c as int >= 0x7F && IsSpace(c))
  }

  predicate AllIntSpace(w: string) {
    forall k :: 0 <= k < |w| ==> IsIntSpace(w[k])
  }

  /** Decimal digits with single underscores between them, the base-10 body
      `int()` accepts: `5432`, `5_432`, `007`, but not `_5`, `5_` or `5__4`. */
  predicate IsDigitGroups(d: string) {
    && |d| > 0 && IsDigit(d[0]) && IsDigit(d[|d| - 1])
    && (forall i :: 0 <= i < |d| ==> IsDigit(d[i]) || d[i] == '_')
    && (forall i :: 0 < i < |d| && d[i] == '_' ==> d[i - 1] != '_')
  }

  /** The digits of `d` read in base 10, underscores skipped. */
  function GroupedValue(d: string): nat
  {
    if d == [] then 0
    else
      var last := d[|d| - 1];
      var prefix := GroupedValue(d[..|d| - 1]);
      if IsDigit(last) then prefix * 10 + DigitValue(last) else prefix
  }

  /** Digit groups with an optional leading `+` or `-`. */
  predicate IsSignedDigits(t: string) {
    || IsDigitGroups(t)
    || (|t| > 0 && (t[0] == '+' || t[0] == '-') && IsDigitGroups(t[1..]))
  }

  /** The value of an optionally signed run of digit groups. */
  function SignedValue(t: string): int {
    if |t| > 0 && t[0] == '-' then -(GroupedValue(t[1..]) as int)
    else if |t| > 0 && t[0] == '+' then GroupedValue(t[1..])
    else GroupedValue(t)
  }

  /** `int(s)`: `None` where Python raises `ValueError`. */
  function ParseInt(s: string): Option<int> {
    var t := StripWith(s, IsIntSpace);
    if IsSignedDigits(t) then Some(SignedValue(t)) else None
  }

  /** The strings `int()` accepts, described by their parts: whitespace, an
      optionally signed run of digit groups, whitespace. */
  ghost predicate IsIntLiteral(s: string) {
    exists i, j :: 0 <= i < j <= |s| && AllIntSpace(s[..i]) && AllIntSpace(s[j..]) && IsSignedDigits(s[i..j])
  }

  /** `str(n)` for a non-negative `n`: decimal digits without leading zeros. */
  function NatToString(n: nat): (r: string)
    ensures |r| > 0
    ensures forall i :: 0 <= i < |r| ==> IsDigit(r[i])
    ensures r[0] == '0' ==> n == 0 && |r| == 1
  {
    if n < 10 then [DigitChar(n)] else NatToString(n / 10) + [DigitChar(n % 10)]
  }

  /** `str(n)`: digits, after a minus sign when `n` is negative. */
  function IntToString(n: int): (r: string)
    ensures |r| > 0 && (r[0] == '-' <==> n < 0)
    ensures forall i :: 0 < i < |r| ==> IsDigit(r[i])
  {
    if n < 0 then "-" + NatToString(-n) else NatToString(n)
  }

  /** Reading back the digits `str` writes gives the number. */
  lemma {:induction false} NatToStringValue(n: nat)
    ensures GroupedValue(NatToString(n)) == n
  {
    var r := NatToString(n);
    if n >= 10 {
      var p := NatToString(n / 10);
      assert r == p + [DigitChar(n % 10)];
      assert r[..|r| - 1] == p;
      NatToStringValue(n / 10);
    }
  }

  /** `int()` accepts exactly the whitespace-padded, optionally signed digit groups. */
  lemma ParseIntAcceptsLiterals(s: string)
    ensures ParseInt(s).Some? <==> IsIntLiteral(s)
  {
    if ParseInt(s).Some? {
      AcceptedIsLiteral(s);
    }
    if IsIntLiteral(s) {
      var i, j :| 0 <= i < j <= |s| && AllIntSpace(s[..i]) && AllIntSpace(s[j..]) && IsSignedDigits(s[i..j]);
      LiteralSpan(s, i, j);
    }
  }

  /** What `int()` accepts splits into whitespace, literal and whitespace. */
  lemma AcceptedIsLiteral(s: string)
    requires ParseInt(s).Some?
    ensures IsIntLiteral(s)
  {
    var i, j := StripWithSpan(s, IsIntSpace);
    var lit := s[i..j];
    assert IsSignedDigits(lit);
    assert i < j by {
      assert |lit| > 0;
    }
    forall k | 0 <= k < i
      ensures IsIntSpace(s[..i][k])
    {
      assert s[..i][k] == s[k];
    }
    forall k | 0 <= k < |s| - j
      ensures IsIntSpace(s[j..][k])
    {
      assert s[j..][k] == s[j + k];
    }
    LiteralWitness(s, i, j);
  }

  /** A span of the right shape witnesses `IsIntLiteral`. */
  lemma LiteralWitness(s: string, i: nat, j: nat)
    requires i < j <= |s| && AllIntSpace(s[..i]) && AllIntSpace(s[j..]) && IsSignedDigits(s[i..j])
    ensures IsIntLiteral(s)
  {
  }

  /** The span `s[i..j]` of an integer literal is what stripping keeps. */
  lemma LiteralSpan(s: string, i: nat, j: nat)
    requires i < j <= |s| && AllIntSpace(s[..i]) && AllIntSpace(s[j..]) && IsSignedDigits(s[i..j])
    ensures StripWith(s, IsIntSpace) == s[i..j]
  {
    var lit := s[i..j];
    assert s[i] == lit[0] && s[j - 1] == lit[|lit| - 1];
    assert forall k :: 0 <= k < i ==> s[k] == s[..i][k];
    assert forall k :: j <= k < |s| ==> s[k] == s[j..][k - j];
    if !IsDigitGroups(lit) {
      assert lit[|lit| - 1] == lit[1..][|lit| - 2];
    }
    StripWithAt(s, IsIntSpace, i, j);
  }

  /** `int()` ignores whitespace around the literal and reads its signed value. */
  lemma ParseIntPadded(before: string, lit: string, after: string)
    requires AllIntSpace(before) && AllIntSpace(after) && IsSignedDigits(lit)
    ensures ParseInt(before + lit + after) == Some(SignedValue(lit))
  {
    var s := before + lit + after;
    var i, j := |before|, |before| + |lit|;
    assert s[..i] == before && s[j..] == after && s[i..j] == lit;
    LiteralSpan(s, i, j);
  }

  /** `str(n)` is an optionally signed run of digits whose value is `n`. */
  lemma IntToStringIsLiteral(n: int)
    ensures IsSignedDigits(IntToString(n)) && SignedValue(IntToString(n)) == n
  {
    var m := if n < 0 then -n else n;
    var digits := NatToString(m);
    NatToStringValue(m);
    assert IsDigitGroups(digits);
    if n < 0 {
      var lit := IntToString(n);
      assert lit[0] == '-' && lit[1..] == digits;
    }
  }

  /** `int(str(n)) == n` for every integer `n`. */
  lemma ParseIntOfIntToString(n: int)
    ensures ParseInt(IntToString(n)) == Some(n)
  {
    IntToStringIsLiteral(n);
    ParseIntOfLiteral(IntToString(n));
  }

  /** An unpadded literal is read as its signed value. */
  lemma ParseIntOfLiteral(lit: string)
    requires IsSignedDigits(lit)
    ensures ParseInt(lit) == Some(SignedValue(lit))
  {
    assert lit[..0] == "" && lit[|lit|..] == "" && lit[0..|lit|] == lit;
    LiteralSpan(lit, 0, |lit|);
  }

  /** Base-10 values of sample digit groups. */
  lemma GroupedValueExamples()
    ensures GroupedValue("5_432") == 5432
    ensures GroupedValue("007") == 7
    ensures GroupedValue("1") == 1
  {
    assert "5_432"[..4] == "5_43" && "5_43"[..3] == "5_4" && "5_4"[..2] == "5_" && "5_"[..1] == "5";
    assert "007"[..2] == "00" && "00"[..1] == "0" && "0"[..0] == "";
  }

  /** `int()` skips surrounding whitespace and digit separators: `int(" 5_432\n") == 5432`. */
  lemma ParseIntPaddedExample()
    ensures ParseInt(" 5_432\n") == Some(5432)
  {
    var s := " 5_432\n";
    var lit := "5_432";
    assert s[..1] == " " && s[6..] == "\n" && s[1..6] == lit;
    assert IsSignedDigits(lit);
    assert SignedValue(lit) == 5432 by {
      GroupedValueExamples();
    }
    LiteralSpan(s, 1, 6);
    assert StripWith(s, IsIntSpace) == lit;
  }

  /** Leading zeros are read in base 10. */
  lemma ParseIntLeadingZerosExample()
    ensures ParseInt("007") == Some(7)
  {
    assert IsSignedDigits("007");
    assert SignedValue("007") == 7 by {
      GroupedValueExamples();
    }
    ParseIntOfLiteral("007");
  }

  /** A leading minus sign negates the value. */
  lemma ParseIntNegativeExample()
    ensures ParseInt("-1") == Some(-1)
  {
    assert "-1"[1..] == "1";
    ParseIntOfLiteral("-1");
    GroupedValueExamples();
  }

  /** A decimal point and an empty string are refused. */
  lemma ParseIntRefusesExample()
    ensures ParseInt("54.32") == None
    ensures ParseInt("") == None
  {
    StripWithAt("54.32", IsIntSpace, 0, 5);
    assert "54.32"[0..5] == "54.32";
    assert "54.32"[2] == '.';
  }
}
