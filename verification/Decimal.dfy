/** Decimal numerals: printing, `strconv.ParseUint` and `strconv.ParseInt`. */
module Decimal {
  import opened Basics

  const UINT64_LIMIT: int := 0x1_0000_0000_0000_0000
  const INT64_LIMIT: int := 0x8000_0000_0000_0000

  predicate IsDigit(c: char) {
    '0' <= c <= '9'
  }

  predicate AllDigits(s: string) {
    forall i :: 0 <= i < |s| ==> IsDigit(s[i])
  }

  function DigitChar(n: nat): (c: char)
    requires n < 10
    ensures IsDigit(c)
  {
    ('0' as int + n) as char
  }

  function DigitValue(c: char): (n: nat)
    requires IsDigit(c)
    ensures n < 10
  {
    c as int - '0' as int
  }

  function Value(s: string): nat
    requires AllDigits(s)
  {
    if s == "" then 0 else 10 * Value(s[..|s| - 1]) + DigitValue(s[|s| - 1])
  }

  function Print(n: nat): (s: string)
    ensures s != "" && AllDigits(s)
  {
    if n < 10 then [DigitChar(n)] else Print(n / 10) + [DigitChar(n % 10)]
  }

  function PrintInt(n: int): string {
    if n < 0 then "-" + Print(-n) else Print(n)
  }

  function ParseUint(s: string): Option<nat> {
    if s != "" && AllDigits(s) && Value(s) < UINT64_LIMIT then Some(Value(s)) else None
  }

  function ParseInt(s: string): Option<int> {
    var signed := s != "" && s[0] in {'+', '-'};
    var digits := if signed then s[1..] else s;
    if digits == "" || !AllDigits(digits) then None
    else
      var n: int := Value(digits);
      var v := if s[0] == '-' then -n else n;
      if -INT64_LIMIT <= v < INT64_LIMIT then Some(v) else None
  }

  lemma {:induction false} ValuePrint(n: nat)
    ensures Value(Print(n)) == n
  {
    var s := Print(n);
    if n >= 10 {
      ValuePrint(n / 10);
      assert s[..|s| - 1] == Print(n / 10);
    } else {
      assert s[..0] == "";
    }
  }

  lemma ParseIntPrint(n: int)
    requires -INT64_LIMIT <= n < INT64_LIMIT
    ensures ParseInt(PrintInt(n)) == Some(n)
  {
    if n < 0 {
      ValuePrint(-n);
      assert PrintInt(n)[1..] == Print(-n);
    } else {
      ValuePrint(n);
      assert IsDigit(PrintInt(n)[0]);
    }
  }

  /** Numerals as OpenVPN prints client IDs: no sign, no leading zero, below 2^64. */
  predicate Canonical(s: string) {
    ParseUint(s).Some? && (|s| > 1 ==> s[0] != '0')
  }

  lemma {:induction false} PrintValue(s: string)
    requires s != "" && AllDigits(s) && (|s| > 1 ==> s[0] != '0')
    ensures Print(Value(s)) == s
    ensures s[0] != '0' ==> Value(s) >= 1
    decreases |s|
  {
    var init := s[..|s| - 1];
    if |s| > 1 {
      PrintValue(init);
      var v := Value(init);
      var d := DigitValue(s[|s| - 1]);
      assert (10 * v + d) / 10 == v && (10 * v + d) % 10 == d;
      assert s == init + [s[|s| - 1]];
    } else {
      assert Value(init) == 0;
    }
  }

  /** Different canonical numerals denote different numbers. */
  lemma CanonicalInjective(a: string, b: string)
    requires Canonical(a) && Canonical(b) && Value(a) == Value(b)
    ensures a == b
  {
    PrintValue(a);
    PrintValue(b);
  }

  function Pow10(k: nat): (p: nat)
    ensures p >= 1
  {
    if k == 0 then 1 else 10 * Pow10(k - 1)
  }

  /** A number has at most `k` digits exactly when it is below ten to the `k`. */
  lemma {:induction false} PrintLength(n: nat, k: nat)
    requires k >= 1
    ensures |Print(n)| <= k <==> n < Pow10(k)
  {
    if k == 1 {
      assert Pow10(1) == 10;
    } else if n >= 10 {
      PrintLength(n / 10, k - 1);
      assert n / 10 < Pow10(k - 1) <==> n < 10 * Pow10(k - 1);
    } else {
      assert Pow10(k) == 10 * Pow10(k - 1);
    }
  }

  /** Digits are written as digits. */
  lemma DigitText(n: nat)
    requires n < 10
    ensures Print(n) == ["0123456789"[n]]
  {
  }

  /** A plus sign is allowed and means nothing. */
  lemma PlusSign(n: nat)
    requires n < 9_223_372_036_854_775_808
    ensures ParseInt("+" + Print(n)) == Some(n)
  {
    ValuePrint(n);
    assert ("+" + Print(n))[1..] == Print(n);
  }

  /** Numbers outside 64 signed bits are refused. */
  lemma OutOfRange(n: int)
    requires n < -9_223_372_036_854_775_808 || n >= 9_223_372_036_854_775_808
    ensures ParseInt(PrintInt(n)) == None
  {
    var digits := Print(if n < 0 then -n else n);
    ValuePrint(if n < 0 then -n else n);
    hide Value, Print;
    if n < 0 {
      assert PrintInt(n)[0] == '-' && PrintInt(n)[1..] == digits;
    } else {
      assert PrintInt(n) == digits && IsDigit(digits[0]);
    }
  }

  /** Unsigned numerals are read up to 64 bits and not beyond. */
  lemma ParseUintPrint(n: nat)
    ensures ParseUint(Print(n)) == if n < 18_446_744_073_709_551_616 then Some(n) else None
  {
    ValuePrint(n);
  }

  /** A text with anything but digits after the sign is refused. */
  lemma NotANumber(s: string, k: nat)
    requires k < |s| && !IsDigit(s[k]) && !(k == 0 && s[0] in {'+', '-'})
    ensures ParseInt(s) == None && ParseUint(s) == None
  {
    if s[0] in {'+', '-'} {
      assert s[1..][k - 1] == s[k];
    }
  }
}
