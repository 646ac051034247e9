/** Decimal digit strings: the `^\d+$` validator and the decimal text of an
    account number (strconv.Itoa of a draw in [0, 10^10)). */
module Digits {

  /** Upper bound (exclusive) of the random account-number draw: 1e10. */
  const AccountNumberBound: nat := 10_000_000_000

  predicate IsDigit(c: char) {
    '0' <= c <= '9'
  }

  function DigitChar(d: nat): (c: char)
    requires d < 10
    ensures IsDigit(c)
  {
    (('0' as int) + d) as char
  }

  function DigitValue(c: char): (d: nat)
    requires IsDigit(c)
    ensures d < 10 && DigitChar(d) == c
  {
    (c as int) - ('0' as int)
  }

  /** `^\d+$` in Go's RE2: `\d` is the ASCII class [0-9] and `$` (no `m`
      flag) anchors at the end of the text, so the match succeeds exactly
      for a non-empty run of ASCII digits. */
  function ValidateNumberString(s: string): (ok: bool)
    ensures ok <==> |s| > 0 && forall i | 0 <= i < |s| :: IsDigit(s[i])
  {
    |s| > 0 && IsDigit(s[0]) && (|s| == 1 || ValidateNumberString(s[1..]))
  }

  /** A digit string with no superfluous leading zero, as Itoa prints it. */
  predicate Canonical(s: string) {
    ValidateNumberString(s) && (|s| > 1 ==> s[0] != '0')
  }

  function Pow10(k: nat): (p: nat)
    ensures p >= 1
  {
    if k == 0 then 1 else 10 * Pow10(k - 1)
  }

  /** strconv.Itoa on a non-negative integer: its shortest decimal text. */
  function DecimalString(n: nat): (s: string)
    ensures Canonical(s)
    decreases n
  {
    if n < 10 then [DigitChar(n)]
    else
      var prefix := DecimalString(n / 10);
      assert prefix[0] != '0' by {
        if |prefix| == 1 { assert prefix == [DigitChar(n / 10)]; }
      }
      prefix + [DigitChar(n % 10)]
  }

  /** The value a digit string denotes: the inverse of DecimalString. */
  function ParseDecimal(s: string): nat
    requires ValidateNumberString(s) || s == []
    decreases |s|
  {
    if s == [] then 0
    else
      assert ValidateNumberString(s[..|s| - 1]) || s[..|s| - 1] == [];
      10 * ParseDecimal(s[..|s| - 1]) + DigitValue(s[|s| - 1])
  }

  lemma {:induction false} ParseDecimalString(n: nat)
    ensures ParseDecimal(DecimalString(n)) == n
    decreases n
  {
    var s := DecimalString(n);
    if n < 10 {
      assert s[..|s| - 1] == [];
    } else {
      ParseDecimalString(n / 10);
      assert s[..|s| - 1] == DecimalString(n / 10);
    }
  }

  lemma {:induction false} ParseDecimalPositive(s: string)
    requires ValidateNumberString(s) && s[0] != '0'
    ensures ParseDecimal(s) > 0
    decreases |s|
  {
    if |s| > 1 {
      var prefix := s[..|s| - 1];
      assert prefix[0] == s[0];
      ParseDecimalPositive(prefix);
    }
  }

  lemma {:induction false} DecimalStringOfParse(s: string)
    requires Canonical(s)
    ensures DecimalString(ParseDecimal(s)) == s
    decreases |s|
  {
    var n := ParseDecimal(s);
    var prefix := s[..|s| - 1];
    var d := DigitValue(s[|s| - 1]);
    if |s| == 1 {
      assert prefix == [];
      assert n == d;
    } else {
      assert prefix[0] == s[0];
      ParseDecimalPositive(prefix);
      var m := ParseDecimal(prefix);
      assert n == 10 * m + d;
      assert n / 10 == m && n % 10 == d;
      DecimalStringOfParse(prefix);
      assert s == prefix + [s[|s| - 1]];
    }
  }

  lemma {:induction false} DecimalStringLength(n: nat, k: nat)
    requires 1 <= k && n < Pow10(k)
    ensures |DecimalString(n)| <= k
    decreases n
  {
    if n >= 10 {
      assert n / 10 < Pow10(k - 1);
      DecimalStringLength(n / 10, k - 1);
    }
  }

  lemma TenDigits()
    ensures Pow10(10) == AccountNumberBound
  {
  }

  /** The account number CreateAccount assigns for a draw of
      rand.Int63n(1e10): the draw printed by strconv.Itoa, between one and
      ten digits (no zero padding), and the draw can be read back from it. */
  function AccountNumber(draw: nat): (no: string)
    requires draw < AccountNumberBound
    ensures ValidateNumberString(no) && 1 <= |no| <= 10
    ensures ParseDecimal(no) == draw
  {
    TenDigits();
    DecimalStringLength(draw, 10);
    ParseDecimalString(draw);
    DecimalString(draw)
  }

  /** Distinct draws give distinct account numbers. */
  lemma AccountNumberInjective(a: nat, b: nat)
    requires a < AccountNumberBound && b < AccountNumberBound
    ensures AccountNumber(a) == AccountNumber(b) <==> a == b
  {
  }

  /** Leading zeros of the draw are not printed: a draw below 10^9 yields
      fewer than ten digits. */
  lemma {:induction false} ShortAccountNumber(draw: nat)
    requires draw < Pow10(9)
    ensures |AccountNumber(draw)| <= 9
  {
    assert Pow10(9) < AccountNumberBound by { TenDigits(); }
    DecimalStringLength(draw, 9);
  }
}
