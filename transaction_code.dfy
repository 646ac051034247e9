/** Transaction codes `TRX-<5 random characters>-<DDMMYY>`: generateRandomCode
    and generateTransaction. The random draws and the current date are
    parameters. */
module TransactionCodes {
  import opened Wrappers
  import opened Digits

  /** The alphabet the random part is drawn from. */
  const Charset: string := "ABCDEFGHIJKLMNOPQRSTUVWXYZ0123456789"
  const RandomCodeLength: nat := 5
  const Prefix: string := "TRX-"
  /** Length of a full code: "TRX-" + 5 + "-" + 6. */
  const CodeLength: nat := 16

  /** Five characters, each one of Charset. */
  predicate IsRandomCode(code: string) {
    |code| == RandomCodeLength && forall i | 0 <= i < |code| :: code[i] in Charset
  }

  /** Draws acceptable to seededRand.Intn(len(charset)): five values in [0, 36). */
  predicate ValidDraws(draws: seq<int>) {
    |draws| == RandomCodeLength && forall i | 0 <= i < |draws| :: 0 <= draws[i] < |Charset|
  }

  /** The random part picked by a given sequence of draws. */
  function RandomCodeOf(draws: seq<int>): string
    requires ValidDraws(draws)
  {
    seq(RandomCodeLength, i requires 0 <= i < RandomCodeLength => Charset[draws[i]])
  }

  /** generateRandomCode: fills a 5-slot buffer, slot by slot, with the
      character of Charset that each draw selects. */
  method GenerateRandomCode(draws: seq<int>) returns (code: string)
    requires ValidDraws(draws)
    ensures code == RandomCodeOf(draws)
    ensures IsRandomCode(code)
  {
    var buffer := new char[RandomCodeLength];
    for i := 0 to RandomCodeLength
      invariant forall j | 0 <= j < i :: buffer[j] == Charset[draws[j]]
    {
      buffer[i] := Charset[draws[i]];
    }
    code := buffer[..];
  }

  /** A calendar date as time.Now() reports it. */
  datatype Date = Date(year: int, month: int, day: int)

  predicate ValidDate(d: Date) {
    1 <= d.month <= 12 && 1 <= d.day <= 31
  }

  /** The "06" layout element: the year's absolute value modulo 100. */
  function YearOfCentury(year: int): (y: nat)
    ensures y < 100
  {
    (if year < 0 then -year else year) % 100
  }

  /** A number below 100 printed as two digits, zero-padded ("02", "01"). */
  function TwoDigits(n: nat): (s: string)
    requires n < 100
    ensures |s| == 2 && IsDigit(s[0]) && IsDigit(s[1])
  {
    [DigitChar(n / 10), DigitChar(n % 10)]
  }

  function ParseTwoDigits(s: string): nat
    requires |s| == 2 && IsDigit(s[0]) && IsDigit(s[1])
  {
    10 * DigitValue(s[0]) + DigitValue(s[1])
  }

  lemma TwoDigitsRoundTrip(n: nat)
    requires n < 100
    ensures ParseTwoDigits(TwoDigits(n)) == n
  {
  }

  lemma TwoDigitsOfParse(s: string)
    requires |s| == 2 && IsDigit(s[0]) && IsDigit(s[1])
    ensures ParseTwoDigits(s) < 100 && TwoDigits(ParseTwoDigits(s)) == s
  {
  }

  lemma {:induction false} LastDigit(n: nat)
    ensures DecimalString(n)[|DecimalString(n)| - 1] == DigitChar(n % 10)
  {
  }

  /** The tens and units digits of n are those of n % 100. */
  lemma CenturyDigits(n: nat)
    ensures (n % 100) / 10 == (n / 10) % 10 && (n % 100) % 10 == n % 10
  {
    var q, r := n / 100, n % 100;
    assert n == 100 * q + r;
    assert n / 10 == 10 * q + r / 10;
  }

  /** The "06" element prints the last two digits of the decimal text of
      the year's absolute value, with a leading '0' for a one-digit year, so
      a year and its negation print alike. */
  lemma YearOfCenturyLastDigits(year: int)
    ensures YearOfCentury(-year) == YearOfCentury(year)
    ensures var a := if year < 0 then -year else year;
      var text := DecimalString(a);
      TwoDigits(YearOfCentury(year)) == if a < 10 then "0" + text else text[|text| - 2..]
  {
    var a: nat := if year < 0 then -year else year;
    var text := DecimalString(a);
    if a >= 10 {
      CenturyDigits(a);
      LastDigit(a / 10);
      var head := DecimalString(a / 10);
      assert text == head + [DigitChar(a % 10)];
      assert text[|text| - 2..] == [head[|head| - 1], DigitChar(a % 10)];
      assert TwoDigits(a % 100) == [DigitChar((a / 10) % 10), DigitChar(a % 10)];
    } else {
      assert a % 100 == a;
    }
  }

  /** The pieces a transaction code is made of. */
  datatype CodeParts = CodeParts(random: string, day: nat, month: nat, year: nat)

  predicate WellFormedParts(p: CodeParts) {
    IsRandomCode(p.random) && p.day < 100 && p.month < 100 && p.year < 100
  }

  /** fmt.Sprintf("TRX-%s-%s", randomCode, formattedDate): 16 characters,
      each piece at its fixed offset. */
  function Assemble(p: CodeParts): (s: string)
    requires WellFormedParts(p)
    ensures |s| == CodeLength
    ensures s[..4] == Prefix && s[4..9] == p.random && s[9] == '-'
    ensures s[10..12] == TwoDigits(p.day) && s[12..14] == TwoDigits(p.month)
    ensures s[14..] == TwoDigits(p.year)
  {
    var dd, mm, yy := TwoDigits(p.day), TwoDigits(p.month), TwoDigits(p.year);
    var s := Prefix + p.random + "-" + dd + mm + yy;
    assert s[..4] == Prefix by { assert forall i | 0 <= i < 4 :: s[i] == Prefix[i]; }
    assert s[4..9] == p.random by { assert forall i | 0 <= i < 5 :: s[4 + i] == p.random[i]; }
    assert s[10..12] == dd by { assert forall i | 0 <= i < 2 :: s[10 + i] == dd[i]; }
    assert s[12..14] == mm by { assert forall i | 0 <= i < 2 :: s[12 + i] == mm[i]; }
    assert s[14..] == yy by { assert forall i | 0 <= i < 2 :: s[14 + i] == yy[i]; }
    s
  }

  /** currentTime.Format("020106"): day, month, year of century. */
  function PartsOf(randomCode: string, date: Date): (p: CodeParts)
    requires IsRandomCode(randomCode) && ValidDate(date)
    ensures WellFormedParts(p)
  {
    CodeParts(randomCode, date.day, date.month, YearOfCentury(date.year))
  }

  /** generateTransaction's string assembly, for a given random part and
      date; the parser recovers the random part, day, month and year of
      century from it. */
  function TransactionCode(randomCode: string, date: Date): (s: string)
    requires IsRandomCode(randomCode) && ValidDate(date)
    ensures |s| == CodeLength
    ensures ParseTransactionCode(s) == Some(CodeParts(randomCode, date.day, date.month, YearOfCentury(date.year)))
  {
    ParseAssemble(PartsOf(randomCode, date));
    Assemble(PartsOf(randomCode, date))
  }

  /** The code generateTransaction produces from the given draws and date. */
  function TransactionCodeOf(draws: seq<int>, date: Date): string
    requires ValidDraws(draws) && ValidDate(date)
  {
    RandomCodeOfIsRandomCode(draws);
    TransactionCode(RandomCodeOf(draws), date)
  }

  lemma RandomCodeOfIsRandomCode(draws: seq<int>)
    requires ValidDraws(draws)
    ensures IsRandomCode(RandomCodeOf(draws))
  {
  }

  /** Reads a string back into its parts, if it has the shape of a code. */
  function ParseTransactionCode(s: string): Option<CodeParts> {
    if |s| == CodeLength && s[..4] == Prefix && s[9] == '-'
       && IsRandomCode(s[4..9]) && ValidateNumberString(s[10..])
    then Some(CodeParts(s[4..9], ParseTwoDigits(s[10..12]),
                        ParseTwoDigits(s[12..14]), ParseTwoDigits(s[14..16])))
    else None
  }

  /** Every assembled code parses back to the parts it was made of. */
  lemma ParseAssemble(p: CodeParts)
    requires WellFormedParts(p)
    ensures ParseTransactionCode(Assemble(p)) == Some(p)
  {
    var s := Assemble(p);
    assert s[10..] == s[10..12] + s[12..14] + s[14..];
    TwoDigitsRoundTrip(p.day);
    TwoDigitsRoundTrip(p.month);
    TwoDigitsRoundTrip(p.year);
  }

  /** Every string that parses is exactly the code assembled from its parts. */
  lemma AssembleParse(s: string)
    requires ParseTransactionCode(s).Some?
    ensures WellFormedParts(ParseTransactionCode(s).value)
    ensures Assemble(ParseTransactionCode(s).value) == s
  {
    var p := ParseTransactionCode(s).value;
    var dd, mm, yy := s[10..12], s[12..14], s[14..16];
    assert ValidateNumberString(s[10..]);
    assert dd[0] == s[10] && dd[1] == s[11] && mm[0] == s[12] && mm[1] == s[13];
    assert yy[0] == s[14] && yy[1] == s[15];
    TwoDigitsOfParse(dd);
    TwoDigitsOfParse(mm);
    TwoDigitsOfParse(yy);
    assert WellFormedParts(p);
    var dash := s[9..10];
    assert dash == "-";
    assert s == s[..4] + s[4..9] + dash + dd + mm + yy by {
      assert s[..4] + s[4..9] + dash + dd + mm + yy == s[..4] + s[4..];
    }
  }

  /** The shape of every generated code: 16 characters, "TRX-", five
      characters of Charset, '-', then the zero-padded day, month and year
      of century. */
  lemma TransactionCodeShape(randomCode: string, date: Date)
    requires IsRandomCode(randomCode) && ValidDate(date)
    ensures var s := TransactionCode(randomCode, date);
      && |s| == CodeLength
      && s[..4] == Prefix
      && s[4..9] == randomCode
      && s[9] == '-'
      && s[10..12] == TwoDigits(date.day)
      && s[12..14] == TwoDigits(date.month)
      && s[14..] == TwoDigits(YearOfCentury(date.year))
      && ParseTransactionCode(s) == Some(CodeParts(randomCode, date.day, date.month, YearOfCentury(date.year)))
  {
  }

  /** generateTransaction: draws the random part, then formats the date. */
  method GenerateTransaction(draws: seq<int>, date: Date) returns (code: string)
    requires ValidDraws(draws) && ValidDate(date)
    ensures code == TransactionCodeOf(draws, date)
    ensures ParseTransactionCode(code).Some?
  {
    var randomCode := GenerateRandomCode(draws);
    code := TransactionCode(randomCode, date);
    TransactionCodeShape(randomCode, date);
  }
}
