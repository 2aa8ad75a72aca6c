/** Decimal text of 64-bit integers, as strconv prints and parses it. */
module Numerals {
  import opened Basics

  const MIN_INT64: int := -0x8000_0000_0000_0000
  const MAX_INT64: int := 0x7FFF_FFFF_FFFF_FFFF
  const TWO_TO_THE_64: int := 0x1_0000_0000_0000_0000

  type Int64 = x: int | -0x8000_0000_0000_0000 <= x <= 0x7FFF_FFFF_FFFF_FFFF

  predicate InInt64(x: int) {
    MIN_INT64 <= x <= MAX_INT64
  }

  /** Two's-complement wrap-around of an unbounded result. */
  function Wrap64(x: int): (w: Int64)
    ensures exists k: int :: w == x + k * TWO_TO_THE_64
    ensures InInt64(x) ==> w == x
  {
    var k := (x - MIN_INT64) / TWO_TO_THE_64;
    assert (x - MIN_INT64) % TWO_TO_THE_64 == (x - MIN_INT64) - k * TWO_TO_THE_64;
    assert x - k * TWO_TO_THE_64 == x + (-k) * TWO_TO_THE_64;
    (x - MIN_INT64) % TWO_TO_THE_64 + MIN_INT64
  }

  /** Go's integer division by a positive constant truncates toward zero. */
  function TruncDiv(x: int, d: int): (q: int)
    requires d > 0
  {
    if x >= 0 then x / d else -((-x) / d)
  }

  predicate IsDigit(c: char) {
    '0' <= c <= '9'
  }

  function DigitChar(d: nat): char
    requires d < 10
  {
    ('0' as int + d) as char
  }

  function DigitValue(c: char): (d: nat)
    requires IsDigit(c)
    ensures d < 10
  {
    c as int - '0' as int
  }

  function Digits(n: nat): string {
    if n < 10 then [DigitChar(n)] else Digits(n / 10) + [DigitChar(n % 10)]
  }

  lemma {:induction false} DigitsAreDigits(n: nat)
    ensures Digits(n) != "" && IsDigit(Digits(n)[0])
  {
    if n >= 10 {
      DigitsAreDigits(n / 10);
    }
  }

  function FormatInt(x: int): (s: string) {
    if x < 0 then "-" + Digits(-x) else Digits(x)
  }

  /** The value of a non-empty run of decimal digits; None for any other text. */
  function ParseDigits(s: string): Option<nat> {
    if s == "" then None
    else if !IsDigit(s[|s| - 1]) then None
    else if |s| == 1 then Some(DigitValue(s[0]))
    else
      match ParseDigits(s[..|s| - 1])
      case None => None
      case Some(n) => Some(10 * n + DigitValue(s[|s| - 1]))
  }

  /** strconv.Atoi and strconv.ParseInt(s, 10, 64): an optional sign, then digits,
      then the range check. */
  function ParseInt(s: string): (r: Option<Int64>) {
    var negative := s != "" && s[0] == '-';
    var body := if s != "" && (s[0] == '-' || s[0] == '+') then s[1..] else s;
    match ParseDigits(body)
    case None => None
    case Some(n) =>
      var magnitude: int := n;
      var x := if negative then -magnitude else magnitude;
      if InInt64(x) then Some(x) else None
  }

  lemma {:induction false} DigitsRoundTrip(n: nat)
    ensures ParseDigits(Digits(n)) == Some(n)
  {
    if n >= 10 {
      DigitsRoundTrip(n / 10);
      DigitsAreDigits(n / 10);
      var s := Digits(n);
      assert s[..|s| - 1] == Digits(n / 10);
      assert s[|s| - 1] == DigitChar(n % 10);
    }
  }

  /** Printing an integer and parsing the text gives the integer back exactly when it
      fits 64 bits; any other integer's text is rejected. */
  lemma FormatParse(x: int)
    ensures ParseInt(FormatInt(x)) == if InInt64(x) then Some(x) else None
  {
    if x < 0 {
      DigitsRoundTrip(-x);
      assert FormatInt(x)[1..] == Digits(-x);
    } else {
      DigitsRoundTrip(x);
      DigitsAreDigits(x);
    }
  }

  predicate AllDigits(s: string) {
    s != "" && forall i :: 0 <= i < |s| ==> '0' <= s[i] <= '9'
  }

  lemma {:induction false} DigitsOnly(s: string)
    ensures ParseDigits(s).Some? <==> AllDigits(s)
  {
    if |s| > 1 {
      DigitsOnly(s[..|s| - 1]);
    }
  }

  /** A text is refused if and only if it is not an optionally signed run of digits, or its value
      does not fit 64 bits. */
  lemma ParseIntExactly(s: string)
    ensures var signed := s != "" && (s[0] == '-' || s[0] == '+');
      var body := if signed then s[1..] else s;
      ParseInt(s).Some? <==>
        && AllDigits(body) && ParseDigits(body).Some?
        && ParseDigits(body).value <= if signed && s[0] == '-' then 0x8000_0000_0000_0000 else 0x7FFF_FFFF_FFFF_FFFF
  {
    var body := if s != "" && (s[0] == '-' || s[0] == '+') then s[1..] else s;
    DigitsOnly(body);
  }

  /** Decimal notation, most significant digit first. */
  lemma DecimalText()
    ensures FormatInt(-1203) == "-1203" && FormatInt(0) == "0" && FormatInt(98) == "98"
    ensures ParseInt("-1203") == Some(-1203) && ParseInt("+98") == Some(98)
  {
    assert Digits(1) == "1";
    assert Digits(12) == "12";
    assert Digits(120) == "120";
    assert Digits(1203) == "1203";
    assert Digits(98) == "98" by { assert Digits(9) == "9"; }
    FormatParse(-1203);
    DigitsRoundTrip(98);
    assert "+98"[1..] == "98";
  }
}
