/** Go's `strconv.Atoi` on the strings the scraper hands it, which are always
    runs of ASCII digits (possibly empty), with Go's `int` taken as 64 bits. */
module Strconv {
  import opened Strings

  /** `math.MaxInt` on a 64-bit platform. */
  const MaxInt: int := 0x7FFF_FFFF_FFFF_FFFF

  function DigitValue(c: char): (v: nat)
    requires IsDigit(c)
    ensures v < 10
  {
    c as int - '0' as int
  }

  function DigitChar(v: nat): (c: char)
    requires v < 10
    ensures IsDigit(c) && DigitValue(c) == v
  {
    ('0' as int + v) as char
  }

  /** The number a string of decimal digits denotes, most significant first. */
  function DecimalValue(d: string): nat
    requires AllDigits(d)
  {
    if d == [] then 0 else 10 * DecimalValue(d[..|d| - 1]) + DigitValue(d[|d| - 1])
  }

  /** The error part of Go's `(int, error)` result. */
  datatype NumError = NoError | ErrSyntax | ErrRange

  datatype Parsed = Parsed(value: int, err: NumError)

  /** `strconv.Atoi(d)`: the empty string is a syntax error with value 0; a
      number above MaxInt is a range error whose value is MaxInt. */
  function Atoi(d: string): (r: Parsed)
    requires AllDigits(d)
    ensures 0 <= r.value <= MaxInt
    ensures r.err == ErrSyntax <==> d == []
    ensures r.err == NoError <==> d != [] && r.value == DecimalValue(d)
    ensures r.err == ErrRange ==> r.value == MaxInt < DecimalValue(d)
  {
    if d == [] then Parsed(0, ErrSyntax)
    else if DecimalValue(d) > MaxInt then Parsed(MaxInt, ErrRange)
    else Parsed(DecimalValue(d), NoError)
  }

  /** `strconv.Itoa` on a natural number: its decimal digits, no leading zero. */
  function Itoa(n: nat): (d: string)
    ensures AllDigits(d) && d != []
    ensures |d| > 1 ==> d[0] != '0'
  {
    if n < 10 then [DigitChar(n)] else Itoa(n / 10) + [DigitChar(n % 10)]
  }

  lemma {:induction false} DecimalValueOfItoa(n: nat)
    ensures DecimalValue(Itoa(n)) == n
  {
    if n >= 10 {
      var d := Itoa(n);
      assert d[..|d| - 1] == Itoa(n / 10);
      DecimalValueOfItoa(n / 10);
    }
  }

  /** Atoi reads back what Itoa writes, for every number an `int` can hold. */
  lemma AtoiItoa(n: nat)
    requires n <= MaxInt
    ensures Atoi(Itoa(n)) == Parsed(n, NoError)
  {
    DecimalValueOfItoa(n);
  }
}
