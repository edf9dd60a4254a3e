/** Decimal text of integers: Go's `strconv.Itoa` and C's `strtol` in base
    10, with the round trip between them. */
module Numerals {

  predicate IsDigit(c: char)
  {
    '0' <= c <= '9'
  }

  /** White space as C's `isspace` and Go's ASCII `unicode.IsSpace` both
      see it: space, tab, newline, vertical tab, form feed, carriage return. */
  predicate IsSpace(c: char)
  {
    c == ' ' || c == '\t' || c == '\n' || c == '\r' || c as int == 0x0C || c as int == 0x0B
  }

  /** Length of the run of decimal digits at the start of `s`. */
  function DigitsLen(s: string): (n: nat)
    ensures n <= |s|
    ensures forall i :: 0 <= i < n ==> IsDigit(s[i])
    ensures n == |s| || !IsDigit(s[n])
  {
    if s == [] || !IsDigit(s[0]) then 0 else 1 + DigitsLen(s[1..])
  }

  /** The number a string of decimal digits denotes. */
  function DigitsValue(d: string): nat
    requires forall i :: 0 <= i < |d| ==> IsDigit(d[i])
  {
    if d == [] then 0
    else
      assert IsDigit(d[|d| - 1]);
      DigitsValue(d[..|d| - 1]) * 10 + (d[|d| - 1] as int - '0' as int)
  }

  function SkipSpaces(s: string): (r: string)
    ensures |r| <= |s|
  {
    if s != [] && IsSpace(s[0]) then SkipSpaces(s[1..]) else s
  }

  /** `strtol(s, NULL, 10)`: leading white space, an optional sign, then the
      longest run of decimal digits; 0 when there is no digit. */
  function Strtol(s: string): int
  {
    var t := SkipSpaces(s);
    if t != [] && (t[0] == '-' || t[0] == '+') then
      var d := t[1..][..DigitsLen(t[1..])];
      var v: int := DigitsValue(d);
      if t[0] == '-' then -v else v
    else
      DigitsValue(t[..DigitsLen(t)])
  }

  /** The decimal digits of `n`, most significant first. */
  function Digits(n: nat): (r: string)
    ensures |r| > 0 && forall i :: 0 <= i < |r| ==> IsDigit(r[i])
  {
    if n < 10 then [('0' as int + n) as char]
    else Digits(n / 10) + [('0' as int + n % 10) as char]
  }

  /** The signed decimal text of `n`. */
  function Decimal(n: int): string
  {
    if n < 0 then "-" + Digits(-n) else Digits(n)
  }

  lemma {:induction false} DigitsValueOfDigits(n: nat)
    ensures DigitsValue(Digits(n)) == n
  {
    if n >= 10 {
      DigitsValueOfDigits(n / 10);
      var d := Digits(n);
      assert d[..|d| - 1] == Digits(n / 10);
    }
  }

  lemma {:induction false} DigitsLenOfRun(d: string)
    requires forall i :: 0 <= i < |d| ==> IsDigit(d[i])
    ensures DigitsLen(d) == |d|
  {
    if d != [] {
      DigitsLenOfRun(d[1..]);
    }
  }

  /** strtol reads back the decimal text of any number. */
  lemma StrtolOfDecimal(n: int)
    ensures Strtol(Decimal(n)) == n
  {
    var s := Decimal(n);
    assert !IsSpace(s[0]);
    assert SkipSpaces(s) == s;
    if n < 0 {
      var d := Digits(-n);
      DigitsLenOfRun(d);
      DigitsValueOfDigits(-n);
      assert s[1..] == d;
      assert s[1..][..DigitsLen(s[1..])] == d;
    } else {
      DigitsLenOfRun(Digits(n));
      DigitsValueOfDigits(n);
      assert Digits(n)[..|Digits(n)|] == Digits(n);
    }
  }
}
