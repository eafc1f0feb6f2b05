/** Decimal text: the integer printer and the prefix parser of the C++ library that the
    command language is built on. */
module Decimal {
  predicate IsDigit(c: char) {
    '0' <= c <= '9'
  }

  predicate AllDigits(s: string) {
    forall k :: 0 <= k < |s| ==> IsDigit(s[k])
  }

  /** Length of the longest digit prefix. */
  function DigitRun(s: string): (n: nat)
    ensures n <= |s| && AllDigits(s[..n])
    ensures n < |s| ==> !IsDigit(s[n])
  {
    if |s| == 0 || !IsDigit(s[0]) then 0 else 1 + DigitRun(s[1..])
  }

  function Number(s: string): nat
    requires AllDigits(s)
  {
    if |s| == 0 then 0 else 10 * Number(s[..|s| - 1]) + (s[|s| - 1] as int - '0' as int)
  }

  /** Outcome of `std::from_chars`; the two failures leave the target variable alone. */
  datatype Scan = Value(n: int) | NoDigits | OutOfRange

  function ScanUnsigned(s: string, max: nat): Scan {
    var n := DigitRun(s);
    if n == 0 then NoDigits
    else if Number(s[..n]) > max then OutOfRange
    else Value(Number(s[..n]))
  }

  const INT_MAX: int := 0x7FFF_FFFF

  /** A minus sign is part of a signed number only; nothing else may precede the digits. */
  function ScanInt(s: string): Scan {
    if |s| > 0 && s[0] == '-' then
      match ScanUnsigned(s[1..], INT_MAX + 1)
      case Value(n) => Value(-n)
      case NoDigits => NoDigits
      case OutOfRange => OutOfRange
    else ScanUnsigned(s, INT_MAX)
  }

  // ----- What a scan means -----

  /** `ds` are the digits that `s` starts with, as many as there are. */
  predicate LeadingDigits(s: string, ds: string) {
    AllDigits(ds) && ds <= s && (|ds| < |s| ==> !IsDigit(s[|ds|]))
  }

  /** `s` starts with a number, and the number is `n`. */
  ghost predicate StartsWith(s: string, n: nat) {
    exists ds :: LeadingDigits(s, ds) && ds != [] && Number(ds) == n
  }

  predicate NoNumber(s: string) {
    s == [] || !IsDigit(s[0])
  }

  lemma LeadingDigitsUnique(s: string, x: string, y: string)
    requires LeadingDigits(s, x) && LeadingDigits(s, y)
    ensures x == y
  {
  }

  /** A text starts with one number at most. */
  lemma StartsUnique(s: string, n: nat, m: nat)
    requires StartsWith(s, n) && StartsWith(s, m)
    ensures n == m
  {
    var x :| LeadingDigits(s, x) && x != [] && Number(x) == n;
    var y :| LeadingDigits(s, y) && y != [] && Number(y) == m;
    LeadingDigitsUnique(s, x, y);
  }

  /** A scan gives the number that the text starts with, if it is in range, and fails exactly
      without a number or with one that is too big. */
  lemma ScanMeans(s: string, max: nat)
    ensures forall n: nat :: ScanUnsigned(s, max) == Value(n) <==> n <= max && StartsWith(s, n)
    ensures ScanUnsigned(s, max) == NoDigits <==> NoNumber(s)
    ensures ScanUnsigned(s, max) == OutOfRange <==> exists n: nat :: n > max && StartsWith(s, n)
    ensures ScanUnsigned(s, max).Value? ==> 0 <= ScanUnsigned(s, max).n <= max
  {
    var ds := s[..DigitRun(s)];
    assert LeadingDigits(s, ds);
    if ds != [] {
      assert StartsWith(s, Number(ds));
      forall n: nat | StartsWith(s, n) ensures n == Number(ds) {
        StartsUnique(s, n, Number(ds));
      }
    } else {
      forall n: nat ensures !StartsWith(s, n) {
        if StartsWith(s, n) {
          var x :| LeadingDigits(s, x) && x != [] && Number(x) == n;
          LeadingDigitsUnique(s, x, ds);
        }
      }
    }
  }

  /** The number that a text starts with, when a minus sign may come first. */
  ghost predicate StartsWithInt(s: string, n: int) {
    if s != [] && s[0] == '-' then n <= 0 && StartsWith(s[1..], -n) else n >= 0 && StartsWith(s, n)
  }

  lemma ScanIntMeans(s: string)
    ensures forall n: int :: ScanInt(s) == Value(n) <==> -INT_MAX - 1 <= n <= INT_MAX && StartsWithInt(s, n)
  {
    if s != [] && s[0] == '-' {
      ScanMeans(s[1..], INT_MAX + 1);
      forall n: int ensures ScanInt(s) == Value(n) <==> -INT_MAX - 1 <= n <= INT_MAX && StartsWithInt(s, n) {
        if n <= 0 {
          var m: nat := -n;
          assert ScanUnsigned(s[1..], INT_MAX + 1) == Value(m) <==> m <= INT_MAX + 1 && StartsWith(s[1..], m);
        }
      }
    } else {
      ScanMeans(s, INT_MAX);
      forall n: int ensures ScanInt(s) == Value(n) <==> -INT_MAX - 1 <= n <= INT_MAX && StartsWithInt(s, n) {
        if n >= 0 {
          var m: nat := n;
          assert ScanUnsigned(s, INT_MAX) == Value(m) <==> m <= INT_MAX && StartsWith(s, m);
        }
      }
    }
  }

  function Digit(n: nat): (c: char)
    requires n < 10
    ensures IsDigit(c)
  {
    (n + '0' as int) as char
  }

  function Digits(n: nat): (s: string)
    ensures |s| > 0 && AllDigits(s)
  {
    if n < 10 then [Digit(n)] else Digits(n / 10) + [Digit(n % 10)]
  }

  /** `std::to_string` of an int. */
  function Print(n: int): string {
    if n < 0 then "-" + Digits(-n) else Digits(n)
  }

  lemma {:induction false} NumberOfDigits(n: nat)
    ensures Number(Digits(n)) == n
  {
    if n >= 10 {
      NumberOfDigits(n / 10);
      assert Digits(n)[..|Digits(n)| - 1] == Digits(n / 10);
    }
  }

  lemma {:induction false} DigitRunStops(ds: string, rest: string)
    requires AllDigits(ds) && (rest == [] || !IsDigit(rest[0]))
    ensures DigitRun(ds + rest) == |ds|
  {
    if ds == [] {
      assert ds + rest == rest;
    } else {
      assert (ds + rest)[1..] == ds[1..] + rest;
      DigitRunStops(ds[1..], rest);
    }
  }

  lemma PrintedStarts(n: nat, rest: string)
    requires NoNumber(rest)
    ensures StartsWith(Digits(n) + rest, n)
  {
    NumberOfDigits(n);
    assert LeadingDigits(Digits(n) + rest, Digits(n));
  }

  lemma ScanPrintedUnsigned(n: nat, max: nat, rest: string)
    requires n <= max && (rest == [] || !IsDigit(rest[0]))
    ensures ScanUnsigned(Digits(n) + rest, max) == Value(n)
  {
    DigitRunStops(Digits(n), rest);
    NumberOfDigits(n);
    assert (Digits(n) + rest)[..|Digits(n)|] == Digits(n);
  }

  lemma ScanNegative(digits: string, n: int)
    requires ScanUnsigned(digits, INT_MAX + 1) == Value(n)
    ensures ScanInt("-" + digits) == Value(-n)
  {
    assert ("-" + digits)[1..] == digits;
  }

  lemma ScanPositive(digits: string, n: int)
    requires digits != [] && IsDigit(digits[0])
    requires ScanUnsigned(digits, INT_MAX) == Value(n)
    ensures ScanInt(digits) == Value(n)
  {
  }

  lemma ScanPrintedNegative(n: int, rest: string)
    requires -INT_MAX - 1 <= n < 0 && NoNumber(rest)
    ensures ScanInt(Print(n) + rest) == Value(n)
  {
    ScanPrintedUnsigned(-n, INT_MAX + 1, rest);
    ScanNegative(Digits(-n) + rest, -n);
    SignFirst(Digits(-n), rest);
  }

  lemma SignFirst(digits: string, rest: string)
    ensures ("-" + digits) + rest == "-" + (digits + rest)
  {
  }

  /** Whatever int is printed, scanning the text gives it back, up to the next non-digit. */
  lemma ScanPrinted(n: int, rest: string)
    requires -INT_MAX - 1 <= n <= INT_MAX && NoNumber(rest)
    ensures ScanInt(Print(n) + rest) == Value(n)
  {
    if n < 0 {
      ScanPrintedNegative(n, rest);
    } else {
      assert IsDigit((Digits(n) + rest)[0]);
      ScanPrintedUnsigned(n, INT_MAX, rest);
      ScanPositive(Digits(n) + rest, n);
    }
  }
}
