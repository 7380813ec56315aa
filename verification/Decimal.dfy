/** Decimal numbers in text: atoi of the C library, and printing to read back. */
module Decimal {

  predicate IsDigit(c: char) { '0' <= c <= '9' }

  predicate IsSpace(c: char) { c == ' ' || '\t' <= c <= '\r' }

  function DigitValue(c: char): nat
    requires IsDigit(c)
  {
    c as int - '0' as int
  }

  function DigitChar(d: nat): (c: char)
    requires d < 10
    ensures IsDigit(c) && DigitValue(c) == d
  {
    ('0' as int + d) as char
  }

  /** The number continued by the digits at the front of s. */
  function ReadDigits(s: string, acc: nat): nat
    decreases |s|
  {
    if s != "" && IsDigit(s[0]) then ReadDigits(s[1..], 10 * acc + DigitValue(s[0])) else acc
  }

  function Atoi(s: string): int
    decreases |s|
  {
    if s == "" then 0
    else if IsSpace(s[0]) then Atoi(s[1..])
    else if s[0] == '-' then -(ReadDigits(s[1..], 0) as int)
    else if s[0] == '+' then ReadDigits(s[1..], 0)
    else ReadDigits(s, 0)
  }

  /** Text at which a number ends. */
  predicate EndsNumber(s: string) { s == "" || !IsDigit(s[0]) }

  function Power10(w: nat): nat { if w == 0 then 1 else 10 * Power10(w - 1) }

  lemma Powers()
    ensures Power10(2) == 100 && Power10(4) == 10000 && Power10(6) == 1000000
  {
    assert Power10(1) == 10;
    assert Power10(3) == 1000;
    assert Power10(5) == 100000;
  }

  /** The last w decimal digits of n, with leading zeros. */
  function Fixed(n: nat, w: nat): (s: string)
    ensures |s| == w
    ensures forall i | 0 <= i < |s| :: IsDigit(s[i])
  {
    if w == 0 then "" else Fixed(n / 10, w - 1) + [DigitChar(n % 10)]
  }

  /** n without leading zeros. */
  function Print(n: nat): (s: string)
    ensures s != ""
    ensures forall i | 0 <= i < |s| :: IsDigit(s[i])
  {
    if n < 10 then [DigitChar(n)] else Print(n / 10) + [DigitChar(n % 10)]
  }

  function PrintSigned(n: int): string { if n < 0 then "-" + Print(-n) else Print(n) }

  lemma {:induction false} ReadFixed(n: nat, w: nat, acc: nat, rest: string)
    requires n < Power10(w)
    ensures ReadDigits(Fixed(n, w) + rest, acc) == ReadDigits(rest, acc * Power10(w) + n)
    decreases w
  {
    if w == 0 {
      assert Fixed(n, w) + rest == rest;
    } else {
      var t := [DigitChar(n % 10)] + rest;
      assert Fixed(n, w) + rest == Fixed(n / 10, w - 1) + t;
      ReadFixed(n / 10, w - 1, acc, t);
      assert t[1..] == rest;
      ShiftAndAdd(acc, Power10(w - 1), n);
    }
  }

  lemma ShiftAndAdd(acc: nat, power: nat, n: nat)
    ensures 10 * (acc * power + n / 10) + n % 10 == acc * (10 * power) + n
  {}

  lemma {:induction false} ReadPrint(n: nat, rest: string)
    ensures ReadDigits(Print(n) + rest, 0) == ReadDigits(rest, n)
    decreases n
  {
    if n < 10 {
      assert (Print(n) + rest)[1..] == rest;
    } else {
      var t := [DigitChar(n % 10)] + rest;
      assert Print(n) + rest == Print(n / 10) + t;
      ReadPrint(n / 10, t);
      assert t[1..] == rest;
    }
  }

  lemma ReadFixedFirst(n: nat, w: nat, rest: string)
    requires n < Power10(w)
    ensures ReadDigits(Fixed(n, w) + rest, 0) == ReadDigits(rest, n)
  {
    ReadFixed(n, w, 0, rest);
    ZeroAhead(Power10(w), n);
  }

  lemma ZeroAhead(power: nat, n: nat)
    ensures 0 * power + n == n
  {}

  lemma ReadTwo(n: nat, acc: nat, rest: string)
    requires n < 100
    ensures ReadDigits(Fixed(n, 2) + rest, acc) == ReadDigits(rest, 100 * acc + n)
  {
    Powers();
    ReadFixed(n, 2, acc, rest);
    assert acc * Power10(2) == 100 * acc;
  }

  lemma AtoiStartsWithDigit(s: string)
    requires s != "" && IsDigit(s[0])
    ensures Atoi(s) == ReadDigits(s, 0)
  {}

  /** Reading back what was printed with leading zeros. */
  lemma AtoiFixed(n: nat, w: nat, rest: string)
    requires w > 0 && n < Power10(w) && EndsNumber(rest)
    ensures Atoi(Fixed(n, w) + rest) == n
  {
    var s := Fixed(n, w) + rest;
    AtoiStartsWithDigit(s);
    ReadFixedFirst(n, w, rest);
  }

  lemma AtoiPrint(n: nat, rest: string)
    requires EndsNumber(rest)
    ensures Atoi(Print(n) + rest) == n
  {
    var s := Print(n) + rest;
    AtoiStartsWithDigit(s);
    ReadPrint(n, rest);
  }

  lemma AtoiSigned(n: int, rest: string)
    requires EndsNumber(rest)
    ensures Atoi(PrintSigned(n) + rest) == n
  {
    if n < 0 {
      assert (PrintSigned(n) + rest)[1..] == Print(-n) + rest;
      ReadPrint(-n, rest);
    } else {
      AtoiPrint(n, rest);
    }
  }
}
