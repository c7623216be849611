/** `%d` in Go's `fmt`, printing and scanning. */
module Decimal {
  import opened Common
  import opened Text

  function Digit(d: nat): char
    requires d < 10
  {
    '0' + d as char
  }

  predicate IsDigit(c: char) {
    '0' <= c <= '9'
  }

  /** `Sprintf("%d", n)` for a non-negative number. */
  function Print(n: nat): string {
    if n < 10 then [Digit(n)] else Print(n / 10) + [Digit(n % 10)]
  }

  /** The number of leading digits. */
  function Leading(s: string): (n: nat)
    ensures n <= |s|
    ensures forall i :: 0 <= i < n ==> IsDigit(s[i])
  {
    if s != "" && IsDigit(s[0]) then 1 + Leading(s[1..]) else 0
  }

  function DigitValue(c: char): nat
    requires IsDigit(c)
  {
    c as int - '0' as int
  }

  function Number(s: string): nat
    requires forall i :: 0 <= i < |s| ==> IsDigit(s[i])
  {
    if s == "" then 0 else Number(s[..|s| - 1]) * 10 + DigitValue(s[|s| - 1])
  }

  /** Spaces before a number are skipped, but a newline is an error. */
  function SkipSpace(s: string): Option<string> {
    if s == "" || !IsSpace(s[0]) then Some(s)
    else if s[0] == '\n' then None
    else SkipSpace(s[1..])
  }

  /** The digits of a number below `bound`, and what follows them. */
  function ScanDigits(s: string, bound: nat): Option<(nat, string)> {
    var n := Leading(s);
    if n == 0 || Number(s[..n]) >= bound then None else Some((Number(s[..n]), s[n..]))
  }

  /** `%d` into an unsigned integer below `bound`. */
  function ScanUint(s: string, bound: nat): Option<(nat, string)> {
    match SkipSpace(s) case None => None case Some(t) => ScanDigits(t, bound)
  }

  /** `%d` into an `int`, which takes a sign. */
  function ScanInt(s: string): Option<(int, string)> {
    match SkipSpace(s)
    case None => None
    case Some(t) =>
      if t != "" && t[0] == '-' then
        (match ScanDigits(t[1..], 0x8000_0000_0000_0001)
         case None => None
         case Some((n, rest)) => Some((0 - n as int, rest)))
      else
        var u := if t != "" && t[0] == '+' then t[1..] else t;
        match ScanDigits(u, 0x8000_0000_0000_0000) case None => None case Some((n, rest)) => Some((n as int, rest))
  }

  // ----- Round trip -----

  lemma {:induction false} PrintIsDigits(n: nat)
    ensures Print(n) != "" && forall i :: 0 <= i < |Print(n)| ==> IsDigit(Print(n)[i])
  {
    if n >= 10 { PrintIsDigits(n / 10); }
  }

  lemma {:induction false} NumberOfPrint(n: nat)
    requires forall i :: 0 <= i < |Print(n)| ==> IsDigit(Print(n)[i])
    ensures Number(Print(n)) == n
  {
    if n >= 10 {
      PrintIsDigits(n / 10);
      NumberOfPrint(n / 10);
      assert Print(n)[..|Print(n)| - 1] == Print(n / 10);
    } else {
      assert Number([Digit(n)][..0]) == 0;
    }
  }

  lemma {:induction false} LeadingOf(digits: string, rest: string)
    requires forall i :: 0 <= i < |digits| ==> IsDigit(digits[i])
    requires rest == "" || !IsDigit(rest[0])
    ensures Leading(digits + rest) == |digits|
  {
    if digits == "" {
      assert digits + rest == rest;
    } else {
      LeadingOf(digits[1..], rest);
      assert (digits + rest)[1..] == digits[1..] + rest;
    }
  }

  /** A printed number is read back, whatever follows it but a digit. */
  lemma {:induction false} ScanPrinted(n: nat, rest: string, bound: nat)
    requires n < bound && (rest == "" || !IsDigit(rest[0]))
    ensures ScanUint(Print(n) + rest, bound) == Some((n, rest))
    ensures n < 0x8000_0000_0000_0000 ==> ScanInt(Print(n) + rest) == Some((n as int, rest))
  {
    PrintIsDigits(n);
    NumberOfPrint(n);
    LeadingOf(Print(n), rest);
    var s := Print(n) + rest;
    assert s[0] == Print(n)[0];
    assert s[..|Print(n)|] == Print(n) && s[|Print(n)|..] == rest;
  }
}
