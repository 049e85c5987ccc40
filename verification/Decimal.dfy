/** Decimal numbers as the program prints and reads them. */
module Decimal {

  const MAX_INT64 := 0x7FFF_FFFF_FFFF_FFFF
  const MIN_INT64 := -0x8000_0000_0000_0000

  predicate IsDigit(c: char) {
    '0' <= c <= '9'
  }

  function DigitOf(d: nat): (c: char)
    requires d < 10
    ensures IsDigit(c) && c as int - 48 == d
  {
    (48 + d) as char
  }

  /** A non-negative number without leading zeros. */
  function Print(n: nat): (s: string)
    ensures s != "" && AllDigits(s)
  {
    if n < 10 then [DigitOf(n)] else Print(n / 10) + [DigitOf(n % 10)]
  }

  predicate AllDigits(s: string) {
    forall i :: 0 <= i < |s| ==> IsDigit(s[i])
  }

  /** The value of the first `n` digits. */
  function Value(s: string, n: nat): nat
    requires n <= |s| && AllDigits(s)
  {
    if n == 0 then 0 else Value(s, n - 1) * 10 + (s[n - 1] as int - 48)
  }

  function Number(s: string): nat
    requires AllDigits(s)
  {
    Value(s, |s|)
  }

  lemma {:induction false} ValueOfPrefix(a: string, b: string, n: nat)
    requires n <= |a| && n <= |b| && AllDigits(a) && AllDigits(b) && forall i :: 0 <= i < n ==> a[i] == b[i]
    ensures Value(a, n) == Value(b, n)
  {
    if n > 0 { ValueOfPrefix(a, b, n - 1); }
  }

  /** Reading undoes printing. */
  lemma {:induction false} NumberOfPrint(n: nat)
    ensures Number(Print(n)) == n
  {
    if n < 10 {
      assert Value(Print(n), 0) == 0;
    } else {
      var front := Print(n / 10);
      NumberOfPrint(n / 10);
      var s := Print(n);
      assert s == front + [DigitOf(n % 10)];
      ValueOfPrefix(s, front, |front|);
      assert Value(s, |s|) == Value(s, |front|) * 10 + n % 10;
    }
  }

  function PrintInt(i: int): (s: string)
    ensures s != ""
  {
    if i < 0 then "-" + Print(-i) else Print(i)
  }

  /** A signed number as it is read: a syntax error yields 0, a number out of range the nearest one in it. */
  datatype Read = Read(value: int, ok: bool)

  function Clamp(i: int): Read {
    if i > MAX_INT64 then Read(MAX_INT64, false) else if i < MIN_INT64 then Read(MIN_INT64, false) else Read(i, true)
  }

  function Signed(sign: char, i: int): int {
    if sign == '-' then -i else i
  }

  function ParseInt(s: string): Read {
    if s != "" && (s[0] == '-' || s[0] == '+') then
      if |s| > 1 && AllDigits(s[1..]) then Clamp(Signed(s[0], Number(s[1..]))) else Read(0, false)
    else if s != "" && AllDigits(s) then Clamp(Number(s))
    else Read(0, false)
  }

  /** Reading undoes printing over the whole signed 64-bit range. */
  lemma ParseIntOfPrintInt(i: int)
    requires MIN_INT64 <= i <= MAX_INT64
    ensures ParseInt(PrintInt(i)) == Read(i, true)
  {
    if i < 0 {
      assert PrintInt(i)[1..] == Print(-i);
      NumberOfPrint(-i);
    } else {
      assert IsDigit(Print(i)[0]);
      NumberOfPrint(i);
    }
  }
}
