/** Decimal printing and reading of integers, as the %d conversion and the client's
    string concatenation produce them. */
module Decimals {

  predicate IsDigit(c: char) {
    '0' <= c <= '9'
  }

  predicate AllDigits(s: string) {
    forall i :: 0 <= i < |s| ==> IsDigit(s[i])
  }

  function Digit(d: nat): char
    requires d < 10
  {
    '0' + d as char
  }

  /** Shortest decimal numeral: no leading zero unless the number is zero. */
  function PrintNat(n: nat): (s: string)
    ensures s != [] && AllDigits(s)
    ensures |s| > 1 ==> s[0] != '0'
  {
    if n < 10 then [Digit(n)] else PrintNat(n / 10) + [Digit(n % 10)]
  }

  function Print(n: int): (s: string)
    ensures s != [] && (IsDigit(s[0]) || s[0] == '-')
  {
    if n < 0 then "-" + PrintNat(-n) else PrintNat(n)
  }

  function ReadNat(s: string): nat
    requires AllDigits(s)
  {
    if s == [] then 0
    else 10 * ReadNat(s[..|s| - 1]) + (s[|s| - 1] - '0') as nat
  }

  lemma {:induction false} ReadPrintNat(n: nat)
    ensures ReadNat(PrintNat(n)) == n
  {
    if n >= 10 {
      var s := PrintNat(n);
      assert s[..|s| - 1] == PrintNat(n / 10);
      ReadPrintNat(n / 10);
    }
  }

  function ReadInt(s: string): int
    requires s != [] && AllDigits(if s[0] == '-' then s[1..] else s)
  {
    if s[0] == '-' then 0 - ReadNat(s[1..]) else ReadNat(s)
  }

  lemma {:induction false} ReadPrint(n: int)
    ensures var s := Print(n);
      && AllDigits(if s[0] == '-' then s[1..] else s)
      && ReadInt(s) == n
  {
    hide ReadNat, PrintNat;
    if n < 0 {
      assert Print(n)[1..] == PrintNat(-n);
      ReadPrintNat(-n);
    } else {
      ReadPrintNat(n);
      assert IsDigit(PrintNat(n)[0]);
    }
  }
}
