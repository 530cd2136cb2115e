/** Least and greatest, and decimal notation. */
module Integers {

  function Min(a: int, b: int): int {
    if a < b then a else b
  }

  function Max(a: int, b: int): int {
    if a < b then b else a
  }

  function Digit(d: nat): char
    requires d < 10
  {
    '0' + d as char
  }

  function PrintNat(n: nat): string {
    if n < 10 then [Digit(n)] else PrintNat(n / 10) + [Digit(n % 10)]
  }

  /** `str(x)`. */
  function Print(x: int): string {
    if x < 0 then "-" + PrintNat(-x) else PrintNat(x)
  }

  function ReadNat(s: string): nat {
    if s == "" then 0
    else
      var d := s[|s| - 1] as int - '0' as int;
      10 * ReadNat(s[..|s| - 1]) + if 0 <= d < 10 then d else 0
  }

  function Read(s: string): int {
    if s != "" && s[0] == '-' then 0 - ReadNat(s[1..]) else ReadNat(s)
  }

  lemma {:induction false} ReadPrintedNat(n: nat)
    ensures PrintNat(n) != "" && ReadNat(PrintNat(n)) == n
    ensures forall c :: c in PrintNat(n) ==> '0' <= c <= '9'
  {
    var s := PrintNat(n);
    if n < 10 {
      assert s[..0] == "" && ReadNat(s[..0]) == 0;
    } else {
      ReadPrintedNat(n / 10);
      assert s[..|s| - 1] == PrintNat(n / 10);
    }
  }

  lemma ReadPrinted(x: int)
    ensures Print(x) != "" && ',' !in Print(x) && Read(Print(x)) == x
    ensures forall c :: c in Print(x) ==> c == '-' || '0' <= c <= '9'
  {
    ReadPrintedNat(if x < 0 then -x else x);
    if x < 0 {
      assert Print(x)[1..] == PrintNat(-x);
    } else {
      assert Print(x)[0] in PrintNat(x);
    }
  }
}
