/** Decimal numerals as text. */
module Decimal {
  predicate Digit(c: char) { '0' <= c <= '9' }

  function DigitValue(c: char): nat
    requires Digit(c)
  {
    c as int - '0' as int
  }

  predicate AllDigits(s: string) {
    forall i | 0 <= i < |s| :: Digit(s[i])
  }

  /** How many digits a text starts with. */
  function Leading(s: string): (n: nat)
    ensures n <= |s| && AllDigits(s[..n]) && (n < |s| ==> !Digit(s[n]))
  {
    if s == [] || !Digit(s[0]) then 0
    else
      var n := Leading(s[1..]);
      assert s[..n + 1] == [s[0]] + s[1..][..n];
      n + 1
  }

  function Number(s: string): nat
    requires AllDigits(s)
  {
    if s == [] then 0 else Number(s[..|s| - 1]) * 10 + DigitValue(s[|s| - 1])
  }

  /** The numeral of n, without leading zeros. */
  function Render(n: nat): (s: string)
    ensures s != [] && AllDigits(s) && (n > 0 ==> s[0] != '0') && (n == 0 ==> s == "0")
  {
    var last := [('0' as int + n % 10) as char];
    if n < 10 then last else Render(n / 10) + last
  }

  lemma {:induction false} NumberOfRender(n: nat)
    ensures Number(Render(n)) == n
  {
    var s := Render(n);
    if n < 10 {
      assert s[..0] == [];
      assert Number(s) == Number(s[..0]) * 10 + DigitValue(s[0]);
    } else {
      NumberOfRender(n / 10);
      assert s[..|s| - 1] == Render(n / 10);
    }
  }

  /** A numeral is read back whole when what follows does not go on with a digit. */
  lemma {:induction false} LeadingOf(s: string, rest: string)
    requires AllDigits(s) && (rest != [] ==> !Digit(rest[0]))
    ensures Leading(s + rest) == |s|
    ensures (s + rest)[..|s|] == s && (s + rest)[|s|..] == rest
    decreases |s|
  {
    if s == [] {
      assert s + rest == rest;
    } else {
      assert (s + rest)[1..] == s[1..] + rest;
      LeadingOf(s[1..], rest);
    }
  }
}
