/** `std::to_string` on unsigned integers, and the keys built from it. */
module Decimal {

  function Digit(d: nat): (c: char)
    requires d < 10
  {
    '0' + d as char
  }

  function ToString(n: nat): (s: string)
    ensures s != ""
    ensures forall i :: 0 <= i < |s| ==> '0' <= s[i] <= '9'
  {
    if n < 10 then [Digit(n)] else ToString(n / 10) + [Digit(n % 10)]
  }

  /** Reads the digits back: a left inverse of `ToString`. */
  function Value(s: string): (n: int) {
    if s == "" then 0 else 10 * Value(s[..|s| - 1]) + (s[|s| - 1] as int - '0' as int)
  }

  lemma {:induction false} ValueOfToString(n: nat)
    ensures Value(ToString(n)) == n
  {
    var s := ToString(n);
    if n < 10 {
      assert s[..0] == "";
    } else {
      assert s[..|s| - 1] == ToString(n / 10);
      ValueOfToString(n / 10);
    }
  }

  lemma ToStringInjective(a: nat, b: nat)
    requires ToString(a) == ToString(b)
    ensures a == b
  {
    ValueOfToString(a);
    ValueOfToString(b);
  }

  /** The first dash fixes where the two parts meet. */
  lemma DashSplits(a: string, b: string, c: string, d: string)
    requires '-' !in a && '-' !in c && a + "-" + b == c + "-" + d
    ensures a == c && b == d
  {
    var x, y := a + "-" + b, c + "-" + d;
    assert x[|a|] == '-' && y[|c|] == '-';
    assert forall i :: 0 <= i < |a| ==> x[i] == a[i];
    assert forall i :: 0 <= i < |c| ==> y[i] == c[i];
    assert |a| == |c|;
    assert a == x[..|a|] && c == y[..|c|];
    assert b == x[|a| + 1..] && d == y[|c| + 1..];
  }

  /** Two digit strings around one dash. */
  lemma DashedPairInjective(a: nat, b: nat, c: nat, d: nat)
    requires ToString(a) + "-" + ToString(b) == ToString(c) + "-" + ToString(d)
    ensures a == c && b == d
  {
    hide ToString;
    DashSplits(ToString(a), ToString(b), ToString(c), ToString(d));
    ToStringInjective(a, c);
    ToStringInjective(b, d);
  }
}
