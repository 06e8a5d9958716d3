/** std::to_string of an unsigned number. */
module Decimal {

  function Digit(d: nat): char
    requires d < 10
  {
    "0123456789"[d]
  }

  function ToString(n: nat): (s: string)
    ensures s != "" && forall i :: 0 <= i < |s| ==> IsDigit(s[i])
  {
    if n < 10 then [Digit(n)] else ToString(n / 10) + [Digit(n % 10)]
  }

  predicate IsDigit(c: char) { '0' <= c <= '9' }

  /** Different numbers have different decimal texts. */
  lemma {:induction false} ToStringInjective(m: nat, n: nat)
    ensures ToString(m) == ToString(n) ==> m == n
    decreases m + n
  {
    var s, t := ToString(m), ToString(n);
    if s == t {
      assert s[|s| - 1] == Digit(m % 10) && t[|t| - 1] == Digit(n % 10);
      assert s[..|s| - 1] == if m < 10 then "" else ToString(m / 10);
      assert t[..|t| - 1] == if n < 10 then "" else ToString(n / 10);
      if m >= 10 && n >= 10 { ToStringInjective(m / 10, n / 10); }
    }
  }

  /** The number that a decimal text stands for. */
  function ValueOf(s: string): int
  {
    if s == "" then 0 else 10 * ValueOf(s[..|s| - 1]) + (s[|s| - 1] as int - '0' as int)
  }

  /** The text stands for the number, and has no leading zero unless it is "0". */
  lemma {:induction false} ToStringIs(n: nat)
    ensures ValueOf(ToString(n)) == n
    ensures ToString(n)[0] == '0' <==> n == 0
  {
    var s := ToString(n);
    if n < 10 {
      assert s[..0] == "";
    } else {
      ToStringIs(n / 10);
      assert s[..|s| - 1] == ToString(n / 10);
    }
  }
}
