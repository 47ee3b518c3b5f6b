/** Decimal rendering of natural numbers, as Go's `%d` and `strconv.FormatInt` print
    them, and why identifiers that embed such numbers are unambiguous. */
module Decimal {

  function Digit(d: nat): (c: char)
    requires d < 10
    ensures '0' <= c <= '9'
  {
    '0' + d as char
  }

  function Render(n: nat): (s: string)
    ensures s != []
    ensures forall i :: 0 <= i < |s| ==> '0' <= s[i] <= '9'
  {
    if n < 10 then [Digit(n)] else Render(n / 10) + [Digit(n % 10)]
  }

  function Parse(s: string): (n: nat)
    requires forall i :: 0 <= i < |s| ==> '0' <= s[i] <= '9'
  {
    if s == [] then 0 else 10 * Parse(s[..|s| - 1]) + (s[|s| - 1] - '0') as nat
  }

  lemma {:induction false} ParseRender(n: nat)
    ensures Parse(Render(n)) == n
  {
    if n < 10 {
      assert Render(n)[..0] == [];
    } else {
      ParseRender(n / 10);
      assert Render(n)[..|Render(n)| - 1] == Render(n / 10);
    }
  }

  /** A digit string followed by a non-digit is determined by the text it starts. */
  lemma SplitAtNonDigit(a: string, x: char, s: string, b: string, y: char, t: string)
    requires forall i :: 0 <= i < |a| ==> '0' <= a[i] <= '9'
    requires forall i :: 0 <= i < |b| ==> '0' <= b[i] <= '9'
    requires !('0' <= x <= '9') && !('0' <= y <= '9')
    requires a + [x] + s == b + [y] + t
    ensures a == b && s == t
  {
    var l, r := a + [x] + s, b + [y] + t;
    assert l[|a|] == x && r[|b|] == y;
    assert a == l[..|a|] && b == r[..|b|];
    assert s == l[|a| + 1..] && t == r[|b| + 1..];
  }

  /** A digit string after the last non-digit is determined by the text it ends. */
  lemma SplitAtLastNonDigit(s: string, x: char, a: string, t: string, y: char, b: string)
    requires forall i :: 0 <= i < |a| ==> '0' <= a[i] <= '9'
    requires forall i :: 0 <= i < |b| ==> '0' <= b[i] <= '9'
    requires !('0' <= x <= '9') && !('0' <= y <= '9')
    requires s + [x] + a == t + [y] + b
    ensures a == b && s == t
  {
    var l, r := s + [x] + a, t + [y] + b;
    assert l[|s|] == x && r[|t|] == y;
    assert s == l[..|s|] && t == r[..|t|];
    assert a == l[|s| + 1..] && b == r[|t| + 1..];
  }
}
