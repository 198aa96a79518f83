/** What numerals mean: printing and reading are decimal, digit by digit. */
module Decimal {
  import opened Prelude
  import opened Text

  function Pow10(n: nat): (p: nat)
    ensures p >= 1
  {
    if n == 0 then 1 else 10 * Pow10(n - 1)
  }

  predicate Digits(s: string) {
    forall i :: 0 <= i < |s| ==> '0' <= s[i] <= '9'
  }

  /** The sum of the digits of `s`, each times the power of ten of its position. */
  function Positional(s: string): int
    requires Digits(s)
  {
    if s == [] then 0 else (s[0] as int - '0' as int) * Pow10(|s| - 1) + Positional(s[1..])
  }

  lemma TenTimes(m: nat, r: nat, p: nat)
    requires r < 10
    ensures m < p ==> 10 * m + r < 10 * p
    ensures p <= m ==> 10 * p <= 10 * m + r
  {
  }

  /** A number has as many digits as it needs. */
  lemma {:induction false} ShowNatLength(n: nat)
    ensures
      var k := |ShowNat(n)|;
      k >= 1 && n < Pow10(k) && (k > 1 ==> Pow10(k - 1) <= n)
  {
    if n >= 10 {
      var m, k := n / 10, |ShowNat(n)|;
      ShowNatLength(m);
      TenTimes(m, n % 10, Pow10(k - 1));
      if k > 2 {
        TenTimes(m, n % 10, Pow10(k - 2));
      }
    }
  }

  lemma DivideTwice(n: nat, p: nat)
    requires p >= 1
    ensures n / (10 * p) == (n / 10) / p
  {
    var m, r := n / 10, n % 10;
    var q, t := m / p, m % p;
    assert n == 10 * p * q + (10 * t + r) by {
      assert m == p * q + t;
    }
    assert 10 * t + r < 10 * p;
    Quotient(n, 10 * p, q, 10 * t + r);
  }

  lemma Quotient(n: nat, d: nat, q: nat, r: nat)
    requires d >= 1 && n == d * q + r && r < d
    ensures n / d == q
  {
    var x, y := n / d, n % d;
    assert d * x + y == d * q + r;
    OneMore(d, x, q);
    OneMore(d, q, x);
  }

  lemma OneMore(d: nat, a: nat, b: nat)
    ensures a < b ==> d * a + d <= d * b
  {
    if a < b {
      assert d * (a + 1) <= d * b;
    }
  }

  /** The digit at place `i` from the right is that of the number. */
  lemma {:induction false} ShowNatDigit(n: nat, i: nat)
    requires i < |ShowNat(n)|
    ensures ShowNat(n)[|ShowNat(n)| - 1 - i] as int - '0' as int == (n / Pow10(i)) % 10
  {
    hide ShowNat;
    ShowNatUnfold(n);
    if n >= 10 && i > 0 {
      var m := n / 10;
      ShowNatDigit(m, i - 1);
      DivideTwice(n, Pow10(i - 1));
      assert n / Pow10(i) == m / Pow10(i - 1);
      assert ShowNat(n)[|ShowNat(n)| - 1 - i] == ShowNat(m)[|ShowNat(m)| - 1 - (i - 1)];
    } else {
      assert Pow10(0) == 1;
    }
  }

  lemma ShowNatUnfold(n: nat)
    ensures n < 10 ==> |ShowNat(n)| == 1
    ensures n >= 10 ==> |ShowNat(n)| == |ShowNat(n / 10)| + 1 && ShowNat(n / 10) == ShowNat(n)[..|ShowNat(n)| - 1]
    ensures ShowNat(n)[|ShowNat(n)| - 1] as int - '0' as int == n % 10
  {
  }

  /** A sign stands before exactly the negative numbers. */
  lemma ShowIntSign(n: int)
    ensures ShowInt(n) == if n < 0 then ['-'] + ShowNat(-n) else ShowNat(n)
    ensures n < 0 <==> ShowInt(n)[0] == '-'
  {
    assert n >= 0 ==> IsDigit(ShowNat(n)[0]);
  }

  lemma {:induction false} PositionalLast(s: string)
    requires Digits(s) && s != []
    ensures Positional(s) == 10 * Positional(s[..|s| - 1]) + (s[|s| - 1] as int - '0' as int)
  {
    var k := |s| - 1;
    if k == 0 {
      assert s[1..] == [] && s[..0] == [];
    } else {
      PositionalLast(s[1..]);
      assert s[1..][..k - 1] == s[..k][1..];
      var d, p := s[0] as int - '0' as int, Pow10(k - 1);
      assert d * (10 * p) == 10 * (d * p);
    }
  }

  lemma {:induction false} NatOfPositional(s: string)
    requires Digits(s)
    ensures NatOf(s) == Positional(s)
  {
    if s != [] {
      NatOfPositional(s[..|s| - 1]);
      PositionalLast(s);
    }
  }

  /** Reading takes all the digits, leading zeros too, with an optional sign, and gives their
      positional value. */
  lemma NumberPositional(s: string, tail: string)
    requires Digits(s) && s != [] && (tail == [] || !('0' <= tail[0] <= '9'))
    ensures
      var v := Positional(s);
      && Number(s + tail) == Some((v, tail))
      && Number("+" + (s + tail)) == Some((v, tail))
      && Number("-" + (s + tail)) == Some((-v, tail))
  {
    hide NatOf, Positional;
    RunExact(s, tail, IsDigit);
    Halves(s, tail);
    NatOfPositional(s);
    assert Unsigned(s + tail) == Some((Positional(s), tail));
    assert (s + tail)[0] == s[0];
    assert ("+" + (s + tail))[1..] == s + tail && ("-" + (s + tail))[1..] == s + tail;
  }

  /** Without a digit, after an optional sign, there is no number. */
  lemma NoNumber(s: string)
    requires s == [] || !('0' <= s[0] <= '9')
    ensures Number("+" + s) == None && Number("-" + s) == None
    ensures (s == [] || (s[0] != '+' && s[0] != '-')) ==> Number(s) == None
  {
    assert ("+" + s)[1..] == s && ("-" + s)[1..] == s;
  }
}
