/** str(n) for integers: distinct integers have distinct numerals, and none holds the separator. */
module Decimal {
  function StrNat(n: nat): (s: string)
    ensures s != "" && (|s| == 1 <==> n < 10) && forall c :: c in s ==> '0' <= c <= '9'
  {
    if n < 10 then ['0' + n as char] else StrNat(n / 10) + ['0' + (n % 10) as char]
  }

  function Str(n: int): (s: string)
    ensures s != "" && '|' !in s && (s[0] == '-' <==> n < 0)
  {
    if n < 0 then "-" + StrNat(-n)
    else
      var s := StrNat(n);
      assert s[0] in s;
      s
  }

  lemma {:induction false} StrNatInjective(m: nat, n: nat)
    requires StrNat(m) == StrNat(n)
    ensures m == n
    decreases m + n
  {
    var s, t := StrNat(m), StrNat(n);
    assert s[|s| - 1] == t[|t| - 1];
    if m >= 10 && n >= 10 {
      assert s[..|s| - 1] == StrNat(m / 10) && t[..|t| - 1] == StrNat(n / 10);
      StrNatInjective(m / 10, n / 10);
    }
  }

  lemma StrInjective(m: int, n: int)
    requires Str(m) == Str(n)
    ensures m == n
  {
    if m < 0 && n < 0 {
      assert Str(m)[1..] == StrNat(-m) && Str(n)[1..] == StrNat(-n);
      StrNatInjective(-m, -n);
    } else {
      assert m >= 0 && n >= 0;
      StrNatInjective(m, n);
    }
  }
}
