/** SHA-256 as an injective function: a digest is its material, and nothing else is known of it. */
module Hashing {
  import opened Text
  import Decimal

  datatype Digest = Sha256(material: string)

  // The character codes of the material, each closed by a dot.
  function Codes(s: string): (r: string)
    ensures '|' !in r
  {
    if s == "" then "" else Decimal.StrNat(s[0] as int) + "." + Codes(s[1..])
  }

  /** hexdigest(): never empty, and distinct digests read differently. */
  function Hex(d: Digest): (r: string)
    ensures r != "" && '|' !in r
  {
    "x" + Codes(d.material)
  }

  lemma {:induction false} CodesInjective(s: string, t: string)
    requires Codes(s) == Codes(t)
    ensures s == t
  {
    if s != "" && t != "" {
      var a, b := Decimal.StrNat(s[0] as int), Decimal.StrNat(t[0] as int);
      assert a + "." + Codes(s[1..]) == b + "." + Codes(t[1..]);
      CutUnique(a, Codes(s[1..]), b, Codes(t[1..]), '.');
      Decimal.StrNatInjective(s[0] as int, t[0] as int);
      CodesInjective(s[1..], t[1..]);
      assert s == [s[0]] + s[1..] && t == [t[0]] + t[1..];
    }
  }

  lemma HexInjective(d: Digest, e: Digest)
    requires Hex(d) == Hex(e)
    ensures d == e
  {
    assert Hex(d)[1..] == Codes(d.material) && Hex(e)[1..] == Codes(e.material);
    CodesInjective(d.material, e.material);
  }
}
