/** Bytes, and integers in network byte order. */
module Bytes {
  type Byte = b: int | 0 <= b < 256

  function Pow256(n: nat): (p: nat)
    ensures p > 0
  {
    if n == 0 then 1 else 256 * Pow256(n - 1)
  }

  /** The n low bytes of u, most significant first. */
  function ToBig(u: nat, n: nat): (s: seq<Byte>)
    ensures |s| == n
  {
    if n == 0 then [] else ToBig(u / 256, n - 1) + [u % 256]
  }

  function FromBig(s: seq<Byte>): nat {
    if s == [] then 0 else 256 * FromBig(s[..|s| - 1]) + s[|s| - 1]
  }

  lemma {:induction false} FromToBig(u: nat, n: nat)
    requires u < Pow256(n)
    ensures FromBig(ToBig(u, n)) == u
  {
    if n > 0 {
      assert u / 256 < Pow256(n - 1);
      FromToBig(u / 256, n - 1);
      assert ToBig(u, n)[..n - 1] == ToBig(u / 256, n - 1);
    }
  }

  lemma {:induction false} ToFromBig(s: seq<Byte>)
    ensures FromBig(s) < Pow256(|s|) && ToBig(FromBig(s), |s|) == s
  {
    if s != [] {
      ToFromBig(s[..|s| - 1]);
      assert FromBig(s) / 256 == FromBig(s[..|s| - 1]) && FromBig(s) % 256 == s[|s| - 1];
    }
  }

  /** Two's complement in n bytes. */
  predicate FitsSigned(x: int, n: nat) { 0 <= 2 * x + Pow256(n) && 2 * x < Pow256(n) }

  function SignedToBig(x: int, n: nat): (s: seq<Byte>)
    requires FitsSigned(x, n)
    ensures |s| == n
  {
    ToBig(if x < 0 then x + Pow256(n) else x, n)
  }

  function SignedFromBig(s: seq<Byte>): int {
    var u := FromBig(s);
    if 2 * u >= Pow256(|s|) then u - Pow256(|s|) else u
  }

  lemma SignedRoundTrip(x: int, n: nat)
    requires FitsSigned(x, n)
    ensures SignedFromBig(SignedToBig(x, n)) == x
  {
    FromToBig(if x < 0 then x + Pow256(n) else x, n);
  }
}
