/** Division facts that the solver does not find by itself. */
module Arithmetic {

  function Min(a: nat, b: nat): nat {
    if a <= b then a else b
  }

  /** The byte of value `n`, by counting: the solver is slow on conversions. */
  function AsByte(n: nat): (x: bv8)
    requires n < 256
    ensures x as nat == n
  {
    if n == 0 then 0
    else
      OneUp(AsByte(n - 1));
      AsByte(n - 1) + 1
  }

  lemma OneUp(x: bv8)
    requires x != 255
    ensures (x + 1) as nat == x as nat + 1
  {
  }

  lemma ByteByValue(x: bv8)
    ensures AsByte(x as nat) == x
  {
    SameValue(AsByte(x as nat), x);
  }

  lemma SameValue(x: bv8, y: bv8)
    requires x as nat == y as nat
    ensures x == y
  {
  }

  lemma MultipleBounds(e: int, d: nat)
    requires d > 0
    ensures e >= 1 ==> e * d >= d
    ensures e <= -1 ==> e * d + d <= 0
  {
  }

  lemma DivUnique(x: nat, d: nat, q: nat, r: nat)
    requires d > 0 && r < d && x == q * d + r
    ensures x / d == q
  {
    var e := x / d - q;
    assert e * d == r - x % d;
    MultipleBounds(e, d);
  }

  lemma ModStep(x: nat, d: nat)
    requires d > 0 && x % d == 0
    ensures (x + d) % d == 0
  {
    var q := x / d;
    assert x == q * d;
    assert (q + 1) * d == q * d + d;
    DivUnique(x + d, d, q + 1, 0);
  }

  lemma MulMono(a: nat, b: nat, c: nat)
    requires a <= b
    ensures a * c <= b * c
  {
  }

  lemma FactorLess(a: nat, b: nat, c: nat)
    ensures a * c < b * c ==> a < b
  {
    if b <= a { MulMono(b, a, c); }
  }

  lemma DivBounds(x: nat, d: nat)
    requires d > 0
    ensures (x / d) * d <= x < (x / d + 1) * d
  {
    assert x == (x / d) * d + x % d;
  }

  /** b * n, for n >= 0. */
  function Times(b: nat, n: int): nat
    decreases if n >= 0 then n else 0
  {
    if n <= 0 then 0 else b + Times(b, n - 1)
  }

  lemma {:induction false} TimesIs(b: nat, n: nat)
    ensures Times(b, n) == b * n
  {
    if n > 0 {
      TimesIs(b, n - 1);
      assert b * n == b * (n - 1) + b;
    }
  }

  lemma {:induction false} TimesGrows(b: nat, v: nat, w: nat)
    requires v <= w
    ensures Times(b, v) <= Times(b, w)
    decreases w
  {
    if v < w { TimesGrows(b, v, w - 1); }
  }
}
