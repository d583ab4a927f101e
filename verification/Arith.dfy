/** Quotients and remainders of products, shared by the models. */
module Arith {

  lemma {:induction false} NextMultiple(a: nat, b: nat, p: nat)
    requires a < b
    ensures a * p + p <= b * p
  {
    assert b * p == (b - 1) * p + p;
    if a < b - 1 { NextMultiple(a, b - 1, p); }
  }

  lemma DivModBack(x: nat, p: nat)
    requires p > 0
    ensures x / p * p + x % p == x
  {
  }

  lemma DivMod(g: nat, i: nat, p: nat)
    requires i < p
    ensures (g * p + i) / p == g && (g * p + i) % p == i
  {
    var x := g * p + i;
    var q := x / p;
    DivModBack(x, p);
    if g > q { NextMultiple(q, g, p); }
    if g < q { NextMultiple(g, q, p); }
  }

  lemma ModStep(x: nat, p: nat)
    requires p > 0
    ensures (x + p) % p == x % p
  {
    var q, r := x / p, x % p;
    DivModBack(x, p);
    assert (q + 1) * p == q * p + p;
    DivMod(q + 1, r, p);
  }
}
