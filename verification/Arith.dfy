/** Integer division and square roots by their defining inequalities. */
module Arith {

  lemma DivModLaw(x: int, l: int)
    requires l > 0
    ensures x / l * l <= x < (x / l + 1) * l
  {
    assert x == l * (x / l) + x % l;
    assert (x / l + 1) * l == x / l * l + l;
  }

  lemma TimesMonotone(a: int, b: int, l: int)
    requires a <= b && l > 0
    ensures a * l <= b * l
  {}

  lemma DivUnique(x: int, l: int, q: int)
    requires l > 0 && q * l <= x < (q + 1) * l
    ensures x / l == q
  {
    DivModLaw(x, l);
    if x / l < q {
      TimesMonotone(x / l + 1, q, l);
    } else if q < x / l {
      TimesMonotone(q + 1, x / l, l);
    }
  }

  lemma DivMonotone(x: int, y: int, l: int)
    requires x <= y && l > 0
    ensures x / l <= y / l
  {
    DivModLaw(x, l);
    DivModLaw(y, l);
    if y / l < x / l {
      TimesMonotone(y / l + 1, x / l, l);
    }
  }

  lemma DivShift(x: int, k: int, l: int)
    requires l > 0
    ensures (x + k * l) / l == x / l + k
  {
    DivModLaw(x, l);
    assert (x / l + k) * l == x / l * l + k * l;
    assert (x / l + k + 1) * l == (x / l + 1) * l + k * l;
    DivUnique(x + k * l, l, x / l + k);
  }

  /** The least number whose square is at least `m`. */
  function CeilSqrt(m: nat): (s: nat)
    ensures s * s >= m
    ensures s > 0 ==> (s - 1) * (s - 1) < m
  {
    if m == 0 then 0
    else
      var s := CeilSqrt(m - 1);
      if s * s >= m then s else s + 1
  }

  /** The square root rounded to the nearest integer: (r - 1/2)^2 <= m < (r + 1/2)^2. */
  function RoundSqrt(m: nat): (r: nat)
    ensures m > 0 ==> r > 0 && r * r - r < m
    ensures m <= r * r + r
  {
    if m == 0 then 0
    else
      var r := RoundSqrt(m - 1);
      if m <= r * r + r then r else r + 1
  }

  /** The quotient rounded up. */
  function CeilDiv(x: nat, l: nat): (q: nat)
    requires l > 0
    ensures x <= q * l
    ensures q > 0 ==> (q - 1) * l < x
  {
    DivModLaw(x + l - 1, l);
    assert ((x + l - 1) / l - 1) * l == (x + l - 1) / l * l - l;
    (x + l - 1) / l
  }
}
