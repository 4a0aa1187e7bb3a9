/** Facts about multiplication, division and remainder on naturals that the
    solver does not find by itself. */
module Arithmetic {
  lemma MulMonotone(a: nat, b: nat, d: nat)
    requires a <= b
    ensures a * d <= b * d
  {
    var c: nat := b - a;
    assert b * d == a * d + c * d;
  }

  lemma MulStrict(a: nat, b: nat, d: nat)
    requires a < b
    ensures a * d + d <= b * d
  {
    MulMonotone(a + 1, b, d);
    assert (a + 1) * d == a * d + d;
  }

  lemma DivModUnique(v: nat, d: nat, q: nat, r: nat)
    requires d > 0 && r < d && v == q * d + r
    ensures v / d == q && v % d == r
  {
    var q', r' := v / d, v % d;
    assert v == q' * d + r';
    if q' < q {
      MulStrict(q', q, d);
    } else if q' > q {
      MulStrict(q, q', d);
    }
  }

}
