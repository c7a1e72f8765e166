/** The few facts about real division that the price arithmetic rests on. */
module Reals {

  lemma MulMonotone(a: real, b: real, c: real)
    requires a <= b && c >= 0.0
    ensures a * c <= b * c
  {
  }

  lemma MulStrict(a: real, b: real, c: real)
    requires a < b && c > 0.0
    ensures a * c < b * c
  {
  }

  lemma QuotientTimes(a: real, c: real)
    requires c != 0.0
    ensures a / c * c == a
  {
  }

  /** Comparing a quotient is comparing with a product. */
  lemma QuotientCompare(a: real, c: real, q: real)
    requires c > 0.0
    ensures a / c <= q <==> a <= q * c
    ensures a / c >= q <==> a >= q * c
  {
    var r := a / c;
    QuotientTimes(a, c);
    assert r * c == a;
    if r < q { MulStrict(r, q, c); }
    if q < r { MulStrict(q, r, c); }
  }

  lemma QuotientMonotone(a: real, b: real, c: real)
    requires a <= b && c > 0.0
    ensures a / c <= b / c
  {
    QuotientTimes(b, c);
    QuotientCompare(a, c, b / c);
  }

  /** A larger denominator makes a non-negative quotient no larger. */
  lemma QuotientAntitone(a: real, c: real, d: real)
    requires a >= 0.0 && 0.0 < c <= d
    ensures 0.0 <= a / d <= a / c
  {
    QuotientTimes(a, c);
    QuotientCompare(a, c, 0.0);
    QuotientCompare(a, d, 0.0);
    MulMonotone(c, d, a / c);
    QuotientCompare(a, d, a / c);
  }
}
