/** Quotients and multiples. */
module Division {

  lemma Times(a: nat, b: nat, n: nat)
    requires a <= b
    ensures a * n <= b * n
  {
  }

  lemma NextTimes(a: nat, b: nat, width: nat)
    ensures a < b ==> a * width + width <= b * width
  {
    if a < b {
      Times(a + 1, b, width);
      assert (a + 1) * width == a * width + width;
    }
  }

  lemma Quotient(x: nat, width: nat)
    requires width > 0
    ensures x / width * width <= x < x / width * width + width
  {
  }

  /** The quotient is the only number between whose multiples `x` lies. */
  lemma QuotientIs(x: nat, q: nat, width: nat)
    requires width > 0 && q * width <= x < q * width + width
    ensures x / width == q
  {
    Quotient(x, width);
    var r := x / width;
    NextTimes(q, r, width);
    NextTimes(r, q, width);
  }

  lemma QuotientBound(n: nat, x: nat, width: nat)
    requires width > 0 && n * width <= x
    ensures n <= x / width
  {
    Quotient(x, width);
    NextTimes(x / width, n, width);
  }

  lemma QuotientGrows(x: nat, y: nat, width: nat)
    requires width > 0 && x <= y
    ensures x / width <= y / width
  {
    Quotient(x, width);
    QuotientBound(x / width, y, width);
  }
}
