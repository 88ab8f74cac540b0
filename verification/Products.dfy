/** Multiplication as a named function: proofs `hide` it and use these laws instead of non-linear search. */
module Products {
  function Times(a: real, b: real): real { a * b }

  lemma Distribute(a: real, b: real, c: real)
    ensures Times(a + b, c) == Times(a, c) + Times(b, c)
    ensures Times(c, a + b) == Times(c, a) + Times(c, b)
  {
  }

  lemma Mono(q: real, a: real, b: real)
    requires q >= 0.0 && a <= b
    ensures Times(q, a) <= Times(q, b)
    ensures Times(a, q) <= Times(b, q)
  {
  }

  lemma Associate(a: real, b: real, c: real)
    ensures Times(a, Times(b, c)) == Times(Times(a, b), c)
  {
  }

  lemma Units(a: real)
    ensures Times(a, 0.0) == 0.0 == Times(0.0, a)
    ensures Times(a, 1.0) == a == Times(1.0, a)
  {
  }

  lemma Cancel(a: real, b: real, q: real)
    requires q > 0.0 && Times(a, q) <= Times(b, q)
    ensures a <= b
  {
    assert (a - b) * q <= 0.0;
  }

  /** A quotient is what multiplies back. */
  lemma Quotient(a: real, q: real)
    requires q != 0.0
    ensures Times(a / q, q) == a == Times(q, a / q)
  {
  }

  lemma TimesNegative(a: real, b: real)
    ensures Times(-a, b) == -Times(a, b)
  {
  }

  lemma PositiveProduct(a: real, b: real)
    requires a > 0.0 && b > 0.0
    ensures Times(a, b) > 0.0
  {
  }

  lemma SquareSign(x: real)
    ensures Times(x, x) >= 0.0 && (Times(x, x) == 0.0 <==> x == 0.0)
  {
    Units(x);
    if x > 0.0 {
      PositiveProduct(x, x);
    } else if x < 0.0 {
      PositiveProduct(-x, -x);
      assert Times(-x, -x) == Times(x, x);
    }
  }
}
