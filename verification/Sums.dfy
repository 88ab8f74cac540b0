/** Finite sums of reals over sequences, and the few laws the other modules use. */
module Sums {

  /** The sum of `f` over the elements of `xs`. */
  function SumOf<T>(xs: seq<T>, f: T -> real): real {
    if xs == [] then 0.0 else f(xs[0]) + SumOf(xs[1..], f)
  }

  lemma {:induction false} SumAppend<T>(xs: seq<T>, ys: seq<T>, f: T -> real)
    ensures SumOf(xs + ys, f) == SumOf(xs, f) + SumOf(ys, f)
  {
    if xs == [] {
      assert xs + ys == ys;
    } else {
      assert (xs + ys)[1..] == xs[1..] + ys;
      SumAppend(xs[1..], ys, f);
    }
  }

  lemma SumOne<T>(x: T, f: T -> real)
    ensures SumOf([x], f) == f(x)
  {
    assert [x][1..] == [];
  }

  lemma SumSnoc<T>(xs: seq<T>, y: T, f: T -> real)
    ensures SumOf(xs + [y], f) == SumOf(xs, f) + f(y)
  {
    SumAppend(xs, [y], f);
    assert [y][1..] == [];
  }

  lemma {:induction false} SumUpdate<T>(xs: seq<T>, i: nat, y: T, f: T -> real)
    requires i < |xs|
    ensures SumOf(xs[i := y], f) == SumOf(xs, f) - f(xs[i]) + f(y)
  {
    if i == 0 {
      assert xs[i := y][1..] == xs[1..];
    } else {
      assert xs[i := y][1..] == xs[1..][i - 1 := y];
      SumUpdate(xs[1..], i - 1, y, f);
    }
  }

  /** Sums of pointwise ordered functions are ordered. */
  lemma {:induction false} SumMono<T>(xs: seq<T>, f: T -> real, g: T -> real)
    requires forall x :: x in xs ==> f(x) <= g(x)
    ensures SumOf(xs, f) <= SumOf(xs, g)
  {
    if xs != [] {
      SumMono(xs[1..], f, g);
    }
  }

  lemma SumCongruent<T>(xs: seq<T>, f: T -> real, g: T -> real)
    requires forall x :: x in xs ==> f(x) == g(x)
    ensures SumOf(xs, f) == SumOf(xs, g)
  {
    SumMono(xs, f, g);
    SumMono(xs, g, f);
  }

  /** h = a*f + b*g pointwise implies the same of the sums. */
  lemma {:induction false} SumLinear<T>(xs: seq<T>, h: T -> real, a: real, f: T -> real, b: real, g: T -> real)
    requires forall x :: x in xs ==> h(x) == a * f(x) + b * g(x)
    ensures SumOf(xs, h) == a * SumOf(xs, f) + b * SumOf(xs, g)
  {
    if xs != [] {
      SumLinear(xs[1..], h, a, f, b, g);
      var x, t := xs[0], xs[1..];
      assert a * (f(x) + SumOf(t, f)) == a * f(x) + a * SumOf(t, f);
      assert b * (g(x) + SumOf(t, g)) == b * g(x) + b * SumOf(t, g);
    }
  }

  lemma SumScale<T>(xs: seq<T>, h: T -> real, a: real, f: T -> real)
    requires forall x :: x in xs ==> h(x) == a * f(x)
    ensures SumOf(xs, h) == a * SumOf(xs, f)
  {
    SumLinear(xs, h, a, f, 0.0, f);
  }

  lemma {:induction false} SumConstant<T>(xs: seq<T>, f: T -> real, c: real)
    requires forall x :: x in xs ==> f(x) == c
    ensures SumOf(xs, f) == c * |xs| as real
  {
    if xs != [] {
      SumConstant(xs[1..], f, c);
      assert |xs| as real == 1.0 + |xs[1..]| as real;
      assert c * (1.0 + |xs[1..]| as real) == c + c * |xs[1..]| as real;
    }
  }

  lemma {:induction false} SumNonNegative<T>(xs: seq<T>, f: T -> real)
    requires forall x :: x in xs ==> 0.0 <= f(x)
    ensures 0.0 <= SumOf(xs, f)
    ensures forall x :: x in xs ==> f(x) <= SumOf(xs, f)
  {
    if xs != [] {
      SumNonNegative(xs[1..], f);
    }
  }

  /** A sum of non-negative terms vanishes only when every term does. */
  lemma SumZero<T>(xs: seq<T>, f: T -> real)
    requires forall x :: x in xs ==> 0.0 <= f(x)
    ensures SumOf(xs, f) == 0.0 <==> forall x :: x in xs ==> f(x) == 0.0
  {
    SumNonNegative(xs, f);
    if forall x :: x in xs ==> f(x) == 0.0 {
      SumConstant(xs, f, 0.0);
    }
  }

  /** In a sequence without repetitions, exactly one term of an indicator sum is 1. */
  lemma {:induction false} SumIndicator<T>(xs: seq<T>, x: T, f: T -> real)
    requires forall i, j :: 0 <= i < j < |xs| ==> xs[i] != xs[j]
    requires x in xs
    requires forall y :: y in xs ==> f(y) == if y == x then 1.0 else 0.0
    ensures SumOf(xs, f) == 1.0
  {
    if xs[0] == x {
      SumConstant(xs[1..], f, 0.0);
    } else {
      SumIndicator(xs[1..], x, f);
    }
  }

  /** Two sequences without repetitions that hold the same elements have the same sum. */
  lemma {:induction false} SumReordered<T>(xs: seq<T>, ys: seq<T>, f: T -> real)
    requires forall i, j :: 0 <= i < j < |xs| ==> xs[i] != xs[j]
    requires forall i, j :: 0 <= i < j < |ys| ==> ys[i] != ys[j]
    requires forall x :: x in xs <==> x in ys
    ensures SumOf(xs, f) == SumOf(ys, f)
  {
    if xs == [] {
      assert forall i :: 0 <= i < |ys| ==> ys[i] in xs;
    } else {
      assert xs[0] in ys;
      var i :| 0 <= i < |ys| && ys[i] == xs[0];
      var rest := ys[..i] + ys[i + 1..];
      assert ys == ys[..i] + [ys[i]] + ys[i + 1..];
      SumAppend(ys[..i] + [ys[i]], ys[i + 1..], f);
      SumSnoc(ys[..i], ys[i], f);
      SumAppend(ys[..i], ys[i + 1..], f);
      RestHolds(xs, ys, i);
      SumReordered(xs[1..], rest, f);
    }
  }

  lemma RestHolds<T>(xs: seq<T>, ys: seq<T>, i: nat)
    requires forall i, j :: 0 <= i < j < |xs| ==> xs[i] != xs[j]
    requires forall i, j :: 0 <= i < j < |ys| ==> ys[i] != ys[j]
    requires forall x :: x in xs <==> x in ys
    requires xs != [] && i < |ys| && ys[i] == xs[0]
    ensures forall x :: x in xs[1..] <==> x in ys[..i] + ys[i + 1..]
  {
    var rest := ys[..i] + ys[i + 1..];
    forall x ensures x in xs[1..] <==> x in rest {
      if x in xs[1..] {
        assert x in ys;
        var j :| 0 <= j < |ys| && ys[j] == x;
        assert rest[if j < i then j else j - 1] == x;
      }
      if x in rest {
        var j :| 0 <= j < |rest| && rest[j] == x;
        assert ys[if j < i then j else j + 1] == x;
        assert x in xs;
      }
    }
  }
}
