/** Lagrange interpolation (`full_lagrange` in `src/shamir.rs`). */
module Interpolation {
  import opened Wrappers
  import opened Gf256Tables
  import opened Gf256
  import opened Polynomials

  /** The quotient of a by b, or 0 where `gf256_checked_div` refuses. */
  function Ratio(a: bv8, b: bv8): bv8 {
    match CheckedDiv(a, b)
    case Some(q) => q
    case None => 0
  }

  /** The linear factor that is 1 at xi and 0 at xj. */
  function Factor(xi: bv8, xj: bv8): Poly {
    [Ratio(xj, Sub(xi, xj)), Ratio(1, Sub(xi, xj))]
  }

  /** The product of the factors for the first m points other than xs[i]. */
  function Basis(xs: seq<bv8>, i: nat, m: nat): Poly
    requires i < |xs| && m <= |xs|
  {
    if m == 0 then [1]
    else if m - 1 == i then Basis(xs, i, m - 1)
    else Product(Basis(xs, i, m - 1), Factor(xs[i], xs[m - 1]))
  }

  /** The sum of the first m weighted basis polynomials. */
  function Interpolant(xs: seq<bv8>, fxs: seq<bv8>, m: nat): Poly
    requires m <= |fxs| == |xs|
  {
    if m == 0 then []
    else Sum(Interpolant(xs, fxs, m - 1), Product(Basis(xs, m - 1, |xs|), [fxs[m - 1]]))
  }

  /** Interpolation fails exactly when two of the points coincide. */
  method FullLagrange(xs: seq<bv8>, fxs: seq<bv8>) returns (r: Option<Poly>)
    requires |xs| == |fxs|
    ensures r == if Distinct(xs) then Some(Interpolant(xs, fxs, |xs|)) else None
  {
    hide Add, Mul, CheckedDiv, Product, Sum;
    var coefficients := [];
    for i := 0 to |fxs|
      invariant coefficients == Interpolant(xs, fxs, i)
      invariant forall k, j | 0 <= k < i && 0 <= j < |xs| && j != k :: xs[k] != xs[j]
    {
      var polynomial := [1];
      for j := 0 to |fxs|
        invariant polynomial == Basis(xs, i, j)
        invariant forall k | 0 <= k < j && k != i :: xs[i] != xs[k]
      {
        if i != j {
          var denominator := Sub(xs[i], xs[j]);
          AddLaws(xs[i], xs[j], 0);
          DivInvertsMul(1, denominator);
          DivInvertsMul(xs[j], denominator);
          match (CheckedDiv(xs[j], denominator), CheckedDiv(1, denominator)) {
            case (Some(a), Some(b)) =>
              polynomial := MultiplyPolynomials(polynomial, [a, b]);
            case _ =>
              return None;
          }
        }
      }
      if |fxs| + 1 >= i {
        polynomial := MultiplyPolynomials(polynomial, [fxs[i]]);
      }
      coefficients := AddPolynomials(coefficients, polynomial);
    }
    return Some(coefficients);
  }

  lemma FactorValues(xi: bv8, xj: bv8)
    requires xi != xj
    ensures Eval(Factor(xi, xj), xi) == 1
    ensures Eval(Factor(xi, xj), xj) == 0
  {
    hide Add, Mul, CheckedDiv, Eval;
    var d := Add(xi, xj);
    var a, b := Ratio(xj, d), Ratio(1, d);
    AddLaws(xi, xj, 0);
    DivInvertsMul(xj, d);
    DivInvertsMul(1, d);
    assert Mul(a, d) == xj && Mul(b, d) == 1;
    RatioScales(xj, d, a, b);
    EvalLinear(a, b, xi);
    EvalLinear(a, b, xj);
    MulCommutes(b, xi);
    MulCommutes(b, xj);
    MulDistributes(b, xj, xi);
    AddLaws(xj, xi, 0);
    AddLaws(a, 0, 0);
    MulCommutes(b, d);
  }

  /** a / d is a times the inverse of d. */
  lemma RatioScales(c: bv8, d: bv8, a: bv8, b: bv8)
    requires Mul(a, d) == c && Mul(b, d) == 1
    ensures a == Mul(c, b)
  {
    hide Mul;
    MulAssociates(a, d, b);
    MulCommutes(d, b);
    MulOne(a);
  }

  lemma EvalLinear(a: bv8, b: bv8, x: bv8)
    ensures Eval([a, b], x) == Add(a, Mul(x, b))
  {
    hide Add, Mul;
    assert [a, b][1..] == [b];
    EvalSingle(b, x);
  }

  lemma {:induction false} BasisValue(xs: seq<bv8>, i: nat, m: nat, k: nat)
    requires Distinct(xs) && i < |xs| && m <= |xs| && k < |xs|
    ensures |Basis(xs, i, m)| == if i < m then m else m + 1
    ensures k == i ==> Eval(Basis(xs, i, m), xs[k]) == 1
    ensures k != i && k < m ==> Eval(Basis(xs, i, m), xs[k]) == 0
  {
    hide Add, Mul, Factor, Eval;
    if m == 0 {
      EvalSingle(1, xs[k]);
    } else {
      BasisValue(xs, i, m - 1, k);
      if m - 1 != i {
        var basis, factor := Basis(xs, i, m - 1), Factor(xs[i], xs[m - 1]);
        EvalProduct(basis, factor, xs[k]);
        ProductLength(basis, factor);
        FactorLength(xs[i], xs[m - 1]);
        FactorValues(xs[i], xs[m - 1]);
        MulOne(1);
        MulZero(Eval(basis, xs[k]));
        MulZero(Eval(factor, xs[k]));
      }
    }
  }

  lemma FactorLength(xi: bv8, xj: bv8)
    ensures |Factor(xi, xj)| == 2
  {}

  lemma {:induction false} InterpolantValue(xs: seq<bv8>, fxs: seq<bv8>, m: nat, k: nat)
    requires Distinct(xs) && m <= |fxs| == |xs| && k < |xs|
    ensures |Interpolant(xs, fxs, m)| == if m == 0 then 0 else |xs|
    ensures Eval(Interpolant(xs, fxs, m), xs[k]) == if k < m then fxs[k] else 0
  {
    hide Add, Mul, Basis;
    if m > 0 {
      var basis := Basis(xs, m - 1, |xs|);
      hide Eval;
      InterpolantValue(xs, fxs, m - 1, k);
      BasisValue(xs, m - 1, |xs|, k);
      ProductLength(basis, [fxs[m - 1]]);
      EvalProduct(basis, [fxs[m - 1]], xs[k]);
      EvalSingle(fxs[m - 1], xs[k]);
      EvalSum(Interpolant(xs, fxs, m - 1), Product(basis, [fxs[m - 1]]), xs[k]);
      MulOne(fxs[m - 1]);
      MulZero(fxs[m - 1]);
      AddLaws(Eval(Interpolant(xs, fxs, m - 1), xs[k]), 0, 0);
      AddLaws(fxs[m - 1], 0, 0);
    }
  }

  ghost predicate Fits(p: Poly, xs: seq<bv8>, fxs: seq<bv8>)
    requires |xs| == |fxs|
  {
    && |p| == |xs|
    && forall k | 0 <= k < |xs| :: Eval(p, xs[k]) == fxs[k]
  }

  /**
    Existence and uniqueness of interpolation: for distinct points, the polynomial that
    `full_lagrange` computes has one coefficient per point and passes through all of
    them, and any polynomial that does so is that one.
    */
  lemma InterpolationTheorem(xs: seq<bv8>, fxs: seq<bv8>, p: Poly)
    requires Distinct(xs) && |xs| == |fxs|
    ensures Fits(p, xs, fxs) <==> p == Interpolant(xs, fxs, |xs|)
  {
    hide Add, Mul, Eval, Interpolant;
    var q := Interpolant(xs, fxs, |xs|);
    if xs == [] {
      InterpolantEmpty(xs, fxs);
    } else {
      forall k | 0 <= k < |xs| ensures |q| == |xs| && Eval(q, xs[k]) == fxs[k] {
        InterpolantValue(xs, fxs, |xs|, k);
      }
      assert Fits(q, xs, fxs) by {
        InterpolantValue(xs, fxs, |xs|, 0);
      }
      if Fits(p, xs, fxs) {
        InterpolationUnique(p, q, xs);
      }
    }
  }

  lemma InterpolantEmpty(xs: seq<bv8>, fxs: seq<bv8>)
    requires xs == [] && fxs == []
    ensures Interpolant(xs, fxs, 0) == []
  {}
}
