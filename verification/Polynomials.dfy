/**
  Polynomials over GF(256) as `src/shamir.rs` handles them: coefficient lists, lowest
  power first, built by loops that append to vectors.
  */
module Polynomials {
  import opened Gf256Tables
  import opened Gf256

  type Poly = seq<bv8>

  /** The value of p at x, by Horner's rule. */
  function Eval(p: Poly, x: bv8): bv8 {
    if p == [] then 0 else Add(p[0], Mul(x, Eval(p[1..], x)))
  }

  function Power(x: bv8, n: nat): bv8 {
    if n == 0 then 1 else Mul(Power(x, n - 1), x)
  }

  function Zeros(n: nat): Poly {
    seq(n, _ => 0)
  }

  function Coefficient(p: Poly, i: nat): bv8 {
    if i < |p| then p[i] else 0
  }

  function Sum(p: Poly, q: Poly): Poly {
    seq(if |p| < |q| then |q| else |p|, (i: nat) => Add(Coefficient(p, i), Coefficient(q, i)))
  }

  function Scale(p: Poly, c: bv8): Poly {
    seq(|p|, (i: nat) requires i < |p| => Mul(p[i], c))
  }

  /** The schoolbook product: one shifted multiple of p for every coefficient of q. */
  function Product(p: Poly, q: Poly): Poly {
    if q == [] then
      []
    else
      var last := |q| - 1;
      Sum(Product(p, q[..last]), Zeros(last) + Scale(p, q[last]))
  }

  method AddPolynomials(a: Poly, b: Poly) returns (results: Poly)
    ensures results == Sum(a, b)
  {
    hide Add;
    var a', b' := a, b;
    if |a| < |b| {
      a' := a + Zeros(|b| - |a|);
    } else if |a| > |b| {
      b' := b + Zeros(|a| - |b|);
    }
    results := [];
    for i := 0 to |a'|
      invariant |results| == i
      invariant forall j | 0 <= j < i :: results[j] == Add(a'[j], b'[j])
    {
      results := results + [Add(a'[i], b'[i])];
    }
  }

  method MultiplyPolynomials(a: Poly, b: Poly) returns (terms: Poly)
    ensures terms == Product(a, b)
  {
    hide Add, Mul, Sum;
    terms := [];
    var padding := [];
    for k := 0 to |b|
      invariant padding == Zeros(k)
      invariant terms == Product(a, b[..k])
    {
      var value := padding;
      for i := 0 to |a|
        invariant value == padding + Scale(a, b[k])[..i]
      {
        value := value + [Mul(a[i], b[k])];
      }
      assert Scale(a, b[k])[..|a|] == Scale(a, b[k]);
      assert b[..k + 1][..k] == b[..k];
      terms := AddPolynomials(terms, value);
      padding := padding + [0];
    }
    assert b[..|b|] == b;
  }

  // ---- Evaluation respects the operations.

  lemma {:induction false} EvalSum(p: Poly, q: Poly, x: bv8)
    ensures Eval(Sum(p, q), x) == Add(Eval(p, x), Eval(q, x))
  {
    hide Add, Mul;
    if p == [] {
      AddZeroAll(q);
      assert Sum(p, q) == q;
      AddLaws(Eval(q, x), 0, 0);
    } else if q == [] {
      AddZeroAll(p);
      assert Sum(p, q) == p;
      AddLaws(Eval(p, x), 0, 0);
    } else {
      var s := Sum(p, q);
      assert s[1..] == Sum(p[1..], q[1..]);
      EvalSum(p[1..], q[1..], x);
      MulDistributes(x, Eval(p[1..], x), Eval(q[1..], x));
      AddExchanges(p[0], q[0], Mul(x, Eval(p[1..], x)), Mul(x, Eval(q[1..], x)));
    }
  }

  lemma AddZeroAll(p: Poly)
    ensures forall i | 0 <= i < |p| :: Add(p[i], 0) == p[i] && Add(0, p[i]) == p[i]
  {
    forall i | 0 <= i < |p| ensures Add(p[i], 0) == p[i] && Add(0, p[i]) == p[i] {
      AddLaws(p[i], 0, 0);
    }
  }

  lemma {:induction false} EvalScale(p: Poly, c: bv8, x: bv8)
    ensures Eval(Scale(p, c), x) == Mul(Eval(p, x), c)
  {
    hide Add, Mul;
    if p == [] {
      MulZero(c);
    } else {
      var rest := Eval(p[1..], x);
      assert Scale(p, c)[1..] == Scale(p[1..], c);
      EvalScale(p[1..], c, x);
      MulAssociates(x, rest, c);
      MulCommutes(c, p[0]);
      MulCommutes(c, Mul(x, rest));
      MulCommutes(c, Add(p[0], Mul(x, rest)));
      MulDistributes(c, p[0], Mul(x, rest));
    }
  }

  lemma {:induction false} EvalShift(n: nat, p: Poly, x: bv8)
    ensures Eval(Zeros(n) + p, x) == Mul(Power(x, n), Eval(p, x))
  {
    hide Add, Mul;
    if n == 0 {
      assert Zeros(n) + p == p;
      MulOne(Eval(p, x));
    } else {
      var s := Zeros(n) + p;
      assert s[1..] == Zeros(n - 1) + p;
      EvalShift(n - 1, p, x);
      AddLaws(Mul(x, Eval(s[1..], x)), 0, 0);
      MulAssociates(x, Power(x, n - 1), Eval(p, x));
      MulCommutes(x, Power(x, n - 1));
    }
  }

  lemma {:induction false} EvalConcat(p: Poly, q: Poly, x: bv8)
    ensures Eval(p + q, x) == Add(Eval(p, x), Mul(Power(x, |p|), Eval(q, x)))
  {
    hide Add, Mul;
    EvalShift(|p|, q, x);
    var padded := Zeros(|p|) + q;
    AddZeroAll(p);
    AddZeroAll(padded);
    assert p + q == Sum(p, padded);
    EvalSum(p, padded, x);
  }

  lemma EvalSingle(c: bv8, x: bv8)
    ensures Eval([c], x) == c
  {
    hide Add, Mul;
    MulZero(x);
    AddLaws(c, 0, 0);
  }

  lemma EvalSnoc(p: Poly, n: nat, x: bv8)
    requires n < |p|
    ensures Eval(p[..n + 1], x) == Add(Eval(p[..n], x), Mul(p[n], Power(x, n)))
  {
    hide Add, Mul;
    assert p[..n + 1] == p[..n] + [p[n]];
    EvalConcat(p[..n], [p[n]], x);
    EvalSingle(p[n], x);
    MulCommutes(p[n], Power(x, n));
  }

  lemma {:induction false} EvalProduct(p: Poly, q: Poly, x: bv8)
    ensures Eval(Product(p, q), x) == Mul(Eval(p, x), Eval(q, x))
    decreases |q|
  {
    hide Add, Mul, Scale;
    if q == [] {
      MulZero(Eval(p, x));
    } else {
      var n := |q| - 1;
      var v := Eval(p, x);
      EvalProduct(p, q[..n], x);
      EvalSum(Product(p, q[..n]), Zeros(n) + Scale(p, q[n]), x);
      EvalShift(n, Scale(p, q[n]), x);
      EvalScale(p, q[n], x);
      EvalSnoc(q, n, x);
      assert q[..n + 1] == q;
      MulSwaps(Power(x, n), v, q[n]);
      MulCommutes(Power(x, n), q[n]);
      MulDistributes(v, Eval(q[..n], x), Mul(q[n], Power(x, n)));
    }
  }

  lemma {:induction false} ProductLength(p: Poly, q: Poly)
    requires p != []
    ensures |Product(p, q)| == if q == [] then 0 else |p| + |q| - 1
    decreases |q|
  {
    if q != [] {
      ProductLength(p, q[..|q| - 1]);
    }
  }

  // ---- A polynomial with as many roots as coefficients is zero.

  /** Synthetic division of p by x - r. */
  function Quotient(p: Poly, r: bv8): Poly {
    if |p| <= 1 then [] else [Eval(p[1..], r)] + Quotient(p[1..], r)
  }

  lemma {:induction false} FactorTheorem(p: Poly, r: bv8, x: bv8)
    ensures |Quotient(p, r)| == if p == [] then 0 else |p| - 1
    ensures Add(Eval(p, x), Eval(p, r)) == Mul(Add(x, r), Eval(Quotient(p, r), x))
  {
    hide Add, Mul;
    MulZero(Add(x, r));
    if p == [] {
      AddLaws(0, 0, 0);
    } else if |p| == 1 {
      EvalSingle(p[0], x);
      EvalSingle(p[0], r);
      AddLaws(p[0], 0, 0);
    } else {
      var t := p[1..];
      var q := Quotient(t, r);
      FactorTheorem(t, r, x);
      assert Quotient(p, r)[1..] == q;
      FactorStep(p[0], x, r, Eval(t, x), Eval(t, r), Eval(q, x));
    }
  }

  /** The ring identity behind one step of synthetic division. */
  lemma FactorStep(c: bv8, x: bv8, r: bv8, tx: bv8, tr: bv8, q: bv8)
    requires Add(tx, tr) == Mul(Add(x, r), q)
    ensures Add(Add(c, Mul(x, tx)), Add(c, Mul(r, tr))) == Mul(Add(x, r), Add(tr, Mul(x, q)))
  {
    hide Add, Mul;
    var d := Add(x, r);
    calc {
      Mul(d, Add(tr, Mul(x, q)));
      { MulDistributes(d, tr, Mul(x, q)); MulSwaps(d, x, q); }
      Add(Mul(d, tr), Mul(x, Add(tx, tr)));
      { MulDistributes(x, tx, tr);
        MulCommutes(d, tr); MulDistributes(tr, x, r); MulCommutes(tr, x); MulCommutes(tr, r); }
      Add(Add(Mul(x, tr), Mul(r, tr)), Add(Mul(x, tx), Mul(x, tr)));
      { CancelMiddle(Mul(x, tr), Mul(r, tr), Mul(x, tx)); }
      Add(Mul(x, tx), Mul(r, tr));
      { AddExchanges(c, Mul(x, tx), c, Mul(r, tr)); AddLaws(c, 0, 0);
        AddLaws(Add(Mul(x, tx), Mul(r, tr)), 0, 0); }
      Add(Add(c, Mul(x, tx)), Add(c, Mul(r, tr)));
    }
  }

  lemma CancelMiddle(a: bv8, b: bv8, c: bv8)
    ensures Add(Add(a, b), Add(c, a)) == Add(c, b)
  {
    hide Add;
    AddLaws(a, b, 0);
    AddLaws(c, a, 0);
    AddExchanges(a, b, a, c);
    AddLaws(Add(b, c), 0, 0);
    AddLaws(b, c, 0);
  }

  ghost predicate Distinct(xs: seq<bv8>) {
    forall i, j | 0 <= i < j < |xs| :: xs[i] != xs[j]
  }

  ghost predicate IsZero(p: Poly) {
    forall i | 0 <= i < |p| :: p[i] == 0
  }

  lemma {:induction false} ZeroQuotient(p: Poly, r: bv8)
    requires Eval(p, r) == 0 && IsZero(Quotient(p, r))
    ensures IsZero(p)
  {
    hide Add, Mul;
    if |p| == 1 {
      EvalSingle(p[0], r);
    } else if p != [] {
      assert Quotient(p, r)[0] == 0;
      assert Quotient(p, r)[1..] == Quotient(p[1..], r);
      ZeroQuotient(p[1..], r);
      MulZero(r);
      AddLaws(p[0], 0, 0);
      assert p == [p[0]] + p[1..];
    }
  }

  lemma {:induction false} RootsForceZero(p: Poly, xs: seq<bv8>)
    requires Distinct(xs) && |p| <= |xs|
    requires forall i | 0 <= i < |xs| :: Eval(p, xs[i]) == 0
    ensures IsZero(p)
    decreases |p|
  {
    hide Add, Mul, Eval, Quotient;
    if p != [] {
      var r := xs[0];
      var q := Quotient(p, r);
      FactorTheorem(p, r, 0);
      forall i | 1 <= i < |xs| ensures Eval(q, xs[i]) == 0 {
        FactorTheorem(p, r, xs[i]);
        AddLaws(xs[i], r, 0);
        AddLaws(0, 0, 0);
        if Eval(q, xs[i]) != 0 {
          NoZeroDivisors(Add(xs[i], r), Eval(q, xs[i]));
        }
      }
      RootsForceZero(q, xs[1..]);
      ZeroQuotient(p, r);
    }
  }

  /** Two polynomials of one length that agree on that many points are the same. */
  lemma InterpolationUnique(p: Poly, q: Poly, xs: seq<bv8>)
    requires Distinct(xs) && |p| == |q| <= |xs|
    requires forall i | 0 <= i < |xs| :: Eval(p, xs[i]) == Eval(q, xs[i])
    ensures p == q
  {
    hide Add, Mul, Eval;
    var d := Sum(p, q);
    forall i | 0 <= i < |xs| ensures Eval(d, xs[i]) == 0 {
      EvalSum(p, q, xs[i]);
      AddLaws(Eval(p, xs[i]), Eval(q, xs[i]), 0);
    }
    RootsForceZero(d, xs);
    forall i | 0 <= i < |p| ensures p[i] == q[i] {
      assert d[i] == Add(p[i], q[i]);
      AddLaws(p[i], q[i], 0);
    }
  }
}
