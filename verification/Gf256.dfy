/**
  Table-driven arithmetic of `src/shamir.rs` (gf256_add, gf256_sub, gf256_mul,
  gf256_checked_div) and the proof that it is the field of section 4.2 of FIPS 197.
  */
module Gf256 {
  import opened Wrappers
  import opened Gf256Tables

  function Sub(a: bv8, b: bv8): bv8 {
    Add(a, b)
  }

  function Mul(a: bv8, b: bv8): bv8 {
    if a == 0 || b == 0 then
      0
    else
      Exp((Log(a) + Log(b)) % 255)
  }

  function CheckedDiv(a: bv8, b: bv8): Option<bv8> {
    if a == 0 then
      Some(0)
    else if b == 0 then
      None
    else
      var diff := Log(a) - Log(b);
      var exponent := if diff < 0 then diff + 255 else diff;
      ExpLog(a);
      ExpLog(b);
      Some(Exp(exponent % 255))
  }

  /** The product of section 4.2 of FIPS 197: add up the shifts of a that b selects. */
  function FipsProduct(a: bv8, b: bv8): bv8
    decreases b
  {
    if b == 0 then
      0
    else
      Add(if b & 1 == 1 then a else 0, FipsProduct(Xtime(a), b >> 1))
  }

  // ---- Addition.

  lemma AddLaws(a: bv8, b: bv8, c: bv8)
    ensures Add(a, b) == Add(b, a)
    ensures Add(Add(a, b), c) == Add(a, Add(b, c))
    ensures Add(a, 0) == a && Add(0, a) == a
    ensures Add(a, a) == 0
    ensures Add(a, b) == 0 <==> a == b
  {}

  lemma AddExchanges(a: bv8, b: bv8, c: bv8, d: bv8)
    ensures Add(Add(a, b), Add(c, d)) == Add(Add(a, c), Add(b, d))
  {
    hide Add;
    AddLaws(a, b, Add(c, d));
    AddLaws(b, c, d);
    AddLaws(c, b, d);
    AddLaws(a, c, Add(b, d));
  }

  // ---- Multiplication by a power of the generator is linear and commutes with Xtime.

  ghost function TimesPower(k: nat, a: bv8): bv8 {
    if k == 0 then a else TimesGenerator(TimesPower(k - 1, a))
  }

  lemma ShiftLinear(a: bv8, b: bv8)
    ensures (a ^ b) << 1 == (a << 1) ^ (b << 1)
  {}

  lemma ReductionLinear(a: bv8, b: bv8)
    ensures Reduction(Add(a, b)) == Add(Reduction(a), Reduction(b))
  {
    assert (a ^ b) & 0x80 == (a & 0x80) ^ (b & 0x80);
    assert a & 0x80 == 0 || a & 0x80 == 0x80;
    assert b & 0x80 == 0 || b & 0x80 == 0x80;
  }

  lemma XtimeLinear(a: bv8, b: bv8)
    ensures Xtime(Add(a, b)) == Add(Xtime(a), Xtime(b))
  {
    hide Reduction;
    ShiftLinear(a, b);
    ReductionLinear(a, b);
    AddExchanges(a << 1, b << 1, Reduction(a), Reduction(b));
  }

  lemma TimesGeneratorLinear(a: bv8, b: bv8)
    ensures TimesGenerator(Add(a, b)) == Add(TimesGenerator(a), TimesGenerator(b))
  {
    hide Add, Xtime;
    var a2, b2 := Xtime(Xtime(a)), Xtime(Xtime(b));
    XtimeLinear(a, b);
    XtimeLinear(Xtime(a), Xtime(b));
    XtimeLinear(a2, b2);
    XtimeLinear(Xtime(a2), Xtime(b2));
    XtimeLinear(Xtime(Xtime(a2)), Xtime(Xtime(b2)));
    var a5, b5 := Xtime(Xtime(Xtime(a2))), Xtime(Xtime(Xtime(b2)));
    var a6, b6 := Xtime(a5), Xtime(b5);
    XtimeLinear(a5, b5);
    XtimeLinear(a6, b6);
    AddExchanges(a, b, a2, b2);
    AddExchanges(Add(a, a2), Add(b, b2), a5, b5);
    AddExchanges(Add(Add(a, a2), a5), Add(Add(b, b2), b5), a6, b6);
    AddExchanges(Add(Add(Add(a, a2), a5), a6), Add(Add(Add(b, b2), b5), b6), Xtime(a6), Xtime(b6));
  }

  lemma XtimeCommutesWithGenerator(a: bv8)
    ensures Xtime(TimesGenerator(a)) == TimesGenerator(Xtime(a))
  {
    hide Add, Xtime;
    var a2 := Xtime(Xtime(a));
    var a5 := Xtime(Xtime(Xtime(a2)));
    XtimeLinear(Add(Add(Add(a, a2), a5), Xtime(a5)), Xtime(Xtime(a5)));
    XtimeLinear(Add(Add(a, a2), a5), Xtime(a5));
    XtimeLinear(Add(a, a2), a5);
    XtimeLinear(a, a2);
  }

  lemma {:induction false} TimesPowerLinear(k: nat, a: bv8, b: bv8)
    ensures TimesPower(k, Add(a, b)) == Add(TimesPower(k, a), TimesPower(k, b))
  {
    hide Add, TimesGenerator;
    if k > 0 {
      TimesPowerLinear(k - 1, a, b);
      TimesGeneratorLinear(TimesPower(k - 1, a), TimesPower(k - 1, b));
    }
  }

  lemma {:induction false} TimesPowerXtime(k: nat, a: bv8)
    ensures TimesPower(k, Xtime(a)) == Xtime(TimesPower(k, a))
  {
    hide TimesGenerator, Xtime;
    if k > 0 {
      TimesPowerXtime(k - 1, a);
      XtimeCommutesWithGenerator(TimesPower(k - 1, a));
    }
  }

  lemma {:induction false} TimesPowerAdds(k: nat, l: nat, a: bv8)
    ensures TimesPower(k, TimesPower(l, a)) == TimesPower(k + l, a)
  {
    hide TimesGenerator;
    if k > 0 {
      TimesPowerAdds(k - 1, l, a);
    }
  }

  lemma {:induction false} TimesPowerZero(k: nat)
    ensures TimesPower(k, 0) == 0
  {
    if k > 0 {
      TimesPowerZero(k - 1);
      assert TimesGenerator(0) == 0;
    }
  }

  /** The exponent table turns multiplication by a power into addition modulo 255. */
  lemma {:induction false} TimesPowerExp(k: nat, l: nat)
    requires l < 255
    ensures TimesPower(k, Exp(l)) == Exp((k + l) % 255)
  {
    hide Exp, TimesGenerator;
    if k > 0 {
      TimesPowerExp(k - 1, l);
      ExpStep((k - 1 + l) % 255);
      ExpWraps();
      assert (k + l) % 255 == if (k - 1 + l) % 255 == 254 then 0 else (k - 1 + l) % 255 + 1;
    }
  }

  lemma ExpWraps()
    ensures Exp(255) == Exp(0)
  {}

  /** Reading the exponent table at the logarithm modulo 255 gives the byte back. */
  lemma ExpLogReduced(a: bv8)
    requires a != 0
    ensures Exp(Log(a) % 255) == a
  {
    hide Exp, Log;
    ExpLog(a);
    ExpWraps();
    assert Log(a) == 255 || Log(a) % 255 == Log(a);
  }

  lemma ModAbsorbs(x: nat, y: nat)
    ensures (x + y % 255) % 255 == (x + y) % 255
  {}

  /** The table product is repeated multiplication by the generator. */
  lemma MulIsTimesPower(a: bv8, b: bv8)
    requires a != 0
    ensures Mul(a, b) == TimesPower(Log(a), b)
  {
    hide Exp, Log, TimesPower;
    if b == 0 {
      TimesPowerZero(Log(a));
    } else {
      ExpLogReduced(b);
      TimesPowerExp(Log(a), Log(b) % 255);
      ModAbsorbs(Log(a), Log(b));
    }
  }

  // ---- The field laws.

  lemma MulCommutes(a: bv8, b: bv8)
    ensures Mul(a, b) == Mul(b, a)
  {
    hide Exp, Log;
  }

  lemma MulDistributes(a: bv8, b: bv8, c: bv8)
    ensures Mul(a, Add(b, c)) == Add(Mul(a, b), Mul(a, c))
  {
    if a == 0 {
      assert Add(0, 0) == 0;
    } else {
      hide *;
      MulIsTimesPower(a, b);
      MulIsTimesPower(a, c);
      MulIsTimesPower(a, Add(b, c));
      TimesPowerLinear(Log(a), b, c);
    }
  }

  lemma MulSwaps(a: bv8, b: bv8, c: bv8)
    ensures Mul(a, Mul(b, c)) == Mul(b, Mul(a, c))
  {
    hide *;
    if a == 0 || b == 0 {
      MulZero(a);
      MulZero(b);
      MulZero(c);
      MulZero(Mul(a, c));
      MulZero(Mul(b, c));
    } else {
      MulIsTimesPower(a, Mul(b, c));
      MulIsTimesPower(b, Mul(a, c));
      MulIsTimesPower(b, c);
      MulIsTimesPower(a, c);
      TimesPowerAdds(Log(a), Log(b), c);
      TimesPowerAdds(Log(b), Log(a), c);
    }
  }

  lemma MulAssociates(a: bv8, b: bv8, c: bv8)
    ensures Mul(Mul(a, b), c) == Mul(a, Mul(b, c))
  {
    hide *;
    MulCommutes(Mul(a, b), c);
    MulSwaps(c, a, b);
    MulCommutes(c, b);
  }

  lemma MulOne(a: bv8)
    ensures Mul(a, 1) == a && Mul(1, a) == a
  {
    if a != 0 {
      assert Log(1) == 255;
      ExpLogReduced(a);
      hide Exp, Log;
      assert (Log(a) + 255) % 255 == Log(a) % 255;
    }
  }

  lemma MulZero(a: bv8)
    ensures Mul(a, 0) == 0 && Mul(0, a) == 0
  {}

  lemma NoZeroDivisors(a: bv8, b: bv8)
    requires a != 0 && b != 0
    ensures Mul(a, b) != 0
  {
    ExpNonzero((Log(a) + Log(b)) % 255);
  }

  /** Division inverts multiplication and is refused exactly for a nonzero byte over 0. */
  lemma DivInvertsMul(a: bv8, b: bv8)
    ensures CheckedDiv(a, b).None? <==> a != 0 && b == 0
    ensures CheckedDiv(a, b).Some? && b != 0 ==> Mul(CheckedDiv(a, b).value, b) == a
  {
    hide Exp, Log, TimesPower;
    if a != 0 && b != 0 {
      ExpLog(a);
      ExpLog(b);
      var diff := Log(a) - Log(b);
      var exponent := if diff < 0 then diff + 255 else diff;
      var q := Exp(exponent % 255);
      MulCommutes(q, b);
      MulIsTimesPower(b, q);
      TimesPowerExp(Log(b), exponent % 255);
      ModAbsorbs(Log(b), exponent);
      ExpLogReduced(a);
    }
  }

  lemma MulXtime(a: bv8, b: bv8)
    ensures Mul(a, Xtime(b)) == Xtime(Mul(a, b))
  {
    if a == 0 {
      assert Xtime(0) == 0;
    } else {
      hide *;
      MulIsTimesPower(a, b);
      MulIsTimesPower(a, Xtime(b));
      TimesPowerXtime(Log(a), b);
    }
  }

  lemma SplitLowBit(b: bv8)
    ensures b == Add(b & 1, Xtime(b >> 1))
    ensures b & 1 == 1 || b & 1 == 0
  {
    assert (b >> 1) & 0x80 == 0;
  }

  /** The table product is the product FIPS 197 defines. */
  lemma {:induction false} MulIsFipsProduct(a: bv8, b: bv8)
    ensures Mul(a, b) == FipsProduct(a, b)
    decreases b
  {
    hide Mul, Add, Xtime;
    MulZero(a);
    if b != 0 {
      var half := b >> 1;
      SplitLowBit(b);
      MulDistributes(a, b & 1, Xtime(half));
      MulOne(a);
      MulXtime(a, half);
      MulCommutes(a, half);
      MulXtime(half, a);
      MulCommutes(half, Xtime(a));
      MulIsFipsProduct(Xtime(a), half);
    }
  }
}
