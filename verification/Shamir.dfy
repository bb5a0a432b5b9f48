/**
  Secret splitting and recovery (`ShamirSecret` in `src/shamir.rs`).

  A secret is shared byte by byte: the byte is the constant coefficient of a polynomial
  whose other coefficients are random, and a share holds the values of all these
  polynomials at its id, followed by the id. The random bytes are a parameter.
  */
module Shamir {
  import opened Wrappers
  import opened Gf256Tables
  import opened Gf256
  import opened Polynomials
  import opened Interpolation

  type Share = seq<bv8>

  /** threshold - 1 random bytes per byte of the secret; threshold 0 is refused before any are drawn. */
  ghost predicate ValidRandom(random: seq<Poly>, secret: seq<bv8>, threshold: nat)
  {
    && |random| == |secret|
    && forall i | 0 <= i < |random| :: threshold > 0 ==> |random[i]| + 1 == threshold
  }

  /** The polynomial behind every byte of the secret. */
  function Coefficients(secret: seq<bv8>, random: seq<Poly>): seq<Poly>
    requires |random| == |secret|
  {
    seq(|secret|, (i: nat) requires i < |secret| => [secret[i]] + random[i])
  }

  function ShareOf(coefficients: seq<Poly>, id: bv8): Share {
    seq(|coefficients|, (i: nat) requires i < |coefficients| => Eval(coefficients[i], id)) + [id]
  }

  /** The id of share number i, counted up from 1 in a byte. */
  function ShareId(i: nat): bv8 {
    if i == 0 then 1 else ShareId(i - 1) + 1
  }

  function Issued(secret: seq<bv8>, random: seq<Poly>, part: u8): seq<Share>
    requires |random| == |secret|
  {
    seq(part, (i: nat) requires i < 255 => ShareOf(Coefficients(secret, random), ShareId(i)))
  }

  method WithSecret(secret: seq<bv8>, threshold: u8, random: seq<Poly>) returns (coefficients: seq<Poly>)
    requires threshold > 0 && ValidRandom(random, secret, threshold)
    ensures coefficients == Coefficients(secret, random)
  {
    coefficients := [];
    for i := 0 to |secret|
      invariant coefficients == Coefficients(secret, random)[..i]
    {
      var coef := [secret[i]];
      for j := 0 to threshold - 1
        invariant coef == [secret[i]] + random[i][..j]
      {
        coef := coef + [random[i][j]];
      }
      assert random[i][..threshold - 1] == random[i];
      coefficients := coefficients + [coef];
    }
  }

  method AccumulateShareBytes(id: bv8, coefficients: Poly) returns (r: Result<bv8, RvError>)
    ensures r == if id == 0 then Failure(ErrShamirShareCountInvalid) else Success(Eval(coefficients, id))
  {
    hide Add, Mul;
    if id == 0 {
      return Failure(ErrShamirShareCountInvalid);
    }
    var accumulator: bv8 := 0;
    var x: bv8 := 1;
    for i := 0 to |coefficients|
      invariant accumulator == Eval(coefficients[..i], id)
      invariant x == Power(id, i)
    {
      EvalSnoc(coefficients, i, id);
      accumulator := Add(accumulator, Mul(coefficients[i], x));
      x := Mul(x, id);
    }
    assert coefficients[..|coefficients|] == coefficients;
    return Success(accumulator);
  }

  method GetShare(coefficients: seq<Poly>, id: bv8) returns (r: Result<Share, RvError>)
    ensures r == if id == 0 then Failure(ErrShamirShareCountInvalid) else Success(ShareOf(coefficients, id))
  {
    if id == 0 {
      return Failure(ErrShamirShareCountInvalid);
    }
    var bytes := [];
    for i := 0 to |coefficients|
      invariant bytes == ShareOf(coefficients, id)[..i]
    {
      var b := AccumulateShareBytes(id, coefficients[i]);
      bytes := bytes + [b.value];
    }
    return Success(bytes + [id]);
  }

  /**
    `split`. The end of the range, `part + 1`, is computed in a byte: with 255 parts it
    panics where overflow checks are compiled in and wraps to an empty range elsewhere.
    */
  method Split(secret: seq<bv8>, part: u8, threshold: u8, random: seq<Poly>, overflowChecks: bool)
    returns (r: Result<seq<Share>, RvError>)
    requires ValidRandom(random, secret, threshold)
    ensures r == SplitResult(secret, part, threshold, random, overflowChecks)
  {
    hide ShareId, ShareOf;
    if part < threshold || threshold < 2 {
      return Failure(ErrShamirShareCountInvalid);
    }
    var coefficients := WithSecret(secret, threshold, random);
    if part == 255 && overflowChecks {
      return Failure(Panic);
    }
    var out := [];
    for i := 1 to if part == 255 then 1 else part + 1
      invariant |out| == i - 1
      invariant forall k | 0 <= k < i - 1 :: out[k] == Issued(secret, random, part)[k]
    {
      ShareIdNonzero(i - 1);
      var share := GetShare(coefficients, ShareId(i - 1));
      out := out + [share.value];
    }
    assert part < 255 ==> out == Issued(secret, random, part);
    return Success(out);
  }

  ghost function SplitResult(secret: seq<bv8>, part: u8, threshold: u8, random: seq<Poly>, overflowChecks: bool)
    : Result<seq<Share>, RvError>
    requires |random| == |secret|
  {
    if part < threshold || threshold < 2 then Failure(ErrShamirShareCountInvalid)
    else if part == 255 then if overflowChecks then Failure(Panic) else Success([])
    else Success(Issued(secret, random, part))
  }

  lemma Increment(b: bv8)
    requires b != 0xff
    ensures (b + 1) as nat == b as nat + 1
  {}

  lemma {:induction false} ShareIdValue(i: nat)
    requires i < 255
    ensures ShareId(i) as nat == i + 1
  {
    if i > 0 {
      ShareIdValue(i - 1);
      Increment(ShareId(i - 1));
    }
  }

  lemma ShareIdNonzero(i: nat)
    requires i < 255
    ensures ShareId(i) != 0
  {
    ShareIdValue(i);
  }

  // ---- Recovery.

  /** The shares that `recover_secret` accepts. */
  ghost predicate Combinable(shares: seq<Share>) {
    && |shares| >= 2
    && (forall i | 0 <= i < |shares| :: |shares[i]| == |shares[0]| > 0)
    && Distinct(Ids(shares))
  }

  function LastByte(share: Share): bv8 {
    if share == [] then 0 else share[|share| - 1]
  }

  function Ids(shares: seq<Share>): seq<bv8> {
    seq(|shares|, (i: nat) requires i < |shares| => LastByte(shares[i]))
  }

  /** Byte b of every share. */
  function Column(shares: seq<Share>, b: nat): seq<bv8>
    requires forall i | 0 <= i < |shares| :: b < |shares[i]|
  {
    seq(|shares|, (i: nat) requires i < |shares| => shares[i][b])
  }

  /** Byte b of the recovered secret: the interpolated polynomial's constant term. */
  function CombinedByte(shares: seq<Share>, b: nat): bv8
    requires forall i | 0 <= i < |shares| :: b < |shares[i]|
  {
    Coefficient(Interpolant(Ids(shares), Column(shares, b), |shares|), 0)
  }

  ghost function Combined(shares: seq<Share>): seq<bv8>
    requires Combinable(shares)
  {
    seq(|shares[0]| - 1, (b: nat) requires b < |shares[0]| - 1 => CombinedByte(shares, b))
  }

  lemma CombinableMeans(shares: seq<Share>)
    ensures !Combinable(shares) <==>
              || |shares| < 2
              || (exists i :: 0 <= i < |shares| && (|shares[i]| == 0 || |shares[i]| != |shares[0]|))
              || (exists i, j :: 0 <= i < j < |shares| && LastByte(shares[i]) == LastByte(shares[j]))
  {
    var ids := Ids(shares);
    assert forall i | 0 <= i < |shares| :: ids[i] == LastByte(shares[i]);
  }

  /** One byte of the secret, from the same byte of every share. */
  method CombineByte(shares: seq<Share>, xs: seq<bv8>, b: nat) returns (byte: bv8)
    requires Combinable(shares) && b < |shares[0]| - 1 && xs == Ids(shares)
    ensures byte == CombinedByte(shares, b)
  {
    hide Interpolant;
    var fxs := [];
    for i := 0 to |shares|
      invariant fxs == Column(shares, b)[..i]
    {
      fxs := fxs + [shares[i][b]];
    }
    assert fxs == Column(shares, b);
    var polynomial := FullLagrange(xs, fxs);
    InterpolantValue(xs, fxs, |xs|, 0);
    return polynomial.value[0];
  }

  method Combine(shares: seq<Share>) returns (r: Option<seq<bv8>>)
    ensures r == if Combinable(shares) then Some(Combined(shares)) else None
    ensures r.None? <==>
              || |shares| < 2
              || (exists i :: 0 <= i < |shares| && (|shares[i]| == 0 || |shares[i]| != |shares[0]|))
              || (exists i, j :: 0 <= i < j < |shares| && LastByte(shares[i]) == LastByte(shares[j]))
  {
    CombinableMeans(shares);
    hide CombinedByte;
    if |shares| < 2 {
      return None;
    }
    var xs := [];
    for i := 0 to |shares|
      invariant xs == Ids(shares)[..i]
      invariant Distinct(xs)
      invariant forall k | 0 <= k < i :: |shares[k]| == |shares[0]| > 0
    {
      var share := shares[i];
      if share == [] {
        return None;
      }
      var last := share[|share| - 1];
      assert Ids(shares)[i] == last;
      if last in xs {
        return None;
      }
      if |share| != |shares[0]| {
        return None;
      }
      xs := xs + [last];
    }
    assert xs == Ids(shares);
    var secret := [];
    for b := 0 to |shares[0]| - 1
      invariant secret == Combined(shares)[..b]
    {
      var byte := CombineByte(shares, xs, b);
      secret := secret + [byte];
    }
    assert Combined(shares)[..|shares[0]| - 1] == Combined(shares);
    return Some(secret);
  }

  // ---- Threshold recovery.

  lemma {:induction false} EvalZeros(n: nat, x: bv8)
    ensures Eval(Zeros(n), x) == 0
  {
    hide Add, Mul;
    if n > 0 {
      EvalZeros(n - 1, x);
      assert Zeros(n)[1..] == Zeros(n - 1);
      MulZero(x);
      AddLaws(0, 0, 0);
    }
  }

  /** Extra zero coefficients do not change a polynomial's values. */
  lemma EvalPadded(p: Poly, n: nat, x: bv8)
    ensures Eval(p + Zeros(n), x) == Eval(p, x)
  {
    hide Add, Mul, Eval;
    EvalConcat(p, Zeros(n), x);
    EvalZeros(n, x);
    MulZero(Power(x, |p|));
    AddLaws(Eval(p, x), 0, 0);
  }

  /** Enough points of one polynomial determine its constant coefficient. */
  lemma ConstantTermRecovered(c: Poly, xs: seq<bv8>, fxs: seq<bv8>)
    requires 0 < |c| <= |xs| == |fxs| && Distinct(xs)
    requires forall i | 0 <= i < |xs| :: fxs[i] == Eval(c, xs[i])
    ensures Coefficient(Interpolant(xs, fxs, |xs|), 0) == c[0]
  {
    hide Eval, Interpolant;
    var padded := c + Zeros(|xs| - |c|);
    forall i | 0 <= i < |xs| ensures Eval(padded, xs[i]) == fxs[i] {
      EvalPadded(c, |xs| - |c|, xs[i]);
    }
    InterpolationTheorem(xs, fxs, padded);
  }

  /** An issued share is the share of its own last byte. */
  lemma IssuedShape(secret: seq<bv8>, random: seq<Poly>, part: u8, share: Share)
    requires |random| == |secret| && share in Issued(secret, random, part)
    ensures share == ShareOf(Coefficients(secret, random), LastByte(share))
    ensures |share| == |secret| + 1
  {
    hide Eval, ShareId;
    var k :| 0 <= k < part && share == Issued(secret, random, part)[k];
    assert LastByte(share) == ShareId(k);
  }

  /**
    Threshold recovery: any t or more different shares out of those issued, in any
    order, combine to exactly the secret.
    */
  lemma ThresholdRecovery(secret: seq<bv8>, random: seq<Poly>, part: u8, threshold: u8, chosen: seq<Share>)
    requires 2 <= threshold <= part && ValidRandom(random, secret, threshold)
    requires threshold <= |chosen|
    requires forall i | 0 <= i < |chosen| :: chosen[i] in Issued(secret, random, part)
    requires forall i, j | 0 <= i < j < |chosen| :: chosen[i] != chosen[j]
    ensures Combinable(chosen) && Combined(chosen) == secret
  {
    hide Eval, Interpolant, Issued;
    var coefficients := Coefficients(secret, random);
    forall i | 0 <= i < |chosen|
      ensures chosen[i] == ShareOf(coefficients, LastByte(chosen[i])) && |chosen[i]| == |secret| + 1
    {
      IssuedShape(secret, random, part, chosen[i]);
    }
    var ids := Ids(chosen);
    assert Distinct(ids);
    assert Combinable(chosen);
    forall b | 0 <= b < |secret| ensures CombinedByte(chosen, b) == secret[b] {
      ConstantTermRecovered(coefficients[b], ids, Column(chosen, b));
    }
  }

  /** The issued shares are pairwise different, so there are as many as parts asked for. */
  lemma IssuedDistinct(secret: seq<bv8>, random: seq<Poly>, part: u8, i: nat, j: nat)
    requires |random| == |secret| && i < j < part
    ensures Issued(secret, random, part)[i] != Issued(secret, random, part)[j]
  {
    hide Eval, ShareId;
    ShareIdValue(i);
    ShareIdValue(j);
    assert LastByte(Issued(secret, random, part)[i]) == ShareId(i);
    assert LastByte(Issued(secret, random, part)[j]) == ShareId(j);
  }

  // ---- Secrecy below the threshold.

  /** The polynomials through one byte of every seen share with a given value at 0. */
  lemma UniqueExplanation(ids: seq<bv8>, values: seq<bv8>, s: bv8, c: Poly)
    requires |ids| == |values| && Distinct([0] + ids)
    ensures (&& |c| == |ids| + 1
             && c[0] == s
             && forall j | 0 <= j < |ids| :: Eval(c, ids[j]) == values[j])
            <==> c == Interpolant([0] + ids, [s] + values, |ids| + 1)
  {
    hide Interpolant, Eval;
    InterpolationTheorem([0] + ids, [s] + values, c);
    FitsFromZero(ids, values, s, c);
    if c != [] {
      EvalAtZero(c);
    }
  }

  lemma FitsFromZero(ids: seq<bv8>, values: seq<bv8>, s: bv8, c: Poly)
    requires |ids| == |values|
    ensures Fits(c, [0] + ids, [s] + values) <==>
            (&& |c| == |ids| + 1
             && Eval(c, 0) == s
             && forall j | 0 <= j < |ids| :: Eval(c, ids[j]) == values[j])
  {
    hide Eval;
    var xs, fxs := [0] + ids, [s] + values;
    if Fits(c, xs, fxs) {
      assert Eval(c, xs[0]) == fxs[0];
      forall j | 0 <= j < |ids| ensures Eval(c, ids[j]) == values[j] {
        assert xs[j + 1] == ids[j] && fxs[j + 1] == values[j];
      }
    }
  }

  lemma EvalAtZero(c: Poly)
    requires c != []
    ensures Eval(c, 0) == c[0]
  {
    hide Add, Mul;
    MulZero(Eval(c[1..], 0));
    AddLaws(c[0], 0, 0);
  }

  /** The shares that the holders of some ids see. */
  ghost predicate Sees(views: seq<Share>, ids: seq<bv8>, secret: seq<bv8>, random: seq<Poly>)
    requires |views| == |ids| && |random| == |secret|
  {
    forall j | 0 <= j < |ids| :: ShareOf(Coefficients(secret, random), ids[j]) == views[j]
  }

  /** The random bytes that make a candidate secret agree with the shares seen. */
  function Explanation(ids: seq<bv8>, views: seq<Share>, secret: seq<bv8>): seq<Poly>
    requires |views| == |ids| && forall j | 0 <= j < |views| :: |views[j]| == |secret| + 1
  {
    seq(|secret|, (b: nat) requires b < |secret| =>
      var p := Interpolant([0] + ids, [secret[b]] + Column(views, b), |ids| + 1);
      if p == [] then [] else p[1..])
  }

  /** Random bytes r that make byte b of a candidate secret agree with the shares seen. */
  ghost predicate ExplainsByte(ids: seq<bv8>, views: seq<Share>, secret: seq<bv8>, b: nat, r: Poly)
    requires b < |secret| && |views| == |ids|
    requires forall j | 0 <= j < |views| :: |views[j]| == |secret| + 1
  {
    && |r| == |ids|
    && forall j | 0 <= j < |ids| :: Eval([secret[b]] + r, ids[j]) == views[j][b]
  }

  lemma OneExplanationPerByte(ids: seq<bv8>, views: seq<Share>, secret: seq<bv8>, b: nat, r: Poly)
    requires |views| == |ids| && Distinct([0] + ids) && b < |secret|
    requires forall j | 0 <= j < |views| :: |views[j]| == |secret| + 1
    ensures ExplainsByte(ids, views, secret, b, r) <==> r == Explanation(ids, views, secret)[b]
  {
    hide Interpolant, Eval;
    var values := Column(views, b);
    var p := Interpolant([0] + ids, [secret[b]] + values, |ids| + 1);
    UniqueExplanation(ids, values, secret[b], p);
    assert p == [secret[b]] + p[1..];
    UniqueExplanation(ids, values, secret[b], [secret[b]] + r);
    assert ([secret[b]] + r)[1..] == r;
  }

  /** Seeing given shares is a statement about each byte by itself. */
  lemma SeesByBytes(ids: seq<bv8>, views: seq<Share>, secret: seq<bv8>, random: seq<Poly>)
    requires |views| == |ids| && |random| == |secret|
    requires forall j | 0 <= j < |views| :: |views[j]| == |secret| + 1 && LastByte(views[j]) == ids[j]
    ensures ValidRandom(random, secret, |ids| + 1) && Sees(views, ids, secret, random)
            <==> forall b | 0 <= b < |secret| :: ExplainsByte(ids, views, secret, b, random[b])
  {
    hide Eval;
    var coefficients := Coefficients(secret, random);
    if ValidRandom(random, secret, |ids| + 1) && Sees(views, ids, secret, random) {
      forall b, j | 0 <= b < |secret| && 0 <= j < |ids|
        ensures Eval([secret[b]] + random[b], ids[j]) == views[j][b]
      {
        assert ShareOf(coefficients, ids[j])[b] == views[j][b];
      }
    }
    if forall b | 0 <= b < |secret| :: ExplainsByte(ids, views, secret, b, random[b]) {
      forall j | 0 <= j < |ids| ensures ShareOf(coefficients, ids[j]) == views[j] {
        forall b | 0 <= b < |secret| ensures ShareOf(coefficients, ids[j])[b] == views[j][b] {
          assert ExplainsByte(ids, views, secret, b, random[b]);
        }
      }
    }
  }

  /**
    Nothing leaks below the threshold: whatever t - 1 shares with different nonzero ids
    say, every secret of the right length explains them, and does so for exactly one
    choice of the random bytes.
    */
  lemma NothingLeaksBelowThreshold(ids: seq<bv8>, views: seq<Share>, secret: seq<bv8>, random: seq<Poly>)
    requires |views| == |ids| && |random| == |secret| && Distinct([0] + ids)
    requires forall j | 0 <= j < |views| :: |views[j]| == |secret| + 1 && LastByte(views[j]) == ids[j]
    ensures ValidRandom(random, secret, |ids| + 1) && Sees(views, ids, secret, random)
            <==> random == Explanation(ids, views, secret)
  {
    hide ExplainsByte, Sees, ValidRandom;
    SeesByBytes(ids, views, secret, random);
    forall b | 0 <= b < |secret|
      ensures ExplainsByte(ids, views, secret, b, random[b]) <==> random[b] == Explanation(ids, views, secret)[b]
    {
      OneExplanationPerByte(ids, views, secret, b, random[b]);
    }
  }
}
