/** The RAMBO and RAMBO-on-diet generators of massless (and, after a reshaping, massive)
    n-particle phase space at a given centre-of-mass energy e_cm. Both share a configuration
    (the particle count and optional masses), a threshold check e_cm > sum of masses, the
    constant massless weight and the massive reshaping with its weight. RAMBO draws n
    massless momenta and boosts and scales them into the rest frame; RAMBO on diet builds a
    chain of intermediate masses from n - 2 numbers u and peels off one massless momentum at
    a time in a boost loop. The numerical solvers for u and for the massive scale xi are
    parameters. One event is mapped at a time. */
module Rambo {
  import opened Elementary
  import opened Kinematics
  import opened Failures
  import opened Boosts
  import opened Factors

  // ---------------------------------------------------------------------------------------
  // Configuration

  /** The sum of a list of numbers. */
  function Sum(xs: seq<real>): real
    decreases |xs|
  {
    if |xs| == 0 then 0.0 else xs[0] + Sum(xs[1..])
  }

  /** The sum of non-negative masses is non-negative and bounds each of them. */
  lemma {:induction false} SumBounds(xs: seq<real>)
    requires forall i :: 0 <= i < |xs| ==> 0.0 <= xs[i]
    ensures 0.0 <= Sum(xs)
    ensures forall i :: 0 <= i < |xs| ==> xs[i] <= Sum(xs)
    decreases |xs|
  {
    if |xs| > 0 {
      SumBounds(xs[1..]);
      assert forall i :: 1 <= i < |xs| ==> xs[i] == xs[1..][i - 1];
    }
  }

  /** What both constructors keep: the particle count and the optional list of masses. */
  datatype Setup = Setup(n: nat, masses: Option<seq<real>>) {
    /** e_min: the sum of the masses, or zero without masses. */
    function EMin(): real {
      if masses.Some? then Sum(masses.value) else 0.0
    }

    /** The constructor's assertion: a mass list has one mass per particle. */
    predicate Valid() {
      masses.Some? ==> |masses.value| == n
    }
  }

  /** The constructor with the builtin sum: an AssertionError when the mass list has the
      wrong length, and otherwise a setup whose e_min is the sum of the masses. */
  function NewSetup(n: nat, masses: Option<seq<real>>): (r: Result<Setup>)
    ensures r.Err? <==> masses.Some? && |masses.value| != n
    ensures r.Err? ==> r.error == MassCountMismatch
    ensures r.Ok? ==> r.value.Valid() && r.value.n == n && r.value.masses == masses
  {
    if masses.Some? && |masses.value| != n then Err(MassCountMismatch) else Ok(Setup(n, masses))
  }

  /** The constructor as written: `sum` at rambo.py:44 is torch's, imported over the builtin,
      and it rejects the Python list of masses with a TypeError once the length assertion has
      passed. Every mass list therefore fails, and only a setup without masses is built. */
  function NewSetupAsWritten(n: nat, masses: Option<seq<real>>): (r: Result<Setup>)
    ensures r.Err? <==> masses.Some?
    ensures masses.Some? && |masses.value| != n ==> r == Err(MassCountMismatch)
    ensures masses.Some? && |masses.value| == n ==> r == Err(NotATensor)
    ensures masses.None? ==> r == NewSetup(n, masses)
  {
    if masses.Some? && |masses.value| != n then Err(MassCountMismatch)
    else if masses.Some? then Err(NotATensor)
    else Ok(Setup(n, None))
  }

  /** Where the two constructors part: a mass list of the right length, as in
      RAMBO(2, [1.0, 1.0]), builds a setup with e_min the sum of the masses when the builtin
      sum is meant, and raises as written. */
  lemma NewSetupAsWrittenRejectsMasses(n: nat, ms: seq<real>)
    requires |ms| == n
    ensures NewSetup(n, Some(ms)).Ok? && NewSetup(n, Some(ms)).value.EMin() == Sum(ms)
    ensures NewSetupAsWritten(n, Some(ms)) == Err(NotATensor)
  {}

  /** An energy above the threshold of non-negative masses is positive and exceeds each mass. */
  lemma AboveThreshold(setup: Setup, ecm: real)
    requires setup.masses.Some? ==> forall i :: 0 <= i < |setup.masses.value| ==> 0.0 <= setup.masses.value[i]
    requires setup.EMin() < ecm
    ensures 0.0 < ecm
    ensures setup.masses.Some? ==> forall i :: 0 <= i < |setup.masses.value| ==> setup.masses.value[i] < ecm
  {
    if setup.masses.Some? {
      SumBounds(setup.masses.value);
    }
  }

  /** The check at the start of both maps, over a batch: an error when any event's energy is
      at or below e_min. */
  function CheckThreshold(setup: Setup, ecm: seq<real>): (r: Option<Error>)
    ensures r.Some? <==> exists i :: 0 <= i < |ecm| && ecm[i] <= setup.EMin()
    ensures r.Some? ==> r.value == BelowThreshold
  {
    if exists i :: 0 <= i < |ecm| && ecm[i] <= setup.EMin() then Some(BelowThreshold) else None
  }

  // ---------------------------------------------------------------------------------------
  // The massless weight

  /** x to the power k. */
  function Pow(x: real, k: nat): real {
    if k == 0 then 1.0 else x * Pow(x, k - 1)
  }

  function Factorial(k: nat): (f: nat)
    ensures 1 <= f
  {
    if k == 0 then 1 else k * Factorial(k - 1)
  }

  lemma {:induction false} PowPositive(x: real, k: nat)
    requires 0.0 < x
    ensures 0.0 < Pow(x, k)
  {
    if k > 0 {
      PowPositive(x, k - 1);
      MulPos(x, Pow(x, k - 1));
    }
  }

  lemma {:induction false} PowOfProduct(x: real, y: real, k: nat)
    ensures Pow(x * y, k) == Pow(x, k) * Pow(y, k)
  {
    if k > 0 {
      PowOfProduct(x, y, k - 1);
      assert x * y * (Pow(x, k - 1) * Pow(y, k - 1)) == (x * Pow(x, k - 1)) * (y * Pow(y, k - 1));
    }
  }

  lemma {:induction false} PowOfSum(x: real, a: nat, b: nat)
    ensures Pow(x, a + b) == Pow(x, a) * Pow(x, b)
  {
    if a > 0 {
      PowOfSum(x, a - 1, b);
      assert Pow(x, a + b) == x * Pow(x, a - 1 + b);
    }
  }

  /** The massless weight (pi/2)^(n-1) e_cm^(2n-4) / (Gamma(n) Gamma(n-1)) of both maps, with
      Gamma(k) = (k-1)!; Gamma at zero raises, so there is no weight for fewer than two
      particles. */
  function MasslessWeight(el: Elementary, n: nat, ecm: real): (w: Result<real>)
    ensures w.Err? <==> n < 2
    ensures w.Err? ==> w.error == GammaDomain
  {
    if n < 2 then Err(GammaDomain)
    else Ok(Pow(el.pi / 2.0, n - 1) * Pow(ecm, 2 * n - 4) / (Factorial(n - 1) as real * Factorial(n - 2) as real))
  }

  /** The massless weight is positive at a positive energy. */
  lemma MasslessWeightPositive(el: Elementary, n: nat, ecm: real)
    requires Lawful(el) && 2 <= n && 0.0 < ecm
    ensures 0.0 < MasslessWeight(el, n, ecm).value
  {
    var a, b := Pow(el.pi / 2.0, n - 1), Pow(ecm, 2 * n - 4);
    var d := Factorial(n - 1) as real * Factorial(n - 2) as real;
    PowPositive(el.pi / 2.0, n - 1);
    PowPositive(ecm, 2 * n - 4);
    MulPosEq(a, b, a * b);
    MulPosEq(Factorial(n - 1) as real, Factorial(n - 2) as real, d);
    QuotientPositive(a * b, d);
  }

  lemma QuotientPositive(a: real, d: real)
    requires 0.0 < a && 0.0 < d
    ensures 0.0 < a / d
  {
    var q := a / d;
    assert q * d == a;
    MulSign(q, d);
  }

  lemma MulSign(q: real, d: real)
    requires 0.0 < d && 0.0 < q * d
    ensures 0.0 < q
  {
    if q <= 0.0 {
      MulNonPos(q, d);
    }
  }

  /** Two particles have the constant weight pi/2, whatever the energy. */
  lemma MasslessWeightTwo(el: Elementary, ecm: real)
    ensures MasslessWeight(el, 2, ecm) == Ok(el.pi / 2.0)
  {
    assert Pow(el.pi / 2.0, 1) == el.pi / 2.0;
  }

  /** The weight has energy dimension 2n - 4: scaling e_cm by c scales it by c^(2n-4). */
  lemma MasslessWeightScaling(el: Elementary, n: nat, c: real, ecm: real)
    requires 2 <= n
    ensures MasslessWeight(el, n, c * ecm).value == Pow(c, 2 * n - 4) * MasslessWeight(el, n, ecm).value
  {
    var a, d := Pow(el.pi / 2.0, n - 1), Factorial(n - 1) as real * Factorial(n - 2) as real;
    PowOfProduct(c, ecm, 2 * n - 4);
    var pc, pe := Pow(c, 2 * n - 4), Pow(ecm, 2 * n - 4);
    assert a * (pc * pe) / d == pc * (a * pe / d);
  }

  // ---------------------------------------------------------------------------------------
  // Lists of momenta

  /** The sum of a list of momenta. */
  function Total(ps: seq<Vec4>): Vec4
    decreases |ps|
  {
    if |ps| == 0 then Zero else ps[0].Plus(Total(ps[1..]))
  }

  /** Every momentum of a list boosted with the same frame vector. */
  function Boosted(el: Elementary, ps: seq<Vec4>, frame: Vec4, inverse: bool): (bs: seq<Vec4>)
    requires Lawful(el) && Timelike(frame)
    ensures |bs| == |ps|
    ensures forall i :: 0 <= i < |ps| ==> bs[i] == Boost(el, ps[i], frame, inverse)
    decreases |ps|
  {
    if |ps| == 0 then [] else [Boost(el, ps[0], frame, inverse)] + Boosted(el, ps[1..], frame, inverse)
  }

  /** Every momentum of a list multiplied by the same factor. */
  function Scaled(ps: seq<Vec4>, c: real): (cs: seq<Vec4>)
    ensures |cs| == |ps|
    ensures forall i :: 0 <= i < |ps| ==> cs[i] == ps[i].Scale(c)
    decreases |ps|
  {
    if |ps| == 0 then [] else [ps[0].Scale(c)] + Scaled(ps[1..], c)
  }

  /** A boost is linear, so the boosted momenta add up to the boosted sum. */
  lemma {:induction false} TotalBoosted(el: Elementary, ps: seq<Vec4>, frame: Vec4, inverse: bool)
    requires Lawful(el) && Timelike(frame)
    ensures Total(Boosted(el, ps, frame, inverse)) == Boost(el, Total(ps), frame, inverse)
    decreases |ps|
  {
    if |ps| == 0 {
      BoostHomogeneous(el, 0.0, Zero, frame, inverse);
      assert Zero.Scale(0.0) == Zero;
    } else {
      TotalBoosted(el, ps[1..], frame, inverse);
      BoostAdditive(el, ps[0], Total(ps[1..]), frame, inverse);
    }
  }

  /** The scaled momenta add up to the scaled sum. */
  lemma {:induction false} TotalScaled(ps: seq<Vec4>, c: real)
    ensures Total(Scaled(ps, c)) == Total(ps).Scale(c)
    decreases |ps|
  {
    if |ps| > 0 {
      var cs, t := Scaled(ps, c), Total(ps[1..]);
      assert cs[1..] == Scaled(ps[1..], c);
      TotalScaled(ps[1..], c);
      assert Total(ps) == ps[0].Plus(t);
      ScalePlus(ps[0], t, c);
    }
  }

  lemma ScalePlus(a: Vec4, b: Vec4, c: real)
    ensures a.Plus(b).Scale(c) == a.Scale(c).Plus(b.Scale(c))
  {
    Distribute(c, a.e, b.e);
    Distribute(c, a.x, b.x);
    Distribute(c, a.y, b.y);
    Distribute(c, a.z, b.z);
  }

  lemma ScaleCore(c: real, e: real, x: real, y: real, z: real)
    ensures (c * e) * (c * e) - ((c * x) * (c * x) + (c * y) * (c * y) + (c * z) * (c * z))
         == (c * c) * (e * e - (x * x + y * y + z * z))
  {}

  /** Scaling a momentum by c scales its invariant square by c^2. */
  lemma ScaleLSquare(v: Vec4, c: real)
    ensures LSquare(v.Scale(c)) == c * c * LSquare(v)
  {
    ScaleCore(c, v.e, v.x, v.y, v.z);
  }

  // ---------------------------------------------------------------------------------------
  // RAMBO's massless momenta

  /** The randoms of one event as RAMBO's intermediate massless momenta: particle i takes
      r[4i], ..., r[4i+3]. */
  function Intermediate(el: Elementary, n: nat, r: seq<real>): seq<Vec4>
    requires |r| == 4 * n
  {
    seq(n, i requires 0 <= i < n => MapFourvectorRambo(el, r[4 * i], r[4 * i + 1], r[4 * i + 2], r[4 * i + 3]))
  }

  /** Randoms strictly inside the unit interval. */
  predicate UnitRandoms(r: seq<real>) {
    forall j :: 0 <= j < |r| ==> 0.0 < r[j] < 1.0
  }

  /** Randoms strictly inside the unit cube give massless intermediate momenta of positive
      energy. */
  lemma IntermediateMassless(el: Elementary, n: nat, r: seq<real>)
    requires Lawful(el) && |r| == 4 * n && UnitRandoms(r)
    ensures forall i :: 0 <= i < n ==> LSquare(Intermediate(el, n, r)[i]) == 0.0 && 0.0 < Intermediate(el, n, r)[i].e
  {
    forall i | 0 <= i < n
      ensures LSquare(Intermediate(el, n, r)[i]) == 0.0 && 0.0 < Intermediate(el, n, r)[i].e
    {
      MapFourvectorRamboMassless(el, r[4 * i], r[4 * i + 1], r[4 * i + 2], r[4 * i + 3]);
    }
  }

  /** RAMBO's massless momenta: the intermediate momenta q are boosted into the rest frame of
      their sum Q and scaled by x = e_cm / sqrt(Q^2). */
  function RamboMomenta(el: Elementary, qs: seq<Vec4>, ecm: real): seq<Vec4>
    requires Lawful(el) && Timelike(Total(qs))
  {
    SqrtPositive(el, LSquare(Total(qs)));
    Scaled(Boosted(el, qs, Total(qs), true), ecm / el.sqrt(LSquare(Total(qs))))
  }

  /** The momenta are in their centre-of-mass frame with total energy e_cm. */
  lemma RamboMomentaConserve(el: Elementary, qs: seq<Vec4>, ecm: real)
    requires Lawful(el) && Timelike(Total(qs))
    ensures Total(RamboMomenta(el, qs, ecm)) == AtRest(ecm)
  {
    var q := Total(qs);
    var m := el.sqrt(LSquare(q));
    SqrtPositive(el, LSquare(q));
    TotalScaled(Boosted(el, qs, q, true), ecm / m);
    TotalBoosted(el, qs, q, true);
    BoostIntoRestFrame(el, q);
    assert (ecm / m) * m == ecm;
    assert AtRest(m).Scale(ecm / m) == AtRest(ecm);
  }

  /** Massless intermediate momenta of positive energy give massless momenta, of positive
      energy when e_cm is positive. */
  lemma RamboMomentaMassless(el: Elementary, qs: seq<Vec4>, ecm: real)
    requires Lawful(el) && Timelike(Total(qs))
    requires forall i :: 0 <= i < |qs| ==> LSquare(qs[i]) == 0.0 && 0.0 < qs[i].e
    ensures |RamboMomenta(el, qs, ecm)| == |qs|
    ensures forall i :: 0 <= i < |qs| ==> LSquare(RamboMomenta(el, qs, ecm)[i]) == 0.0
    ensures 0.0 < ecm ==> forall i :: 0 <= i < |qs| ==> 0.0 < RamboMomenta(el, qs, ecm)[i].e
  {
    var q := Total(qs);
    var m := el.sqrt(LSquare(q));
    SqrtPositive(el, LSquare(q));
    var c := ecm / m;
    forall i | 0 <= i < |qs|
      ensures LSquare(RamboMomenta(el, qs, ecm)[i]) == 0.0
      ensures 0.0 < ecm ==> 0.0 < RamboMomenta(el, qs, ecm)[i].e
    {
      var b := Boost(el, qs[i], q, true);
      BoostPreservesLSquare(el, qs[i], q, true);
      ScaleLSquare(b, c);
      BoostKeepsPositiveEnergy(el, qs[i], q, true);
      if 0.0 < ecm {
        QuotientPositive(ecm, m);
        MulPos(c, b.e);
      }
    }
  }

  // ---------------------------------------------------------------------------------------
  // The massive reshaping

  /** The energies p_i^0 handed to the xi solver. */
  function Energies(ps: seq<Vec4>): seq<real> {
    seq(|ps|, i requires 0 <= i < |ps| => ps[i].e)
  }

  /** One massless momentum made massive with the common scale xi:
      k^0 = sqrt(m^2 + xi^2 p0^2), k = xi p. */
  function Reshape(el: Elementary, m: real, xi: real, p: Vec4): Vec4 {
    Vec4(el.sqrt(Sq(m) + Sq(xi) * Sq(p.e)), xi * p.x, xi * p.y, xi * p.z)
  }

  /** All momenta of an event made massive, one mass each. */
  function Massive(el: Elementary, xi: real, ms: seq<real>, ps: seq<Vec4>): (ks: seq<Vec4>)
    requires |ms| == |ps|
    ensures |ks| == |ps|
    ensures forall i :: 0 <= i < |ps| ==> ks[i] == Reshape(el, ms[i], xi, ps[i])
    decreases |ps|
  {
    if |ps| == 0 then [] else [Reshape(el, ms[0], xi, ps[0])] + Massive(el, xi, ms[1..], ps[1..])
  }

  lemma ReshapeCore(m: real, xi: real, e: real, x: real, y: real, z: real, k0: real)
    requires k0 * k0 == m * m + (xi * xi) * (e * e) && e * e - (x * x + y * y + z * z) == 0.0
    ensures k0 * k0 - ((xi * x) * (xi * x) + (xi * y) * (xi * y) + (xi * z) * (xi * z)) == m * m
  {
    assert (xi * x) * (xi * x) + (xi * y) * (xi * y) + (xi * z) * (xi * z)
        == (xi * xi) * (x * x + y * y + z * z);
  }

  /** A massless momentum reshaped with the mass m is on the mass shell of m, with
      non-negative energy. */
  lemma ReshapeOnShell(el: Elementary, m: real, xi: real, p: Vec4)
    requires Lawful(el) && LSquare(p) == 0.0
    ensures LSquare(Reshape(el, m, xi, p)) == Sq(m)
    ensures 0.0 <= Reshape(el, m, xi, p).e
  {
    var arg := Sq(m) + Sq(xi) * Sq(p.e);
    MulNonNegEq(Sq(xi), Sq(p.e), Sq(xi) * Sq(p.e)) by {
      SquareNonNeg(xi);
      SquareNonNeg(p.e);
    }
    SquareNonNeg(m);
    ReshapeCore(m, xi, p.e, p.x, p.y, p.z, el.sqrt(arg));
  }

  /** The reshaped energy is the non-negative root r of r^2 = m^2 + xi^2 p0^2. */
  lemma ReshapeEnergy(el: Elementary, m: real, xi: real, p: Vec4, r: real)
    requires Lawful(el) && 0.0 <= r && r * r == Sq(m) + Sq(xi) * Sq(p.e)
    ensures Reshape(el, m, xi, p).e == r
  {
    var k := Reshape(el, m, xi, p).e;
    assert 0.0 <= k && k * k == Sq(m) + Sq(xi) * Sq(p.e);
    SquareInjective(k, r);
  }

  lemma MasslessArgumentCore(xi: real, e: real, v: real)
    requires v == xi * e
    ensures v * v == Sq(0.0) + Sq(xi) * Sq(e)
  {}

  /** With a zero mass and xi >= 0 the reshaping only scales a momentum of non-negative
      energy by xi. */
  lemma ReshapeMassless(el: Elementary, xi: real, p: Vec4)
    requires Lawful(el) && 0.0 <= xi && 0.0 <= p.e
    ensures Reshape(el, 0.0, xi, p) == p.Scale(xi)
  {
    var v := xi * p.e;
    MulNonNegEq(xi, p.e, v);
    MasslessArgumentCore(xi, p.e, v);
    ReshapeEnergy(el, 0.0, xi, p, v);
  }

  /** Momenta with the same spatial parts as others have the same total spatial part. */
  lemma {:induction false} TotalSameSpatial(ks: seq<Vec4>, ls: seq<Vec4>)
    requires |ks| == |ls|
    requires forall i :: 0 <= i < |ls| ==> ks[i].x == ls[i].x && ks[i].y == ls[i].y && ks[i].z == ls[i].z
    ensures Total(ks).x == Total(ls).x && Total(ks).y == Total(ls).y && Total(ks).z == Total(ls).z
    decreases |ls|
  {
    if |ls| > 0 {
      TotalSameSpatial(ks[1..], ls[1..]);
    }
  }

  /** The spatial momenta of the massive event are xi times the massless ones, so they still
      add up to zero in the centre-of-mass frame. */
  lemma MassiveMomentum(el: Elementary, xi: real, ms: seq<real>, ps: seq<Vec4>)
    requires |ms| == |ps|
    ensures Total(Massive(el, xi, ms, ps)).x == xi * Total(ps).x
    ensures Total(Massive(el, xi, ms, ps)).y == xi * Total(ps).y
    ensures Total(Massive(el, xi, ms, ps)).z == xi * Total(ps).z
  {
    TotalSameSpatial(Massive(el, xi, ms, ps), Scaled(ps, xi));
    TotalScaled(ps, xi);
  }

  lemma Distribute(c: real, a: real, b: real)
    ensures c * a + c * b == c * (a + b)
  {}

  // ---------------------------------------------------------------------------------------
  // The massive weight

  /** The product of the energy ratios p_i^0 / k_i^0. */
  function EnergyRatios(ks: seq<Vec4>, ps: seq<Vec4>): real
    requires |ks| == |ps| && forall i :: 0 <= i < |ks| ==> ks[i].e != 0.0
    decreases |ps|
  {
    if |ps| == 0 then 1.0 else ps[0].e / ks[0].e * EnergyRatios(ks[1..], ps[1..])
  }

  /** |p|^2 / p^0, one term of the momentum sum. */
  function MomentumRatio(p: Vec4): real
    requires p.e != 0.0
  {
    SpatialDot(p, p) / p.e
  }

  /** The sum of |p_i|^2 / p_i^0. */
  function MomentumSum(ps: seq<Vec4>): real
    requires forall i :: 0 <= i < |ps| ==> ps[i].e != 0.0
    decreases |ps|
  {
    if |ps| == 0 then 0.0 else MomentumRatio(ps[0]) + MomentumSum(ps[1..])
  }

  /** Every division of the massive weight is by a non-zero number. */
  predicate WeightDefined(ks: seq<Vec4>, ps: seq<Vec4>) {
    && 0 < |ps| && |ks| == |ps|
    && (forall i :: 0 <= i < |ps| ==> ks[i].e != 0.0 && ps[i].e != 0.0)
    && MomentumSum(ks) != 0.0
  }

  /** The massive correction xi^(3n-3) prod(p0 / k0) sum(|p|^2 / p0) / sum(|k|^2 / k0) of the
      massive momenta k made from the massless p with the scale xi. */
  function MassiveWeight(ks: seq<Vec4>, ps: seq<Vec4>, xi: real): real
    requires WeightDefined(ks, ps)
  {
    Pow(xi, 3 * |ps| - 3) * EnergyRatios(ks, ps) * MomentumSum(ps) / MomentumSum(ks)
  }

  lemma RatioOfScaled(a: real, xi: real)
    requires a != 0.0 && xi != 0.0
    ensures xi * a != 0.0 && a / (xi * a) == 1.0 / xi
  {
    assert (1.0 / xi) * (xi * a) == a;
  }

  lemma ScaledEnergies(ps: seq<Vec4>, xi: real)
    requires xi != 0.0 && forall i :: 0 <= i < |ps| ==> ps[i].e != 0.0
    ensures forall i :: 0 <= i < |ps| ==> Scaled(ps, xi)[i].e != 0.0
  {
    forall i | 0 <= i < |ps|
      ensures Scaled(ps, xi)[i].e != 0.0
    {
      RatioOfScaled(ps[i].e, xi);
    }
  }

  lemma {:induction false} EnergyRatiosScaled(ps: seq<Vec4>, xi: real)
    requires xi != 0.0 && forall i :: 0 <= i < |ps| ==> ps[i].e != 0.0
    requires forall i :: 0 <= i < |ps| ==> Scaled(ps, xi)[i].e != 0.0
    ensures EnergyRatios(Scaled(ps, xi), ps) == Pow(1.0 / xi, |ps|)
    decreases |ps|
  {
    if |ps| > 0 {
      var cs := Scaled(ps, xi);
      var b := Pow(1.0 / xi, |ps| - 1);
      assert cs[1..] == Scaled(ps[1..], xi);
      assert EnergyRatios(cs[1..], ps[1..]) == b by {
        EnergyRatiosScaled(ps[1..], xi);
      }
      assert ps[0].e / cs[0].e == 1.0 / xi by {
        RatioOfScaled(ps[0].e, xi);
      }
      assert EnergyRatios(cs, ps) == ps[0].e / cs[0].e * EnergyRatios(cs[1..], ps[1..]);
    }
  }

  lemma SquareRatioCore(c: real, s: real, e: real, cs: real, ce: real)
    requires c != 0.0 && e != 0.0 && cs == c * c * s && ce == c * e
    ensures ce != 0.0 && cs / ce == c * (s / e)
  {
    assert c * (s / e) * ce == c * c * s;
  }

  lemma SpatialDotScaled(v: Vec4, c: real)
    ensures SpatialDot(v.Scale(c), v.Scale(c)) == c * c * SpatialDot(v, v)
  {
    assert (c * v.x) * (c * v.x) + (c * v.y) * (c * v.y) + (c * v.z) * (c * v.z)
        == (c * c) * (v.x * v.x + v.y * v.y + v.z * v.z);
  }

  lemma HeadRatio(v: Vec4, w: Vec4, xi: real)
    requires xi != 0.0 && v.e != 0.0 && w == v.Scale(xi)
    ensures w.e != 0.0 && MomentumRatio(w) == xi * MomentumRatio(v)
  {
    SpatialDotScaled(v, xi);
    SquareRatioCore(xi, SpatialDot(v, v), v.e, SpatialDot(w, w), w.e);
  }

  lemma SumStep(hp: real, hc: real, tp: real, tc: real, xi: real, sp: real, sc: real)
    requires hc == xi * hp && tc == xi * tp && sp == hp + tp && sc == hc + tc
    ensures sc == xi * sp
  {}

  /** Momenta whose every ratio |k|^2 / k.e is xi times that of the matching momentum have
      xi times the sum. */
  lemma {:induction false} MomentumSumLinear(ps: seq<Vec4>, cs: seq<Vec4>, xi: real)
    requires |cs| == |ps|
    requires forall i :: 0 <= i < |ps| ==> ps[i].e != 0.0 && cs[i].e != 0.0
    requires forall i :: 0 <= i < |ps| ==> MomentumRatio(cs[i]) == xi * MomentumRatio(ps[i])
    ensures MomentumSum(cs) == xi * MomentumSum(ps)
    decreases |ps|
  {
    if |ps| > 0 {
      MomentumSumLinear(ps[1..], cs[1..], xi);
      SumStep(MomentumRatio(ps[0]), MomentumRatio(cs[0]),
              MomentumSum(ps[1..]), MomentumSum(cs[1..]), xi, MomentumSum(ps), MomentumSum(cs));
    }
  }

  lemma MomentumSumScaled(ps: seq<Vec4>, xi: real)
    requires xi != 0.0 && forall i :: 0 <= i < |ps| ==> ps[i].e != 0.0
    requires forall i :: 0 <= i < |ps| ==> Scaled(ps, xi)[i].e != 0.0
    ensures MomentumSum(Scaled(ps, xi)) == xi * MomentumSum(ps)
  {
    var cs := Scaled(ps, xi);
    forall i | 0 <= i < |ps|
      ensures MomentumRatio(cs[i]) == xi * MomentumRatio(ps[i])
    {
      HeadRatio(ps[i], cs[i], xi);
    }
    MomentumSumLinear(ps, cs, xi);
  }

  lemma {:induction false} PowOne(k: nat)
    ensures Pow(1.0, k) == 1.0
  {
    if k > 0 {
      PowOne(k - 1);
    }
  }

  lemma PowSplit(xi: real, n: nat)
    requires 2 <= n
    ensures Pow(xi, 3 * n - 3) == Pow(xi, n) * (xi * Pow(xi, 2 * n - 4))
  {
    PowOfSum(xi, n, 2 * n - 3);
    assert 3 * n - 3 == n + (2 * n - 3);
    assert Pow(xi, 2 * n - 3) == xi * Pow(xi, 2 * n - 4);
  }

  lemma InverseStep(xi: real, p: real, q: real)
    requires xi != 0.0 && p * q == 1.0
    ensures (xi * p) * ((1.0 / xi) * q) == 1.0
  {
    assert (xi * p) * ((1.0 / xi) * q) == (xi * (1.0 / xi)) * (p * q);
  }

  lemma {:induction false} PowInverse(xi: real, n: nat)
    requires xi != 0.0
    ensures Pow(xi, n) * Pow(1.0 / xi, n) == 1.0
  {
    if n > 0 {
      PowInverse(xi, n - 1);
      InverseStep(xi, Pow(xi, n - 1), Pow(1.0 / xi, n - 1));
    }
  }

  lemma MulNonZero(a: real, b: real)
    requires a != 0.0 && b != 0.0
    ensures a * b != 0.0
  {}

  lemma WeightCore(p3: real, r: real, sp: real, sk: real, a: real, b: real, q: real, xi: real)
    requires a * b == 1.0 && sp != 0.0 && xi != 0.0 && sk == xi * sp
    requires p3 == a * (xi * q) && r == b
    ensures p3 * r * sp / sk == q
  {
    assert p3 * r * sp == (a * b) * (xi * sp) * q;
  }

  /** The scalar part of the weight of scaled momenta: the powers of xi and 1 / xi and the
      ratio of the momentum sums leave xi^(2n-4). */
  lemma WeightScalar(xi: real, n: nat, p3: real, q: real, r: real, sp: real, sk: real)
    requires 2 <= n && xi != 0.0 && sp != 0.0
    requires r == Pow(1.0 / xi, n) && sk == xi * sp
    requires p3 == Pow(xi, 3 * n - 3) && q == Pow(xi, 2 * n - 4)
    ensures p3 * r * sp / sk == q
  {
    PowSplit(xi, n);
    PowInverse(xi, n);
    WeightCore(p3, r, sp, sk, Pow(xi, n), Pow(1.0 / xi, n), q, xi);
  }

  /** The massive weight in terms of its two factors: energy ratios (1/xi)^n and a momentum
      sum scaled by xi leave xi^(2n-4). */
  lemma WeightFromFactors(ks: seq<Vec4>, ps: seq<Vec4>, xi: real)
    requires 2 <= |ps| && xi != 0.0 && WeightDefined(ks, ps) && MomentumSum(ps) != 0.0
    requires EnergyRatios(ks, ps) == Pow(1.0 / xi, |ps|) && MomentumSum(ks) == xi * MomentumSum(ps)
    ensures MassiveWeight(ks, ps, xi) == Pow(xi, 2 * |ps| - 4)
  {
    WeightScalar(xi, |ps|, Pow(xi, 3 * |ps| - 3), Pow(xi, 2 * |ps| - 4),
                 EnergyRatios(ks, ps), MomentumSum(ps), MomentumSum(ks));
  }

  /** Massless momenta merely scaled by xi (zero masses) have the massive weight
      xi^(2n-4), which is 1 at xi = 1. */
  lemma MassiveWeightOfScaled(ps: seq<Vec4>, xi: real)
    requires 2 <= |ps| && xi != 0.0
    requires forall i :: 0 <= i < |ps| ==> ps[i].e != 0.0
    requires MomentumSum(ps) != 0.0
    ensures WeightDefined(Scaled(ps, xi), ps)
    ensures MassiveWeight(Scaled(ps, xi), ps, xi) == Pow(xi, 2 * |ps| - 4)
    ensures xi == 1.0 ==> MassiveWeight(Scaled(ps, xi), ps, xi) == 1.0
  {
    var n, ks := |ps|, Scaled(ps, xi);
    ScaledEnergies(ps, xi);
    assert EnergyRatios(ks, ps) == Pow(1.0 / xi, n) by {
      EnergyRatiosScaled(ps, xi);
    }
    assert MomentumSum(ks) == xi * MomentumSum(ps) by {
      MomentumSumScaled(ps, xi);
    }
    assert MomentumSum(ks) != 0.0 by {
      MulNonZero(xi, MomentumSum(ps));
    }
    WeightFromFactors(ks, ps, xi);
    if xi == 1.0 {
      PowOne(2 * n - 4);
    }
  }

  // ---------------------------------------------------------------------------------------
  // The massive stage of both maps

  /** The numerical solvers of the root-finding module, as parameters: the numbers u of RAMBO
      on diet from its randoms, and the massive scale xi from the massless energies and the
      masses. */
  datatype Solvers = Solvers(u: seq<real> -> seq<real>, xi: (seq<real>, seq<real>) -> real)

  /** What a map returns for one event: the momenta and the phase-space weight. */
  datatype Momenta = Momenta(p: seq<Vec4>, weight: real)

  /** The equation the xi solver solves: the reshaped energies add up to e_cm. */
  predicate XiSolves(el: Elementary, xi: real, ms: seq<real>, ps: seq<Vec4>, ecm: real)
    requires |ms| == |ps|
  {
    Sum(Energies(Massive(el, xi, ms, ps))) == ecm
  }

  /** The energy of a sum of momenta is the sum of their energies. */
  lemma {:induction false} TotalEnergy(ps: seq<Vec4>)
    ensures Total(ps).e == Sum(Energies(ps))
    decreases |ps|
  {
    if |ps| > 0 {
      TotalEnergy(ps[1..]);
      assert Energies(ps)[1..] == Energies(ps[1..]);
    }
  }

  /** With the scale the solver finds, massless momenta at rest in total become massive
      momenta that are still at rest in total, with total energy e_cm. */
  lemma MassiveConserve(el: Elementary, xi: real, ms: seq<real>, ps: seq<Vec4>, ecm: real)
    requires |ms| == |ps| && Total(ps).x == 0.0 && Total(ps).y == 0.0 && Total(ps).z == 0.0
    requires XiSolves(el, xi, ms, ps, ecm)
    ensures Total(Massive(el, xi, ms, ps)) == AtRest(ecm)
  {
    MassiveMomentum(el, xi, ms, ps);
    TotalEnergy(Massive(el, xi, ms, ps));
  }

  /** Massless momenta are put on their mass shells, with non-negative energies. */
  lemma MassiveOnShell(el: Elementary, xi: real, ms: seq<real>, ps: seq<Vec4>)
    requires Lawful(el) && |ms| == |ps|
    requires forall i :: 0 <= i < |ps| ==> LSquare(ps[i]) == 0.0
    ensures forall i :: 0 <= i < |ps| ==> LSquare(Massive(el, xi, ms, ps)[i]) == Sq(ms[i])
    ensures forall i :: 0 <= i < |ps| ==> 0.0 <= Massive(el, xi, ms, ps)[i].e
  {
    forall i | 0 <= i < |ps|
      ensures LSquare(Massive(el, xi, ms, ps)[i]) == Sq(ms[i]) && 0.0 <= Massive(el, xi, ms, ps)[i].e
    {
      ReshapeOnShell(el, ms[i], xi, ps[i]);
    }
  }

  /** Zero masses with xi = 1 leave momenta of positive energy unchanged, with massive
      weight 1. */
  lemma MassiveZeroMasses(el: Elementary, ms: seq<real>, ps: seq<Vec4>)
    requires Lawful(el) && |ms| == |ps| && 2 <= |ps|
    requires forall i :: 0 <= i < |ps| ==> ms[i] == 0.0 && 0.0 < ps[i].e
    requires MomentumSum(ps) != 0.0
    ensures Massive(el, 1.0, ms, ps) == ps
    ensures WeightDefined(ps, ps) && MassiveWeight(ps, ps, 1.0) == 1.0
  {
    forall i | 0 <= i < |ps|
      ensures Massive(el, 1.0, ms, ps)[i] == ps[i]
    {
      ReshapeMassless(el, 1.0, ps[i]);
    }
    assert Scaled(ps, 1.0) == ps;
    MassiveWeightOfScaled(ps, 1.0);
  }

  /** The massive momenta of the source: k = ones_like(p), then the energy column and the
      spatial columns are written in place. */
  method Reshaped(el: Elementary, xi: real, ms: seq<real>, ps: seq<Vec4>) returns (ks: seq<Vec4>)
    requires |ms| == |ps|
    ensures ks == Massive(el, xi, ms, ps)
  {
    var k := new Vec4[|ps|](_ => Vec4(1.0, 1.0, 1.0, 1.0));
    forall i | 0 <= i < k.Length {
      k[i] := k[i].(e := el.sqrt(Sq(ms[i]) + Sq(xi) * Sq(ps[i].e)));
    }
    forall i | 0 <= i < k.Length {
      k[i] := k[i].(x := xi * ps[i].x, y := xi * ps[i].y, z := xi * ps[i].z);
    }
    ks := k[..];
    assert forall i :: 0 <= i < |ps| ==> ks[i] == Reshape(el, ms[i], xi, ps[i]);
  }

  /** The massive scale, momenta and weight are defined: the solver's xi gives no division
      by zero in the massive weight. */
  predicate Reshapable(sv: Solvers, el: Elementary, ms: seq<real>, ps: seq<Vec4>) {
    |ms| == |ps| && WeightDefined(Massive(el, sv.xi(Energies(ps), ms), ms, ps), ps)
  }

  /** The massive branch of both maps: xi from the solver, the reshaped momenta and the
      weight w_m * w0. */
  function MassiveStage(sv: Solvers, el: Elementary, ms: seq<real>, ps: seq<Vec4>, w0: real): (m: Momenta)
    requires Reshapable(sv, el, ms, ps)
    ensures |m.p| == |ps|
  {
    var xi := sv.xi(Energies(ps), ms);
    var ks := Massive(el, xi, ms, ps);
    Momenta(ks, MassiveWeight(ks, ps, xi) * w0)
  }

  /** The massive branch as the source computes it. */
  method MakeMassive(sv: Solvers, el: Elementary, ms: seq<real>, ps: seq<Vec4>, w0: real) returns (m: Momenta)
    requires Reshapable(sv, el, ms, ps)
    ensures m == MassiveStage(sv, el, ms, ps, w0)
  {
    var xi := sv.xi(Energies(ps), ms);
    var ks := Reshaped(el, xi, ms, ps);
    m := Momenta(ks, MassiveWeight(ks, ps, xi) * w0);
  }

  /** density of both maps as written: the inverse direction is not implemented, and the
      forward direction calls map with the mapping object itself in the place of its
      inputs, which fails when map indexes its inputs. */
  function DensityAsWritten(inverse: bool): (res: Result<real>)
    ensures inverse ==> res == Err(NotImplemented)
    ensures !inverse ==> res == Err(NotSubscriptable)
  {
    if inverse then Err(NotImplemented) else Err(NotSubscriptable)
  }

  // ---------------------------------------------------------------------------------------
  // The RAMBO map

  /** A RAMBO mapping: 4n randoms and e_cm in, n momenta and a weight out. */
  datatype RamboMap = RamboMap(setup: Setup) {

    /** The number of randoms the map reads. */
    function InputSize(): nat {
      4 * setup.n
    }

    /** What one call needs beyond the checks the map makes itself: lawful functions, a
        valid setup, 4n randoms, and above the threshold a timelike sum of the intermediate
        momenta (the map divides by its mass) and a reshaping without division by zero. */
    ghost predicate Ready(el: Elementary, sv: Solvers, r: seq<real>, ecm: real) {
      && Lawful(el) && setup.Valid() && |r| == InputSize()
      && (setup.EMin() < ecm && 2 <= setup.n ==>
            && Timelike(Total(Intermediate(el, setup.n, r)))
            && (setup.masses.Some? ==>
                  Reshapable(sv, el, setup.masses.value, RamboMomenta(el, Intermediate(el, setup.n, r), ecm))))
    }

    /** map: BelowThreshold at or below e_min; for fewer than two particles the gamma
        function of the massless weight fails; otherwise the massless momenta with the
        massless weight, reshaped to the masses when there are masses. */
    function Map(el: Elementary, sv: Solvers, r: seq<real>, ecm: real): (res: Result<Momenta>)
      requires Ready(el, sv, r, ecm)
      ensures res.Err? <==> ecm <= setup.EMin() || setup.n < 2
      ensures ecm <= setup.EMin() ==> res == Err(BelowThreshold)
      ensures setup.EMin() < ecm && setup.n < 2 ==> res == Err(GammaDomain)
      ensures res.Ok? ==> |res.value.p| == setup.n
    {
      if ecm <= setup.EMin() then Err(BelowThreshold)
      else if setup.n < 2 then Err(GammaDomain)
      else
        var ps := RamboMomenta(el, Intermediate(el, setup.n, r), ecm);
        var w0 := MasslessWeight(el, setup.n, ecm).value;
        if setup.masses.None? then Ok(Momenta(ps, w0))
        else
          Ok(MassiveStage(sv, el, setup.masses.value, ps, w0))
    }

    /** The map as the source computes it, with the massive momenta written in place. */
    method MapEvent(el: Elementary, sv: Solvers, r: seq<real>, ecm: real) returns (res: Result<Momenta>)
      requires Ready(el, sv, r, ecm)
      ensures res == Map(el, sv, r, ecm)
    {
      if ecm <= setup.EMin() {
        return Err(BelowThreshold);
      }
      if setup.n < 2 {
        return Err(GammaDomain);
      }
      var ps := RamboMomenta(el, Intermediate(el, setup.n, r), ecm);
      var w0 := MasslessWeight(el, setup.n, ecm).value;
      if setup.masses.None? {
        return Ok(Momenta(ps, w0));
      }
      var m := MakeMassive(sv, el, setup.masses.value, ps, w0);
      res := Ok(m);
    }

    /** map_inverse: RAMBO has no inverse. */
    function MapInverse(ks: seq<Vec4>): (res: Result<seq<real>>)
      ensures res.Err? && res.error == NotImplemented
    {
      Err(NotImplemented)
    }

    /** density as intended: the weight of the forward map. */
    function Density(el: Elementary, sv: Solvers, r: seq<real>, ecm: real, inverse: bool): (res: Result<real>)
      requires Ready(el, sv, r, ecm)
      ensures inverse ==> res == Err(NotImplemented)
      ensures !inverse ==> (res.Ok? <==> setup.EMin() < ecm && 2 <= setup.n)
      ensures !inverse && res.Ok? ==> res.value == Map(el, sv, r, ecm).value.weight
    {
      if inverse then Err(NotImplemented)
      else
        var m := Map(el, sv, r, ecm);
        if m.Err? then Err(m.error) else Ok(m.value.weight)
    }

    /** Without masses: the momenta are massless with positive energies and add up to
        (e_cm, 0, 0, 0), and the weight is the positive massless weight. */
    lemma MapMassless(el: Elementary, sv: Solvers, r: seq<real>, ecm: real)
      requires Ready(el, sv, r, ecm) && setup.masses.None? && UnitRandoms(r)
      requires 0.0 < ecm && 2 <= setup.n
      ensures Map(el, sv, r, ecm).Ok?
      ensures Total(Map(el, sv, r, ecm).value.p) == AtRest(ecm)
      ensures forall i :: 0 <= i < setup.n ==>
                LSquare(Map(el, sv, r, ecm).value.p[i]) == 0.0 && 0.0 < Map(el, sv, r, ecm).value.p[i].e
      ensures Map(el, sv, r, ecm).value.weight == MasslessWeight(el, setup.n, ecm).value
      ensures 0.0 < Map(el, sv, r, ecm).value.weight
    {
      var qs := Intermediate(el, setup.n, r);
      IntermediateMassless(el, setup.n, r);
      RamboMomentaConserve(el, qs, ecm);
      RamboMomentaMassless(el, qs, ecm);
      MasslessWeightPositive(el, setup.n, ecm);
    }

    /** Without masses the weight does not depend on the randoms. */
    lemma MapWeightIndependent(el: Elementary, sv: Solvers, r: seq<real>, r': seq<real>, ecm: real)
      requires Ready(el, sv, r, ecm) && Ready(el, sv, r', ecm) && setup.masses.None?
      requires Map(el, sv, r, ecm).Ok?
      ensures Map(el, sv, r', ecm).Ok?
      ensures Map(el, sv, r, ecm).value.weight == Map(el, sv, r', ecm).value.weight
    {}

    /** With masses and the scale the solver finds: the momenta are on their mass shells and
        add up to (e_cm, 0, 0, 0). */
    lemma MapMassive(el: Elementary, sv: Solvers, r: seq<real>, ecm: real)
      requires Ready(el, sv, r, ecm) && setup.masses.Some? && UnitRandoms(r)
      requires setup.EMin() < ecm && 2 <= setup.n
      requires XiSolves(el, sv.xi(Energies(RamboMomenta(el, Intermediate(el, setup.n, r), ecm)), setup.masses.value),
                        setup.masses.value, RamboMomenta(el, Intermediate(el, setup.n, r), ecm), ecm)
      ensures Map(el, sv, r, ecm).Ok?
      ensures Total(Map(el, sv, r, ecm).value.p) == AtRest(ecm)
      ensures forall i :: 0 <= i < setup.n ==> LSquare(Map(el, sv, r, ecm).value.p[i]) == Sq(setup.masses.value[i])
    {
      var qs := Intermediate(el, setup.n, r);
      var ps := RamboMomenta(el, qs, ecm);
      var ms := setup.masses.value;
      var xi := sv.xi(Energies(ps), ms);
      IntermediateMassless(el, setup.n, r);
      RamboMomentaConserve(el, qs, ecm);
      RamboMomentaMassless(el, qs, ecm);
      MassiveConserve(el, xi, ms, ps, ecm);
      MassiveOnShell(el, xi, ms, ps);
    }
  }
}
