/** The t-channel two-particle mappings: two incoming momenta p1, p2 with total momentum
    ptot go over into two outgoing momenta k1, k2 of masses m1, m2. The azimuth comes from the
    first random, the polar angle around the axis of p1 from |t| sampled by an invariant block
    with the second. The conversions between cos(theta) and t and the invariant blocks are
    given as functions; KernelLaws collects what the proofs assume of them. */
module TChannel {
  import opened Elementary
  import opened Kinematics
  import opened Failures
  import opened Boosts
  import opened Rotations
  import opened TwoParticle

  // ---------------------------------------------------------------------------------------
  // The sampler of |t| and the given functions

  /** The invariant block a t-channel mapping samples |t| with. */
  datatype TSampler =
    | Uniform
    | Massless(nu: real)
    | Stable(mass: real, nu: real)
    | BreitWigner(mass: real, width: real)

  /** The choice of the constructor: flat wins, then a missing mass selects the massless block,
      then a missing width the stable block, and mass and width together the Breit-Wigner
      block. */
  function ChooseTSampler(mt: Option<real>, wt: Option<real>, nu: real, flat: bool): (z: TSampler)
    ensures z.Uniform? <==> flat
    ensures z.Massless? <==> !flat && mt.None?
    ensures z.Stable? <==> !flat && mt.Some? && wt.None?
    ensures z.BreitWigner? <==> !flat && mt.Some? && wt.Some?
    ensures z.Massless? ==> z.nu == nu
    ensures z.Stable? ==> mt.Some? && z.mass == mt.value && z.nu == nu
    ensures z.BreitWigner? ==> mt.Some? && wt.Some? && z.mass == mt.value && z.width == wt.value
  {
    if flat then Uniform
    else if mt.None? then Massless(nu)
    else if wt.None? then Stable(mt.value, nu)
    else BreitWigner(mt.value, wt.value)
  }

  /** A value an invariant block returns together with its weight. */
  datatype Sampled = Sampled(value: real, weight: real)

  /** The functions the t-channel mappings call and this model does not define: t from
      (s, p1^2, p2^2, m1, m2, cos(theta)) and back, and the map and map_inverse of the invariant
      block of a sampler, on a random (or |t|) and the range [lo, hi] of |t|. */
  datatype TKernel = TKernel(
    costhetaToInvt: (real, real, real, real, real, real) -> real,
    invtToCostheta: (real, real, real, real, real, real) -> real,
    sample: (TSampler, real, real, real) -> Sampled,
    unsample: (TSampler, real, real, real) -> Sampled)

  /** The conversion from cos(theta) to t undoes the one from t to cos(theta), map_inverse of an
      invariant block reads back the random its map started from, and the two weights are
      reciprocal. */
  ghost predicate KernelLaws(tk: TKernel) {
    && (forall s, a, b, m1, m2, t ::
          tk.costhetaToInvt(s, a, b, m1, m2, tk.invtToCostheta(s, a, b, m1, m2, t)) == t)
    && (forall z, r, lo, hi :: tk.unsample(z, tk.sample(z, r, lo, hi).value, lo, hi).value == r)
    && (forall z, r, lo, hi ::
          tk.sample(z, r, lo, hi).weight * tk.unsample(z, tk.sample(z, r, lo, hi).value, lo, hi).weight == 1.0)
  }

  /** The range [-tmax, -tmin] of |t|, with t at cos(theta) = 1 and at cos(theta) = -1. */
  datatype Bounds = Bounds(lo: real, hi: real)

  function TBounds(tk: TKernel, s: real, a: real, b: real, m1: real, m2: real): Bounds {
    Bounds(-tk.costhetaToInvt(s, a, b, m1, m2, 1.0), -tk.costhetaToInvt(s, a, b, m1, m2, -1.0))
  }

  /** |t| and the weight gs_inv the invariant block draws from r2. */
  function SampleT(tk: TKernel, z: TSampler, r2: real, s: real, a: real, b: real, m1: real, m2: real): Sampled {
    var bd := TBounds(tk, s, a, b, m1, m2);
    tk.sample(z, r2, bd.lo, bd.hi)
  }

  /** cos(theta) at t = -|t|. */
  function CosineOfT(tk: TKernel, s: real, a: real, b: real, m1: real, m2: real, tAbs: real): real {
    tk.invtToCostheta(s, a, b, m1, m2, -tAbs)
  }

  /** The random and the density gs_inv the invariant block reads back from cos(theta). */
  function UnsampleT(tk: TKernel, z: TSampler, s: real, a: real, b: real, m1: real, m2: real, c: real): Sampled {
    var bd := TBounds(tk, s, a, b, m1, m2);
    tk.unsample(z, -tk.costhetaToInvt(s, a, b, m1, m2, c), bd.lo, bd.hi)
  }

  /** Sampling |t|, turning it into cos(theta) and reading the random back from that cosine
      returns the random, with reciprocal weights. */
  lemma SampleRoundTrip(tk: TKernel, z: TSampler, r2: real, s: real, a: real, b: real, m1: real, m2: real)
    requires KernelLaws(tk)
    ensures UnsampleT(tk, z, s, a, b, m1, m2, CosineOfT(tk, s, a, b, m1, m2, SampleT(tk, z, r2, s, a, b, m1, m2).value)).value == r2
    ensures SampleT(tk, z, r2, s, a, b, m1, m2).weight
          * UnsampleT(tk, z, s, a, b, m1, m2, CosineOfT(tk, s, a, b, m1, m2, SampleT(tk, z, r2, s, a, b, m1, m2).value)).weight == 1.0
  {
    var t := SampleT(tk, z, r2, s, a, b, m1, m2).value;
    assert tk.costhetaToInvt(s, a, b, m1, m2, tk.invtToCostheta(s, a, b, m1, m2, -t)) == -t;
  }

  /** gp, the t-channel two-particle density at s for incoming virtualities a and b over 2 pi. */
  function TDensity(el: Elementary, s: real, a: real, b: real): (g: real)
    requires Lawful(el)
    ensures 0.0 < Kaellen(s, a, b) ==> 0.0 < g
  {
    TDensityPositive(el, s, a, b);
    TinvTwoParticleDensity(el, s, a, b) / (2.0 * el.pi)
  }

  lemma TDensityPositive(el: Elementary, s: real, a: real, b: real)
    requires Lawful(el)
    ensures 0.0 < Kaellen(s, a, b) ==> 0.0 < TinvTwoParticleDensity(el, s, a, b) / (2.0 * el.pi)
  {
    var t := TinvTwoParticleDensity(el, s, a, b);
    if 0.0 < Kaellen(s, a, b) {
      assert t != 0.0;
      QuotientPos(t, 2.0 * el.pi);
    }
  }

  // ---------------------------------------------------------------------------------------
  // Events

  /** One event of a t-channel batch: the randoms, the incoming momenta, the outgoing masses. */
  datatype TInput = TInput(r1: real, r2: real, p1: Vec4, p2: Vec4, m1: real, m2: real)

  /** What map returns for one event: the outgoing momenta, the incoming virtualities, the
      angles of the axis of p1 and the weight. */
  datatype TDecay = TDecay(k1: Vec4, k2: Vec4, q1sq: real, q2sq: real, phi1: real, costheta1: real, weight: real)

  /** What map_inverse returns for one event: the randoms, the rebuilt incoming momenta, the
      outgoing masses and the density. */
  datatype TRandoms = TRandoms(r1: real, r2: real, p1: Vec4, p2: Vec4, m1: real, m2: real, density: real)

  /** The decay at rest turned to (cos(theta), phi) about the axis of p1, then onto that axis
      with its angles (costheta1, phi1). */
  function TurnedTwice(el: Elementary, s: real, m1: real, m2: real, r1: real, c: real, phi1: real, ct1: real): Vec4
    requires Lawful(el) && 0.0 < s
  {
    RotateZY(el, RotateZY(el, RestDecay(el, s, Sq(m1), Sq(m2)), UnitToAzimuth(el, r1), c), phi1, ct1)
  }

  /** The inverse step both mappings share: from k1 turned back to the axis (q), and the vector
      kref whose length divides q.z, the randoms, the masses and the density gs_inv * gp. */
  function InverseEvent(el: Elementary, tk: TKernel, z: TSampler, d: TDecay, p1: Vec4, q: Vec4, kref: Vec4): TRandoms
    requires Lawful(el) && 0.0 < SpatialDot(kref, kref)
  {
    var ptot := d.k1.Plus(d.k2);
    var s := LSquare(ptot);
    var m1, m2 := el.sqrt(LSquare(d.k1)), el.sqrt(LSquare(d.k2));
    var u := UnsampleT(tk, z, s, d.q1sq, d.q2sq, m1, m2, ReadCosine(el, q, kref));
    TRandoms(AzimuthRandom(el, q), u.value, p1, ptot.Minus(p1), m1, m2, u.weight * TDensity(el, s, d.q1sq, d.q2sq))
  }

  /** What InverseEvent returns, in terms of the quantities it reads off its arguments. */
  lemma InverseEventReads(el: Elementary, tk: TKernel, z: TSampler, d: TDecay, p1: Vec4, q: Vec4, kref: Vec4,
                          s: real, m1: real, m2: real, c: real)
    requires Lawful(el) && 0.0 < SpatialDot(kref, kref)
    requires LSquare(d.k1.Plus(d.k2)) == s && el.sqrt(LSquare(d.k1)) == m1 && el.sqrt(LSquare(d.k2)) == m2
    requires ReadCosine(el, q, kref) == c
    ensures InverseEvent(el, tk, z, d, p1, q, kref).r1 == AzimuthRandom(el, q)
    ensures InverseEvent(el, tk, z, d, p1, q, kref).r2 == UnsampleT(tk, z, s, d.q1sq, d.q2sq, m1, m2, c).value
    ensures InverseEvent(el, tk, z, d, p1, q, kref).m1 == m1 && InverseEvent(el, tk, z, d, p1, q, kref).m2 == m2
    ensures InverseEvent(el, tk, z, d, p1, q, kref).density
         == UnsampleT(tk, z, s, d.q1sq, d.q2sq, m1, m2, c).weight * TDensity(el, s, d.q1sq, d.q2sq)
    ensures InverseEvent(el, tk, z, d, p1, q, kref).p1 == p1
    ensures InverseEvent(el, tk, z, d, p1, q, kref).p2 == d.k1.Plus(d.k2).Minus(p1)
  {}

  /** A total momentum at rest. */
  predicate RestFrame(p: Vec4) {
    p.x == 0.0 && p.y == 0.0 && p.z == 0.0 && 0.0 < p.e
  }

  lemma RestFrameIsAtRest(el: Elementary, p: Vec4)
    requires Lawful(el) && RestFrame(p)
    ensures 0.0 < LSquare(p) && p == AtRest(el.sqrt(LSquare(p)))
  {
    MulPosEq(p.e, p.e, LSquare(p));
    SqrtUnique(el, LSquare(p), p.e);
  }

  /** With p1 + p2 at rest, the decay at rest into the invariants of p1 and p2, turned to the
      azimuth and the polar cosine of p1, is p1. */
  lemma RebuiltAtRest(el: Elementary, p1: Vec4, p2: Vec4)
    requires Lawful(el) && PolarLaws(el) && RestFrame(p1.Plus(p2)) && 0.0 < SpatialDot(p1, p1)
    ensures 0.0 < LSquare(p1.Plus(p2))
    ensures RotateZY(el, RestDecay(el, LSquare(p1.Plus(p2)), LSquare(p1), LSquare(p2)), el.atan2(p1.y, p1.x), PolarCosine(el, p1)) == p1
  {
    RestFrameIsAtRest(el, p1.Plus(p2));
    assert p2 == AtRest(el.sqrt(LSquare(p1.Plus(p2)))).Minus(p1);
    RestDecayOfPart(el, LSquare(p1.Plus(p2)), p1);
    AxisRebuilt(el, p1);
  }

  /** In any frame, the decay at rest into the invariants of p1 and p2, turned to the azimuth
      and the polar cosine of p1 in the rest frame of p1 + p2 and boosted back along p1 + p2,
      is p1. */
  lemma RebuiltInFrame(el: Elementary, p1: Vec4, p2: Vec4)
    requires Lawful(el) && PolarLaws(el) && Timelike(p1.Plus(p2))
    requires 0.0 < SpatialDot(Boost(el, p1, p1.Plus(p2), true), Boost(el, p1, p1.Plus(p2), true))
    ensures Boost(el, RotateZY(el, RestDecay(el, LSquare(p1.Plus(p2)), LSquare(p1), LSquare(p2)),
                              el.atan2(Boost(el, p1, p1.Plus(p2), true).y, Boost(el, p1, p1.Plus(p2), true).x),
                              PolarCosine(el, Boost(el, p1, p1.Plus(p2), true))),
                  p1.Plus(p2), false) == p1
  {
    var ptot := p1.Plus(p2);
    var axis := Boost(el, p1, ptot, true);
    SqrtPositive(el, LSquare(ptot));
    assert LSquare(p1) == LSquare(axis) by {
      BoostPreservesLSquare(el, p1, ptot, true);
    }
    assert LSquare(p2) == LSquare(AtRest(el.sqrt(LSquare(ptot))).Minus(axis)) by {
      BoostAdditive(el, p1, p2, ptot, true);
      BoostIntoRestFrame(el, ptot);
      assert Boost(el, p2, ptot, true) == AtRest(el.sqrt(LSquare(ptot))).Minus(axis);
      BoostPreservesLSquare(el, p2, ptot, true);
    }
    RestDecayOfPart(el, LSquare(ptot), axis);
    AxisRebuilt(el, axis);
    BoostRoundTrip(el, p1, ptot, true);
  }

  lemma SqrtOfSq(el: Elementary, m: real)
    requires Lawful(el) && 0.0 <= m
    ensures el.sqrt(Sq(m)) == m
  {
    SqrtOfSquare(el, m);
  }

  lemma PlusMinus(a: Vec4, b: Vec4)
    ensures b.Plus(a.Minus(b)) == a
  {}

  lemma TurnedLength(el: Elementary, rest: Vec4, k: Vec4, phi: real, c: real, phi1: real, ct1: real)
    requires Lawful(el) && -1.0 <= c <= 1.0 && -1.0 <= ct1 <= 1.0
    requires k == RotateZY(el, RotateZY(el, rest, phi, c), phi1, ct1)
    ensures SpatialDot(k, k) == SpatialDot(rest, rest) && LSquare(k) == LSquare(rest) && k.e == rest.e
  {
    RotateZYPreservesNorm(el, rest, phi, c);
    RotateZYPreservesNorm(el, RotateZY(el, rest, phi, c), phi1, ct1);
  }

  /** The cos(theta) the sampled |t| of an event turns into. */
  function SampledCosine(tk: TKernel, z: TSampler, x: TInput): real {
    var ptot := x.p1.Plus(x.p2);
    var s, a, b := LSquare(ptot), LSquare(x.p1), LSquare(x.p2);
    CosineOfT(tk, s, a, b, x.m1, x.m2, SampleT(tk, z, x.r2, s, a, b, x.m1, x.m2).value)
  }

  /** The weights of sampling the sampled |t| and of reading it back are reciprocal. */
  lemma SampledWeights(tk: TKernel, z: TSampler, x: TInput)
    requires KernelLaws(tk)
    ensures SampleT(tk, z, x.r2, LSquare(x.p1.Plus(x.p2)), LSquare(x.p1), LSquare(x.p2), x.m1, x.m2).weight
          * UnsampleT(tk, z, LSquare(x.p1.Plus(x.p2)), LSquare(x.p1), LSquare(x.p2), x.m1, x.m2, SampledCosine(tk, z, x)).weight == 1.0
  {
    SampleRoundTrip(tk, z, x.r2, LSquare(x.p1.Plus(x.p2)), LSquare(x.p1), LSquare(x.p2), x.m1, x.m2);
  }

  /** The doubly turned decay product is on its mass shell, and so is the rest of the decaying
      system at rest. */
  lemma TurnedOnShell(el: Elementary, s: real, m1: real, m2: real, r1: real, c: real, phi1: real, ct1: real)
    requires Lawful(el) && 0.0 < s && 0.0 <= Kaellen(s, Sq(m1), Sq(m2))
    requires -1.0 <= c <= 1.0 && -1.0 <= ct1 <= 1.0
    ensures LSquare(TurnedTwice(el, s, m1, m2, r1, c, phi1, ct1)) == Sq(m1)
    ensures LSquare(AtRest(el.sqrt(s)).Minus(TurnedTwice(el, s, m1, m2, r1, c, phi1, ct1))) == Sq(m2)
  {
    var aa, bb := Sq(m1), Sq(m2);
    var k := TurnedTwice(el, s, m1, m2, r1, c, phi1, ct1);
    var rest := RestDecay(el, s, aa, bb);
    TurnedLength(el, rest, k, UnitToAzimuth(el, r1), c, phi1, ct1);
    RestDecayOnShell(el, s, aa, bb);
    KaellenLaws(s, aa, bb);
    RestDecayOnShell(el, s, bb, aa);
    RestDecayMirror(el, s, aa, bb);
    var back := RestDecay(el, s, bb, aa);
    assert AtRest(el.sqrt(s)).Minus(k) == Opposite(back.e, k);
    OppositeOnShell(k, back);
  }

  /** The doubly turned decay product, turned back about the axis, is read back: its
      azimuth gives the random r1, its polar cosine c, and its length is that of the decay at
      rest. */
  lemma TurnedRead(el: Elementary, s: real, m1: real, m2: real, r1: real, c: real, phi1: real, ct1: real)
    requires Lawful(el) && PolarLaws(el) && 0.0 < s && 0.0 < Kaellen(s, Sq(m1), Sq(m2))
    requires 0.0 <= r1 < 1.0 && -1.0 < c < 1.0 && -1.0 <= ct1 <= 1.0
    ensures 0.0 < SpatialDot(TurnedTwice(el, s, m1, m2, r1, c, phi1, ct1), TurnedTwice(el, s, m1, m2, r1, c, phi1, ct1))
    ensures InvRotateZY(el, TurnedTwice(el, s, m1, m2, r1, c, phi1, ct1), phi1, ct1)
         == RotateZY(el, RestDecay(el, s, Sq(m1), Sq(m2)), UnitToAzimuth(el, r1), c)
    ensures AzimuthRandom(el, RotateZY(el, RestDecay(el, s, Sq(m1), Sq(m2)), UnitToAzimuth(el, r1), c)) == r1
    ensures ReadCosine(el, RotateZY(el, RestDecay(el, s, Sq(m1), Sq(m2)), UnitToAzimuth(el, r1), c),
                       TurnedTwice(el, s, m1, m2, r1, c, phi1, ct1)) == c
    ensures 0.0 < SpatialDot(RotateZY(el, RestDecay(el, s, Sq(m1), Sq(m2)), UnitToAzimuth(el, r1), c),
                             RotateZY(el, RestDecay(el, s, Sq(m1), Sq(m2)), UnitToAzimuth(el, r1), c))
    ensures ReadCosine(el, RotateZY(el, RestDecay(el, s, Sq(m1), Sq(m2)), UnitToAzimuth(el, r1), c),
                       RotateZY(el, RestDecay(el, s, Sq(m1), Sq(m2)), UnitToAzimuth(el, r1), c)) == c
  {
    var rest := RestDecay(el, s, Sq(m1), Sq(m2));
    var q := RotateZY(el, rest, UnitToAzimuth(el, r1), c);
    var k := TurnedTwice(el, s, m1, m2, r1, c, phi1, ct1);
    RotationsInverse(el, q, phi1, ct1);
    DirectionRead(el, s, Sq(m1), Sq(m2), r1, c, q);
    TurnedLength(el, rest, k, UnitToAzimuth(el, r1), c, phi1, ct1);
    assert ReadCosine(el, q, k) == ReadCosine(el, q, q);
  }

  // ---------------------------------------------------------------------------------------
  // The mapping in the rest frame of ptot

  /** The t-channel decay with p1, p2 given in the rest frame of their sum. */
  datatype TInvariantCom = TInvariantCom(sampler: TSampler) {

    /** map for one event: k1 the decay at rest turned twice, k2 = ptot - k1, the weight
        gs_inv / gp. */
    function MapEvent(el: Elementary, tk: TKernel, x: TInput): TDecay
      requires Lawful(el) && 0.0 < LSquare(x.p1.Plus(x.p2)) && 0.0 < SpatialDot(x.p1, x.p1)
      requires 0.0 < Kaellen(LSquare(x.p1.Plus(x.p2)), LSquare(x.p1), LSquare(x.p2))
    {
      var ptot := x.p1.Plus(x.p2);
      var s, a, b := LSquare(ptot), LSquare(x.p1), LSquare(x.p2);
      var t := SampleT(tk, sampler, x.r2, s, a, b, x.m1, x.m2);
      var phi1, ct1 := el.atan2(x.p1.y, x.p1.x), PolarCosine(el, x.p1);
      var k1 := TurnedTwice(el, s, x.m1, x.m2, x.r1, CosineOfT(tk, s, a, b, x.m1, x.m2, t.value), phi1, ct1);
      TDecay(k1, ptot.Minus(k1), a, b, phi1, ct1, t.weight / TDensity(el, s, a, b))
    }

    /** map for one event as the source computes it: k1 starts as a zero vector, its energy
        and z component are written in place, then it is turned twice and k2 = ptot - k1. */
    method MapEventInPlace(el: Elementary, tk: TKernel, x: TInput) returns (d: TDecay)
      requires Lawful(el) && 0.0 < LSquare(x.p1.Plus(x.p2)) && 0.0 < SpatialDot(x.p1, x.p1)
      requires 0.0 < Kaellen(LSquare(x.p1.Plus(x.p2)), LSquare(x.p1), LSquare(x.p2))
      ensures d == MapEvent(el, tk, x)
    {
      var ptot := x.p1.Plus(x.p2);
      var s, a, b := LSquare(ptot), LSquare(x.p1), LSquare(x.p2);
      var t := SampleT(tk, sampler, x.r2, s, a, b, x.m1, x.m2);
      var k1 := Zero;
      k1 := k1.(e := DecayEnergy(el, s, Sq(x.m1), Sq(x.m2)));
      k1 := k1.(z := DecayMomentum(el, s, Sq(x.m1), Sq(x.m2)));
      var phi1, ct1 := el.atan2(x.p1.y, x.p1.x), PolarCosine(el, x.p1);
      k1 := RotateZY(el, k1, UnitToAzimuth(el, x.r1), CosineOfT(tk, s, a, b, x.m1, x.m2, t.value));
      k1 := RotateZY(el, k1, phi1, ct1);
      d := TDecay(k1, ptot.Minus(k1), a, b, phi1, ct1, t.weight / TDensity(el, s, a, b));
    }

    /** The corrected map_inverse for one event, with the outputs read as inputs[0],
        inputs[1] and inputs[2] (MapInverseAsWritten is the unpacking as written): p1 rebuilt
        from s, its virtuality and its angles, k1 turned back to the axis, the randoms read
        off it. */
    function MapInverseEvent(el: Elementary, tk: TKernel, d: TDecay): TRandoms
      requires Lawful(el) && 0.0 < LSquare(d.k1.Plus(d.k2)) && 0.0 < SpatialDot(d.k1, d.k1)
    {
      var s := LSquare(d.k1.Plus(d.k2));
      InverseEvent(el, tk, sampler, d, RotateZY(el, RestDecay(el, s, d.q1sq, d.q2sq), d.phi1, d.costheta1),
                   InvRotateZY(el, d.k1, d.phi1, d.costheta1), d.k1)
    }

    /** The corrected map_inverse for one event, computed as the source does after its
        unpacking: p1 starts as a zero vector, its energy and z component are written in place
        and it is turned onto the axis. */
    method MapInverseEventInPlace(el: Elementary, tk: TKernel, d: TDecay) returns (res: TRandoms)
      requires Lawful(el) && 0.0 < LSquare(d.k1.Plus(d.k2)) && 0.0 < SpatialDot(d.k1, d.k1)
      ensures res == MapInverseEvent(el, tk, d)
    {
      var s := LSquare(d.k1.Plus(d.k2));
      var p1 := Zero;
      p1 := p1.(e := DecayEnergy(el, s, d.q1sq, d.q2sq));
      p1 := p1.(z := DecayMomentum(el, s, d.q1sq, d.q2sq));
      p1 := RotateZY(el, p1, d.phi1, d.costheta1);
      res := InverseEvent(el, tk, sampler, d, p1, InvRotateZY(el, d.k1, d.phi1, d.costheta1), d.k1);
    }

    /** The outgoing momenta add up to ptot; for a cosine in [-1, 1] k1 is on its mass shell,
        and so is k2 when ptot is at rest. */
    lemma MapOnShell(el: Elementary, tk: TKernel, x: TInput)
      requires Lawful(el) && 0.0 < LSquare(x.p1.Plus(x.p2)) && 0.0 < SpatialDot(x.p1, x.p1)
      requires 0.0 < Kaellen(LSquare(x.p1.Plus(x.p2)), LSquare(x.p1), LSquare(x.p2))
      requires 0.0 <= Kaellen(LSquare(x.p1.Plus(x.p2)), Sq(x.m1), Sq(x.m2))
      requires -1.0 <= SampledCosine(tk, sampler, x) <= 1.0
      ensures MapEvent(el, tk, x).k1.Plus(MapEvent(el, tk, x).k2) == x.p1.Plus(x.p2)
      ensures LSquare(MapEvent(el, tk, x).k1) == Sq(x.m1)
      ensures RestFrame(x.p1.Plus(x.p2)) ==> LSquare(MapEvent(el, tk, x).k2) == Sq(x.m2)
    {
      var ptot := x.p1.Plus(x.p2);
      var d := MapEvent(el, tk, x);
      var s := LSquare(ptot);
      PlusMinus(ptot, d.k1);
      TurnedOnShell(el, s, x.m1, x.m2, x.r1, SampledCosine(tk, sampler, x), d.phi1, d.costheta1);
      if RestFrame(ptot) {
        RestFrameIsAtRest(el, ptot);
      }
    }

    /** The weight of map is gs_inv / gp with a positive gp. */
    lemma MapWeight(el: Elementary, tk: TKernel, x: TInput)
      requires Lawful(el) && 0.0 < LSquare(x.p1.Plus(x.p2)) && 0.0 < SpatialDot(x.p1, x.p1)
      requires 0.0 < Kaellen(LSquare(x.p1.Plus(x.p2)), LSquare(x.p1), LSquare(x.p2))
      ensures 0.0 < TDensity(el, LSquare(x.p1.Plus(x.p2)), LSquare(x.p1), LSquare(x.p2))
      ensures MapEvent(el, tk, x).weight * TDensity(el, LSquare(x.p1.Plus(x.p2)), LSquare(x.p1), LSquare(x.p2))
           == SampleT(tk, sampler, x.r2, LSquare(x.p1.Plus(x.p2)), LSquare(x.p1), LSquare(x.p2), x.m1, x.m2).weight
    {}

    /** k1 of map, turned back from the axis, is the decay at rest turned to the sampled
        angles: its azimuth gives r1, its polar cosine the sampled cosine. */
    lemma TurnedBackRead(el: Elementary, tk: TKernel, x: TInput)
      requires Lawful(el) && PolarLaws(el)
      requires 0.0 < LSquare(x.p1.Plus(x.p2)) && 0.0 < SpatialDot(x.p1, x.p1) && RestFrame(x.p1.Plus(x.p2))
      requires 0.0 < Kaellen(LSquare(x.p1.Plus(x.p2)), LSquare(x.p1), LSquare(x.p2))
      requires 0.0 < Kaellen(LSquare(x.p1.Plus(x.p2)), Sq(x.m1), Sq(x.m2))
      requires 0.0 <= x.r1 < 1.0 && -1.0 < SampledCosine(tk, sampler, x) < 1.0 && 0.0 <= x.m1 && 0.0 <= x.m2
      ensures LSquare(MapEvent(el, tk, x).k1.Plus(MapEvent(el, tk, x).k2)) == LSquare(x.p1.Plus(x.p2))
      ensures el.sqrt(LSquare(MapEvent(el, tk, x).k1)) == x.m1 && el.sqrt(LSquare(MapEvent(el, tk, x).k2)) == x.m2
      ensures 0.0 < SpatialDot(MapEvent(el, tk, x).k1, MapEvent(el, tk, x).k1)
      ensures AzimuthRandom(el, InvRotateZY(el, MapEvent(el, tk, x).k1, MapEvent(el, tk, x).phi1, MapEvent(el, tk, x).costheta1)) == x.r1
      ensures ReadCosine(el, InvRotateZY(el, MapEvent(el, tk, x).k1, MapEvent(el, tk, x).phi1, MapEvent(el, tk, x).costheta1),
                         MapEvent(el, tk, x).k1) == SampledCosine(tk, sampler, x)
    {
      var s := LSquare(x.p1.Plus(x.p2));
      var d := MapEvent(el, tk, x);
      assert LSquare(d.k1.Plus(d.k2)) == s && el.sqrt(LSquare(d.k1)) == x.m1 && el.sqrt(LSquare(d.k2)) == x.m2 by {
        MapOnShell(el, tk, x);
        SqrtOfSq(el, x.m1);
        SqrtOfSq(el, x.m2);
      }
      TurnedRead(el, s, x.m1, x.m2, x.r1, SampledCosine(tk, sampler, x), d.phi1, d.costheta1);
    }

    /** With ptot at rest, a cosine strictly inside (-1, 1) and non-negative masses,
        map_inverse reads back the randoms, the incoming momenta and the masses of map, and its
        density is gs_inv of the read-back random times gp. */
    lemma MapInverseRoundTrip(el: Elementary, tk: TKernel, x: TInput)
      requires Lawful(el) && PolarLaws(el) && KernelLaws(tk)
      requires 0.0 < LSquare(x.p1.Plus(x.p2)) && 0.0 < SpatialDot(x.p1, x.p1) && RestFrame(x.p1.Plus(x.p2))
      requires 0.0 < Kaellen(LSquare(x.p1.Plus(x.p2)), LSquare(x.p1), LSquare(x.p2))
      requires 0.0 < Kaellen(LSquare(x.p1.Plus(x.p2)), Sq(x.m1), Sq(x.m2))
      requires 0.0 <= x.r1 < 1.0 && -1.0 < SampledCosine(tk, sampler, x) < 1.0 && 0.0 <= x.m1 && 0.0 <= x.m2
      ensures 0.0 < LSquare(MapEvent(el, tk, x).k1.Plus(MapEvent(el, tk, x).k2))
      ensures 0.0 < SpatialDot(MapEvent(el, tk, x).k1, MapEvent(el, tk, x).k1)
      ensures MapInverseEvent(el, tk, MapEvent(el, tk, x)).r1 == x.r1
      ensures MapInverseEvent(el, tk, MapEvent(el, tk, x)).r2 == x.r2
      ensures MapInverseEvent(el, tk, MapEvent(el, tk, x)).m1 == x.m1
      ensures MapInverseEvent(el, tk, MapEvent(el, tk, x)).m2 == x.m2
      ensures MapInverseEvent(el, tk, MapEvent(el, tk, x)).p1 == x.p1
      ensures MapInverseEvent(el, tk, MapEvent(el, tk, x)).p2 == x.p2
      ensures MapInverseEvent(el, tk, MapEvent(el, tk, x)).density
           == UnsampleT(tk, sampler, LSquare(x.p1.Plus(x.p2)), LSquare(x.p1), LSquare(x.p2), x.m1, x.m2, SampledCosine(tk, sampler, x)).weight
            * TDensity(el, LSquare(x.p1.Plus(x.p2)), LSquare(x.p1), LSquare(x.p2))
    {
      var s := LSquare(x.p1.Plus(x.p2));
      var d := MapEvent(el, tk, x);
      var q := InvRotateZY(el, d.k1, d.phi1, d.costheta1);
      TurnedBackRead(el, tk, x);
      var p1 := RotateZY(el, RestDecay(el, s, d.q1sq, d.q2sq), d.phi1, d.costheta1);
      assert d.k1.Plus(d.k2) == x.p1.Plus(x.p2) by {
        PlusMinus(x.p1.Plus(x.p2), d.k1);
      }
      assert MapInverseEvent(el, tk, d) == InverseEvent(el, tk, sampler, d, p1, q, d.k1);
      InverseEventReads(el, tk, sampler, d, p1, q, d.k1, s, x.m1, x.m2, SampledCosine(tk, sampler, x));
      SampleRoundTrip(tk, sampler, x.r2, s, LSquare(x.p1), LSquare(x.p2), x.m1, x.m2);
      RebuiltAtRest(el, x.p1, x.p2);
    }

    /** Under the same conditions the density of map_inverse is the reciprocal of the weight
        of map: gs_inv * gp against gs_inv / gp. */
    lemma MapInverseDensity(el: Elementary, tk: TKernel, x: TInput)
      requires Lawful(el) && PolarLaws(el) && KernelLaws(tk)
      requires 0.0 < LSquare(x.p1.Plus(x.p2)) && 0.0 < SpatialDot(x.p1, x.p1) && RestFrame(x.p1.Plus(x.p2))
      requires 0.0 < Kaellen(LSquare(x.p1.Plus(x.p2)), LSquare(x.p1), LSquare(x.p2))
      requires 0.0 < Kaellen(LSquare(x.p1.Plus(x.p2)), Sq(x.m1), Sq(x.m2))
      requires 0.0 <= x.r1 < 1.0 && -1.0 < SampledCosine(tk, sampler, x) < 1.0 && 0.0 <= x.m1 && 0.0 <= x.m2
      ensures 0.0 < LSquare(MapEvent(el, tk, x).k1.Plus(MapEvent(el, tk, x).k2))
      ensures 0.0 < SpatialDot(MapEvent(el, tk, x).k1, MapEvent(el, tk, x).k1)
      ensures MapInverseEvent(el, tk, MapEvent(el, tk, x)).density * MapEvent(el, tk, x).weight == 1.0
    {
      var s := LSquare(x.p1.Plus(x.p2));
      var d := MapEvent(el, tk, x);
      var q := InvRotateZY(el, d.k1, d.phi1, d.costheta1);
      TurnedBackRead(el, tk, x);
      var p1 := RotateZY(el, RestDecay(el, s, d.q1sq, d.q2sq), d.phi1, d.costheta1);
      assert MapInverseEvent(el, tk, d) == InverseEvent(el, tk, sampler, d, p1, q, d.k1);
      InverseEventReads(el, tk, sampler, d, p1, q, d.k1, s, x.m1, x.m2, SampledCosine(tk, sampler, x));
      SampledWeights(tk, sampler, x);
      MapWeight(el, tk, x);
    }
  }

  // ---------------------------------------------------------------------------------------
  // The unpacking of map_inverse as written

  /** map_inverse of both t-channel mappings as written (twoparticle.py:338-348 and 488-498).
      `p_out, q2_in, angles_in = inputs[0]` unpacks the batch of output momenta alone, along
      its batch axis: a ValueError unless the batch holds exactly three events. With three,
      p_out is the momentum pair of event 0, k1 = p_out[:, 0] holds two numbers, and
      lsquare(k1) contracts them with the 4 x 4 metric: a RuntimeError. No batch is read
      back. */
  function MapInverseAsWritten(batch: seq<TDecay>): (r: Result<seq<TRandoms>>)
    ensures r.Err?
    ensures r.error == UnpackMismatch <==> |batch| != 3
    ensures r.error == ShapeMismatch <==> |batch| == 3
  {
    if |batch| != 3 then Err(UnpackMismatch) else Err(ShapeMismatch)
  }

  /** density(inverse=True) as written (twoparticle.py:393-395 and 543-545) calls
      map_inverse and raises what it raises. */
  function InverseDensityAsWritten(batch: seq<TDecay>): (r: Result<seq<real>>)
    ensures r.Err? && r.error == MapInverseAsWritten(batch).error
  {
    Err(MapInverseAsWritten(batch).error)
  }

  /** Where the unpacking as written and the corrected one part: a batch of two events of
      map, which MapInverseRoundTrip reads back one by one, makes map_inverse and the inverse
      density as written raise at the unpacking. */
  lemma MapInverseAsWrittenRejectsPairs(d1: TDecay, d2: TDecay)
    ensures MapInverseAsWritten([d1, d2]) == Err(UnpackMismatch)
    ensures InverseDensityAsWritten([d1, d2]) == Err(UnpackMismatch)
  {}

  // ---------------------------------------------------------------------------------------
  // The mapping in any frame

  /** p1 boosted into the rest frame of ptot, whose direction is the axis of the decay. */
  function RestAxis(el: Elementary, x: TInput): Vec4
    requires Lawful(el) && Timelike(x.p1.Plus(x.p2))
  {
    Boost(el, x.p1, x.p1.Plus(x.p2), true)
  }

  /** The t-channel decay with p1, p2 given in any frame: the axis is read off p1 in the rest
      frame of ptot, and k1 is boosted out of that frame. */
  datatype TInvariantLab = TInvariantLab(sampler: TSampler) {

    /** map for one event: k1 the decay at rest turned twice and boosted along ptot,
        k2 = ptot - k1, the weight gs_inv / gp. */
    function MapEvent(el: Elementary, tk: TKernel, x: TInput): TDecay
      requires Lawful(el) && Timelike(x.p1.Plus(x.p2)) && 0.0 < SpatialDot(RestAxis(el, x), RestAxis(el, x))
      requires 0.0 < Kaellen(LSquare(x.p1.Plus(x.p2)), LSquare(x.p1), LSquare(x.p2))
    {
      var ptot := x.p1.Plus(x.p2);
      var s, a, b := LSquare(ptot), LSquare(x.p1), LSquare(x.p2);
      var t := SampleT(tk, sampler, x.r2, s, a, b, x.m1, x.m2);
      var axis := RestAxis(el, x);
      var phi1, ct1 := el.atan2(axis.y, axis.x), PolarCosine(el, axis);
      var k1 := Boost(el, TurnedTwice(el, s, x.m1, x.m2, x.r1, CosineOfT(tk, s, a, b, x.m1, x.m2, t.value), phi1, ct1), ptot, false);
      TDecay(k1, ptot.Minus(k1), a, b, phi1, ct1, t.weight / TDensity(el, s, a, b))
    }

    /** map for one event as the source computes it: k1 starts as a zero vector, its energy
        and z component are written in place, then it is turned twice and boosted along ptot,
        and k2 = ptot - k1. */
    method MapEventInPlace(el: Elementary, tk: TKernel, x: TInput) returns (d: TDecay)
      requires Lawful(el) && Timelike(x.p1.Plus(x.p2)) && 0.0 < SpatialDot(RestAxis(el, x), RestAxis(el, x))
      requires 0.0 < Kaellen(LSquare(x.p1.Plus(x.p2)), LSquare(x.p1), LSquare(x.p2))
      ensures d == MapEvent(el, tk, x)
    {
      var ptot := x.p1.Plus(x.p2);
      var axis := Boost(el, x.p1, ptot, true);
      var s, a, b := LSquare(ptot), LSquare(x.p1), LSquare(x.p2);
      var t := SampleT(tk, sampler, x.r2, s, a, b, x.m1, x.m2);
      var k1 := Zero;
      k1 := k1.(e := DecayEnergy(el, s, Sq(x.m1), Sq(x.m2)));
      k1 := k1.(z := DecayMomentum(el, s, Sq(x.m1), Sq(x.m2)));
      var phi1, ct1 := el.atan2(axis.y, axis.x), PolarCosine(el, axis);
      k1 := RotateZY(el, k1, UnitToAzimuth(el, x.r1), CosineOfT(tk, s, a, b, x.m1, x.m2, t.value));
      k1 := RotateZY(el, k1, phi1, ct1);
      k1 := Boost(el, k1, ptot, false);
      d := TDecay(k1, ptot.Minus(k1), a, b, phi1, ct1, t.weight / TDensity(el, s, a, b));
    }

    /** p1 as map_inverse rebuilds it: the decay at rest into the incoming virtualities, turned
        onto the axis and boosted along ptot. */
    function RebuiltP1(el: Elementary, d: TDecay): Vec4
      requires Lawful(el) && Timelike(d.k1.Plus(d.k2))
    {
      var ptot := d.k1.Plus(d.k2);
      Boost(el, RotateZY(el, RestDecay(el, LSquare(ptot), d.q1sq, d.q2sq), d.phi1, d.costheta1), ptot, false)
    }

    /** k1 boosted into the rest frame of ptot and turned back from the axis. */
    function TurnedBack(el: Elementary, d: TDecay): Vec4
      requires Lawful(el) && Timelike(d.k1.Plus(d.k2))
    {
      InvRotateZY(el, Boost(el, d.k1, d.k1.Plus(d.k2), true), d.phi1, d.costheta1)
    }

    /** What map_inverse turns back instead: the rebuilt p1 in place of k1. */
    function TurnedBackAsWritten(el: Elementary, d: TDecay): Vec4
      requires Lawful(el) && Timelike(d.k1.Plus(d.k2))
    {
      InvRotateZY(el, Boost(el, RebuiltP1(el, d), d.k1.Plus(d.k2), true), d.phi1, d.costheta1)
    }

    /** The corrected map_inverse for one event, with the outputs read as inputs[0],
        inputs[1] and inputs[2] and the randoms read off k1 turned back. */
    function MapInverseEvent(el: Elementary, tk: TKernel, d: TDecay): TRandoms
      requires Lawful(el) && Timelike(d.k1.Plus(d.k2)) && 0.0 < SpatialDot(TurnedBack(el, d), TurnedBack(el, d))
    {
      InverseEvent(el, tk, sampler, d, RebuiltP1(el, d), TurnedBack(el, d), TurnedBack(el, d))
    }

    /** The corrected map_inverse for one event, computed as the source does after its
        unpacking and with k1 turned back: p1 starts as a zero vector, its energy and z
        component are written in place, and it is turned onto the axis and boosted along
        ptot. */
    method MapInverseEventInPlace(el: Elementary, tk: TKernel, d: TDecay) returns (res: TRandoms)
      requires Lawful(el) && Timelike(d.k1.Plus(d.k2)) && 0.0 < SpatialDot(TurnedBack(el, d), TurnedBack(el, d))
      ensures res == MapInverseEvent(el, tk, d)
    {
      var ptot := d.k1.Plus(d.k2);
      var s := LSquare(ptot);
      var p1 := Zero;
      p1 := p1.(e := DecayEnergy(el, s, d.q1sq, d.q2sq));
      p1 := p1.(z := DecayMomentum(el, s, d.q1sq, d.q2sq));
      p1 := RotateZY(el, p1, d.phi1, d.costheta1);
      p1 := Boost(el, p1, ptot, false);
      var k1 := Boost(el, d.k1, ptot, true);
      k1 := InvRotateZY(el, k1, d.phi1, d.costheta1);
      res := InverseEvent(el, tk, sampler, d, p1, k1, k1);
    }

    /** map_inverse for one event as written: the randoms are read off the rebuilt p1. */
    function MapInverseEventAsWritten(el: Elementary, tk: TKernel, d: TDecay): TRandoms
      requires Lawful(el) && Timelike(d.k1.Plus(d.k2))
      requires 0.0 < SpatialDot(TurnedBackAsWritten(el, d), TurnedBackAsWritten(el, d))
    {
      InverseEvent(el, tk, sampler, d, RebuiltP1(el, d), TurnedBackAsWritten(el, d), TurnedBackAsWritten(el, d))
    }

    /** The outgoing momenta add up to ptot and, for a cosine in [-1, 1], both are on their
        mass shells in every frame. */
    lemma MapOnShell(el: Elementary, tk: TKernel, x: TInput)
      requires Lawful(el) && Timelike(x.p1.Plus(x.p2)) && 0.0 < SpatialDot(RestAxis(el, x), RestAxis(el, x))
      requires 0.0 < Kaellen(LSquare(x.p1.Plus(x.p2)), LSquare(x.p1), LSquare(x.p2))
      requires 0.0 <= Kaellen(LSquare(x.p1.Plus(x.p2)), Sq(x.m1), Sq(x.m2))
      requires -1.0 <= SampledCosine(tk, sampler, x) <= 1.0
      ensures MapEvent(el, tk, x).k1.Plus(MapEvent(el, tk, x).k2) == x.p1.Plus(x.p2)
      ensures LSquare(MapEvent(el, tk, x).k1) == Sq(x.m1)
      ensures LSquare(MapEvent(el, tk, x).k2) == Sq(x.m2)
    {
      var ptot := x.p1.Plus(x.p2);
      var d := MapEvent(el, tk, x);
      var s := LSquare(ptot);
      var k := TurnedTwice(el, s, x.m1, x.m2, x.r1, SampledCosine(tk, sampler, x), d.phi1, d.costheta1);
      var rest := AtRest(el.sqrt(s));
      PlusMinus(ptot, d.k1);
      TurnedOnShell(el, s, x.m1, x.m2, x.r1, SampledCosine(tk, sampler, x), d.phi1, d.costheta1);
      BoostPreservesLSquare(el, k, ptot, false);
      assert d.k2 == Boost(el, rest.Minus(k), ptot, false) by {
        BoostOutOfRestFrame(el, ptot);
        PlusMinus(rest, k);
        BoostAdditive(el, k, rest.Minus(k), ptot, false);
      }
      BoostPreservesLSquare(el, rest.Minus(k), ptot, false);
    }

    /** The weight of map is gs_inv / gp with a positive gp. */
    lemma MapWeight(el: Elementary, tk: TKernel, x: TInput)
      requires Lawful(el) && Timelike(x.p1.Plus(x.p2)) && 0.0 < SpatialDot(RestAxis(el, x), RestAxis(el, x))
      requires 0.0 < Kaellen(LSquare(x.p1.Plus(x.p2)), LSquare(x.p1), LSquare(x.p2))
      ensures 0.0 < TDensity(el, LSquare(x.p1.Plus(x.p2)), LSquare(x.p1), LSquare(x.p2))
      ensures MapEvent(el, tk, x).weight * TDensity(el, LSquare(x.p1.Plus(x.p2)), LSquare(x.p1), LSquare(x.p2))
           == SampleT(tk, sampler, x.r2, LSquare(x.p1.Plus(x.p2)), LSquare(x.p1), LSquare(x.p2), x.m1, x.m2).weight
    {}

    /** k1 of map, boosted back and turned back from the axis, is the decay at rest turned to
        the sampled angles. */
    lemma TurnedBackRead(el: Elementary, tk: TKernel, x: TInput)
      requires Lawful(el) && PolarLaws(el) && Timelike(x.p1.Plus(x.p2)) && 0.0 < SpatialDot(RestAxis(el, x), RestAxis(el, x))
      requires 0.0 < Kaellen(LSquare(x.p1.Plus(x.p2)), LSquare(x.p1), LSquare(x.p2))
      requires 0.0 < Kaellen(LSquare(x.p1.Plus(x.p2)), Sq(x.m1), Sq(x.m2))
      requires 0.0 <= x.r1 < 1.0 && -1.0 < SampledCosine(tk, sampler, x) < 1.0 && 0.0 <= x.m1 && 0.0 <= x.m2
      ensures Timelike(MapEvent(el, tk, x).k1.Plus(MapEvent(el, tk, x).k2))
      ensures LSquare(MapEvent(el, tk, x).k1.Plus(MapEvent(el, tk, x).k2)) == LSquare(x.p1.Plus(x.p2))
      ensures el.sqrt(LSquare(MapEvent(el, tk, x).k1)) == x.m1 && el.sqrt(LSquare(MapEvent(el, tk, x).k2)) == x.m2
      ensures 0.0 < SpatialDot(TurnedBack(el, MapEvent(el, tk, x)), TurnedBack(el, MapEvent(el, tk, x)))
      ensures AzimuthRandom(el, TurnedBack(el, MapEvent(el, tk, x))) == x.r1
      ensures ReadCosine(el, TurnedBack(el, MapEvent(el, tk, x)), TurnedBack(el, MapEvent(el, tk, x))) == SampledCosine(tk, sampler, x)
    {
      var ptot := x.p1.Plus(x.p2);
      var s := LSquare(ptot);
      var d := MapEvent(el, tk, x);
      var c := SampledCosine(tk, sampler, x);
      var k := TurnedTwice(el, s, x.m1, x.m2, x.r1, c, d.phi1, d.costheta1);
      assert d.k1.Plus(d.k2) == ptot && el.sqrt(LSquare(d.k1)) == x.m1 && el.sqrt(LSquare(d.k2)) == x.m2 by {
        MapOnShell(el, tk, x);
        SqrtOfSq(el, x.m1);
        SqrtOfSq(el, x.m2);
      }
      assert TurnedBack(el, d) == InvRotateZY(el, k, d.phi1, d.costheta1) by {
        BoostRoundTrip(el, k, ptot, false);
      }
      TurnedRead(el, s, x.m1, x.m2, x.r1, c, d.phi1, d.costheta1);
    }

    /** With a cosine strictly inside (-1, 1) and non-negative masses, map_inverse reads back
        the randoms, the incoming momenta and the masses of map, in any frame. */
    lemma MapInverseRoundTrip(el: Elementary, tk: TKernel, x: TInput)
      requires Lawful(el) && PolarLaws(el) && KernelLaws(tk)
      requires Timelike(x.p1.Plus(x.p2)) && 0.0 < SpatialDot(RestAxis(el, x), RestAxis(el, x))
      requires 0.0 < Kaellen(LSquare(x.p1.Plus(x.p2)), LSquare(x.p1), LSquare(x.p2))
      requires 0.0 < Kaellen(LSquare(x.p1.Plus(x.p2)), Sq(x.m1), Sq(x.m2))
      requires 0.0 <= x.r1 < 1.0 && -1.0 < SampledCosine(tk, sampler, x) < 1.0 && 0.0 <= x.m1 && 0.0 <= x.m2
      ensures Timelike(MapEvent(el, tk, x).k1.Plus(MapEvent(el, tk, x).k2))
      ensures 0.0 < SpatialDot(TurnedBack(el, MapEvent(el, tk, x)), TurnedBack(el, MapEvent(el, tk, x)))
      ensures MapInverseEvent(el, tk, MapEvent(el, tk, x)).r1 == x.r1
      ensures MapInverseEvent(el, tk, MapEvent(el, tk, x)).r2 == x.r2
      ensures MapInverseEvent(el, tk, MapEvent(el, tk, x)).m1 == x.m1
      ensures MapInverseEvent(el, tk, MapEvent(el, tk, x)).m2 == x.m2
      ensures MapInverseEvent(el, tk, MapEvent(el, tk, x)).p1 == x.p1
      ensures MapInverseEvent(el, tk, MapEvent(el, tk, x)).p2 == x.p2
      ensures MapInverseEvent(el, tk, MapEvent(el, tk, x)).density
           == UnsampleT(tk, sampler, LSquare(x.p1.Plus(x.p2)), LSquare(x.p1), LSquare(x.p2), x.m1, x.m2, SampledCosine(tk, sampler, x)).weight
            * TDensity(el, LSquare(x.p1.Plus(x.p2)), LSquare(x.p1), LSquare(x.p2))
    {
      var s := LSquare(x.p1.Plus(x.p2));
      var d := MapEvent(el, tk, x);
      var q := TurnedBack(el, d);
      TurnedBackRead(el, tk, x);
      assert d.k1.Plus(d.k2) == x.p1.Plus(x.p2) by {
        PlusMinus(x.p1.Plus(x.p2), d.k1);
      }
      InverseEventReads(el, tk, sampler, d, RebuiltP1(el, d), q, q, s, x.m1, x.m2, SampledCosine(tk, sampler, x));
      SampleRoundTrip(tk, sampler, x.r2, s, LSquare(x.p1), LSquare(x.p2), x.m1, x.m2);
      RebuiltInFrame(el, x.p1, x.p2);
    }

    /** Under the same conditions the density of map_inverse is the reciprocal of the weight
        of map. */
    lemma MapInverseDensity(el: Elementary, tk: TKernel, x: TInput)
      requires Lawful(el) && PolarLaws(el) && KernelLaws(tk)
      requires Timelike(x.p1.Plus(x.p2)) && 0.0 < SpatialDot(RestAxis(el, x), RestAxis(el, x))
      requires 0.0 < Kaellen(LSquare(x.p1.Plus(x.p2)), LSquare(x.p1), LSquare(x.p2))
      requires 0.0 < Kaellen(LSquare(x.p1.Plus(x.p2)), Sq(x.m1), Sq(x.m2))
      requires 0.0 <= x.r1 < 1.0 && -1.0 < SampledCosine(tk, sampler, x) < 1.0 && 0.0 <= x.m1 && 0.0 <= x.m2
      ensures Timelike(MapEvent(el, tk, x).k1.Plus(MapEvent(el, tk, x).k2))
      ensures 0.0 < SpatialDot(TurnedBack(el, MapEvent(el, tk, x)), TurnedBack(el, MapEvent(el, tk, x)))
      ensures MapInverseEvent(el, tk, MapEvent(el, tk, x)).density * MapEvent(el, tk, x).weight == 1.0
    {
      var s := LSquare(x.p1.Plus(x.p2));
      var d := MapEvent(el, tk, x);
      var q := TurnedBack(el, d);
      TurnedBackRead(el, tk, x);
      InverseEventReads(el, tk, sampler, d, RebuiltP1(el, d), q, q, s, x.m1, x.m2, SampledCosine(tk, sampler, x));
      SampledWeights(tk, sampler, x);
      MapWeight(el, tk, x);
    }

    /** map_inverse as written boosts and turns back the rebuilt p1, which is the decay at rest
        into the incoming virtualities along the z axis: the cosine it reads is 1 and the
        random r2 it returns is the one of cos(theta) = 1, whatever k1 is. */
    lemma MapInverseAsWrittenIgnoresK1(el: Elementary, tk: TKernel, d: TDecay)
      requires Lawful(el) && Timelike(d.k1.Plus(d.k2)) && -1.0 <= d.costheta1 <= 1.0
      requires 0.0 < Kaellen(LSquare(d.k1.Plus(d.k2)), d.q1sq, d.q2sq)
      ensures TurnedBackAsWritten(el, d) == RestDecay(el, LSquare(d.k1.Plus(d.k2)), d.q1sq, d.q2sq)
      ensures 0.0 < SpatialDot(TurnedBackAsWritten(el, d), TurnedBackAsWritten(el, d))
      ensures ReadCosine(el, TurnedBackAsWritten(el, d), TurnedBackAsWritten(el, d)) == 1.0
      ensures MapInverseEventAsWritten(el, tk, d).r2
           == UnsampleT(tk, sampler, LSquare(d.k1.Plus(d.k2)), d.q1sq, d.q2sq,
                        el.sqrt(LSquare(d.k1)), el.sqrt(LSquare(d.k2)), 1.0).value
    {
      var ptot := d.k1.Plus(d.k2);
      var s := LSquare(ptot);
      var rest := RestDecay(el, s, d.q1sq, d.q2sq);
      var q := TurnedBackAsWritten(el, d);
      assert q == rest by {
        BoostRoundTrip(el, RotateZY(el, rest, d.phi1, d.costheta1), ptot, false);
        RotationsInverse(el, rest, d.phi1, d.costheta1);
      }
      var pz := DecayMomentum(el, s, d.q1sq, d.q2sq);
      DecayMomentumPositive(el, s, d.q1sq, d.q2sq);
      assert SpatialDot(q, q) == pz * pz;
      MulPosEq(pz, pz, pz * pz);
      SqrtOfSquare(el, pz);
      assert ReadCosine(el, q, q) == pz / pz;
      SelfQuotient(pz);
      InverseEventReads(el, tk, sampler, d, RebuiltP1(el, d), q, q, s, el.sqrt(LSquare(d.k1)), el.sqrt(LSquare(d.k2)), 1.0);
    }
  }
}
