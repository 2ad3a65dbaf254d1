/** The isotropic two-particle mappings: from two uniform randoms and the squared energy s of
    the decaying system to the two decay momenta and the mapping's weight, and back. The
    COM mapping works at rest, the LAB mapping boosts the decay into the frame of a given total
    momentum. A batch is a sequence of events; it is rejected as a whole when any event has
    s < 0. */
module TwoParticle {
  import opened Elementary
  import opened Kinematics
  import opened Failures
  import opened Boosts
  import opened Rotations
  import opened Factors

  // ---------------------------------------------------------------------------------------
  // The decay at rest

  /** s > 0 and lambda(s, m1^2, m2^2) > 0: the decay at rest is defined and has a finite
      density. */
  predicate Regular(s: real, m1: real, m2: real) {
    0.0 < s && 0.0 < Kaellen(s, Sq(m1), Sq(m2))
  }

  /** The energy (s + aa - bb) / (2 sqrt s) of a decay product of squared mass aa recoiling
      against one of squared mass bb. */
  function DecayEnergy(el: Elementary, s: real, aa: real, bb: real): real
    requires Lawful(el) && 0.0 < s
  {
    SqrtPositive(el, s);
    (s + aa - bb) / (2.0 * el.sqrt(s))
  }

  /** The momentum sqrt(lambda(s, aa, bb)) / (2 sqrt s) of both decay products at rest. */
  function DecayMomentum(el: Elementary, s: real, aa: real, bb: real): real
    requires Lawful(el) && 0.0 < s
  {
    SqrtPositive(el, s);
    el.sqrt(Kaellen(s, aa, bb)) / (2.0 * el.sqrt(s))
  }

  /** The first decay product at rest, along the z axis. */
  function RestDecay(el: Elementary, s: real, aa: real, bb: real): Vec4
    requires Lawful(el) && 0.0 < s
  {
    Vec4(DecayEnergy(el, s, aa, bb), 0.0, 0.0, DecayMomentum(el, s, aa, bb))
  }

  lemma QuotientSquares(a: real, l: real, d: real, e: real, p: real)
    requires d != 0.0 && e == a / d && p == l / d
    ensures (e * e - p * p) * (d * d) == a * a - l * l
  {
    assert e * d == a && p * d == l;
    assert (e * e - p * p) * (d * d) == (e * d) * (e * d) - (p * d) * (p * d);
  }

  lemma QuotientSum(a: real, b: real, d: real, r: real)
    requires d != 0.0 && r * d == a + b
    ensures a / d + b / d == r
  {
    assert (a / d) * d == a && (b / d) * d == b;
    assert (a / d + b / d) * d == r * d;
    MulCancel(a / d + b / d, r, d);
  }

  lemma QuotientNonNeg(a: real, d: real)
    requires 0.0 <= a && 0.0 < d
    ensures 0.0 <= a / d
  {
    var q := a / d;
    assert q * d == a;
    if q < 0.0 {
      MulPosEq(-q, d, -a);
    }
  }

  lemma QuotientPos(a: real, d: real)
    requires 0.0 < a && 0.0 < d
    ensures 0.0 < a / d
  {
    QuotientNonNeg(a, d);
    assert (a / d) * d == a;
  }

  /** At rest the decay product of squared mass aa has invariant aa, the two energies add up to
      sqrt s, the momentum is shared and not negative. */
  lemma RestDecayOnShell(el: Elementary, s: real, aa: real, bb: real)
    requires Lawful(el) && 0.0 < s && 0.0 <= Kaellen(s, aa, bb)
    ensures LSquare(RestDecay(el, s, aa, bb)) == aa
    ensures DecayEnergy(el, s, aa, bb) + DecayEnergy(el, s, bb, aa) == el.sqrt(s)
    ensures DecayMomentum(el, s, bb, aa) == DecayMomentum(el, s, aa, bb)
    ensures 0.0 <= DecayMomentum(el, s, aa, bb)
  {
    var r := el.sqrt(s);
    SqrtPositive(el, s);
    var d := 2.0 * r;
    var e, p := DecayEnergy(el, s, aa, bb), DecayMomentum(el, s, aa, bb);
    var l := el.sqrt(Kaellen(s, aa, bb));
    assert l * l == Kaellen(s, aa, bb);
    QuotientSquares(s + aa - bb, l, d, e, p);
    KaellenOnShell(s, aa, bb);
    assert d * d == 4.0 * s by {
      assert d * d == 4.0 * (r * r);
    }
    assert (e * e - p * p) * (4.0 * s) == aa * (4.0 * s);
    MulCancel(e * e - p * p, aa, 4.0 * s);
    QuotientSum(s + aa - bb, s + bb - aa, d, r);
    KaellenLaws(s, aa, bb);
    QuotientNonNeg(l, d);
  }

  /** The decay at rest of a system of squared mass s into the invariants of a momentum q
      and of its partner AtRest(sqrt s) - q returns q itself in its energy and its length:
      E = q.e and |p| = |q|. */
  lemma RestDecayOfPart(el: Elementary, s: real, q: Vec4)
    requires Lawful(el) && 0.0 < s
    ensures RestDecay(el, s, LSquare(q), LSquare(AtRest(el.sqrt(s)).Minus(q))) == Vec4(q.e, 0.0, 0.0, el.sqrt(SpatialDot(q, q)))
  {
    SqrtPositive(el, s);
    PartnerInvariant(el.sqrt(s), q, LSquare(AtRest(el.sqrt(s)).Minus(q)));
    KaellenOnShell(s, LSquare(q), LSquare(AtRest(el.sqrt(s)).Minus(q)));
    Boosts.SelfDotNonNeg(q);
    PartMomentum(el, s, el.sqrt(s), q.e, LSquare(q), SpatialDot(q, q), Kaellen(s, LSquare(q), LSquare(AtRest(el.sqrt(s)).Minus(q))));
    ExactQuotient(2.0 * el.sqrt(s) * q.e, 2.0 * el.sqrt(s), q.e);
  }

  /** The invariant of the partner AtRest(m) - q of q. */
  lemma PartnerInvariant(m: real, q: Vec4, b: real)
    requires b == LSquare(AtRest(m).Minus(q))
    ensures b == m * m - 2.0 * m * q.e + LSquare(q)
  {
    assert (0.0 - q.x) * (0.0 - q.x) == q.x * q.x;
    assert (0.0 - q.y) * (0.0 - q.y) == q.y * q.y;
    assert (0.0 - q.z) * (0.0 - q.z) == q.z * q.z;
    assert (m - q.e) * (m - q.e) == m * m - 2.0 * m * q.e + q.e * q.e;
  }

  /** With s + a - b = 2 m e and s = m^2, the Källén function is 4 s |q|^2, so the momentum of
      the decay at rest is |q|. */
  lemma PartMomentum(el: Elementary, s: real, m: real, e: real, a: real, d: real, l: real)
    requires Lawful(el) && 0.0 < m && s == m * m && el.sqrt(s) == m && a == e * e - d && 0.0 <= d
    requires (2.0 * m * e) * (2.0 * m * e) - l == 4.0 * s * a
    ensures el.sqrt(l) / (2.0 * el.sqrt(s)) == el.sqrt(d)
  {
    var r := el.sqrt(d);
    assert r * r == d && 0.0 <= r;
    assert l == (2.0 * m * r) * (2.0 * m * r) by {
      assert (2.0 * m * e) * (2.0 * m * e) == 4.0 * s * (e * e);
      assert (2.0 * m * r) * (2.0 * m * r) == 4.0 * s * (r * r);
    }
    MulNonNegEq(2.0 * m, r, 2.0 * m * r);
    SqrtUnique(el, l, 2.0 * m * r);
    ExactQuotient(2.0 * m * r, 2.0 * m, r);
  }

  /** A product divided by one of its factors is the other. */
  lemma ExactQuotient(n: real, d: real, r: real)
    requires d != 0.0 && n == d * r
    ensures n / d == r
  {}

  // ---------------------------------------------------------------------------------------
  // The random numbers and the angles

  /** phi / 2 / pi, the random number the inverse mappings read off an azimuth. */
  function AzimuthToUnitAsWritten(el: Elementary, phi: real): real
    requires Lawful(el)
  {
    phi / 2.0 / el.pi
  }

  /** phi / (2 pi), lifted by one for a negative azimuth: the random number in [0, 1) whose
      azimuth is phi, as the inverse of RAMBO on diet reads it off. */
  function AzimuthToUnit(el: Elementary, phi: real): real
    requires Lawful(el)
  {
    phi / (2.0 * el.pi) + (if phi < 0.0 then 1.0 else 0.0)
  }

  /** (cos(theta) + 1) / 2, the random number of a polar cosine. */
  function CosineToUnit(c: real): real {
    (c + 1.0) / 2.0
  }

  lemma AzimuthQuotient(pi: real, r: real, phi: real)
    requires 3.0 < pi && phi == 2.0 * pi * r
    ensures phi / 2.0 / pi == r && phi / (2.0 * pi) == r
  {
    assert phi / 2.0 == pi * r;
    assert (pi * r) / pi == r;
    assert phi / (2.0 * pi) == r;
  }

  /** The affine maps between randoms and angles are inverse to each other. */
  lemma AnglesFromUnits(el: Elementary, r1: real, r2: real, c: real)
    requires Lawful(el)
    ensures CosineToUnit(UnitToCosine(r2)) == r2 && UnitToCosine(CosineToUnit(c)) == c
    ensures 0.0 <= r1 < 1.0 ==> AzimuthToUnit(el, UnitToAzimuth(el, r1)) == r1
    ensures AzimuthToUnitAsWritten(el, UnitToAzimuth(el, r1)) == r1
  {
    AzimuthQuotient(el.pi, r1, UnitToAzimuth(el, r1));
    if 0.0 <= r1 {
      MulNonNegEq(2.0 * el.pi, r1, UnitToAzimuth(el, r1));
    }
  }

  /** The direction of the vector (E, rho c, rho s, v) with rho > 0 and c^2 + s^2 = 1 is
      read back by atan2: the azimuth a in (-pi, pi] with cos a = c, sin a = s. */
  lemma AzimuthOfDirection(el: Elementary, rho: real, a: real, x: real, y: real)
    requires Lawful(el) && PolarLaws(el) && -el.pi < a <= el.pi && 0.0 < rho
    requires x == rho * el.cos(a) && y == rho * el.sin(a)
    ensures el.atan2(y, x) == a
  {
    assert el.cos(a) * el.cos(a) + el.sin(a) * el.sin(a) == 1.0;
    DirectionCore(rho, el.cos(a), el.sin(a), x, y);
  }

  lemma DirectionCore(rho: real, c: real, s: real, x: real, y: real)
    requires c * c + s * s == 1.0 && 0.0 < rho && x == rho * c && y == rho * s
    ensures x * s == y * c && 0.0 < x * c + y * s
  {
    assert x * c + y * s == rho * (c * c + s * s);
  }

  lemma TurnRange(pi: real, r: real, phi: real)
    requires 3.0 < pi && phi == 2.0 * pi * r && 0.0 <= r < 1.0
    ensures r <= 0.5 ==> 0.0 <= phi <= pi
    ensures 0.5 < r ==> -pi < phi - 2.0 * pi < 0.0
  {
    MulNonNegEq(2.0 * pi, r, phi);
    if r <= 0.5 {
      MulNonNegEq(2.0 * pi, 0.5 - r, pi - phi);
    } else {
      MulPosEq(2.0 * pi, r - 0.5, phi - pi);
      MulPosEq(2.0 * pi, 1.0 - r, 2.0 * pi - phi);
    }
  }

  /** The azimuth of a uniform random in [0, 1) is read back by atan2 as the azimuth itself up to
      a half turn and as the azimuth minus a full turn above, atan2 answering in (-pi, pi]. */
  lemma AtanOfTurn(el: Elementary, rho: real, r1: real, x: real, y: real)
    requires Lawful(el) && PolarLaws(el) && 0.0 <= r1 < 1.0 && 0.0 < rho
    requires x == rho * el.cos(UnitToAzimuth(el, r1)) && y == rho * el.sin(UnitToAzimuth(el, r1))
    ensures r1 <= 0.5 ==> el.atan2(y, x) == UnitToAzimuth(el, r1)
    ensures 0.5 < r1 ==> el.atan2(y, x) == UnitToAzimuth(el, r1) - 2.0 * el.pi
  {
    var phi := UnitToAzimuth(el, r1);
    TurnRange(el.pi, r1, phi);
    if r1 <= 0.5 {
      AzimuthOfDirection(el, rho, phi, x, y);
    } else {
      var a := phi - 2.0 * el.pi;
      assert el.cos(phi) == el.cos(a) && el.sin(phi) == el.sin(a);
      AzimuthOfDirection(el, rho, a, x, y);
    }
  }

  lemma NegativeTurnQuotient(pi: real, r: real, a: real)
    requires 3.0 < pi && a == 2.0 * pi * r - 2.0 * pi
    ensures a / 2.0 / pi == r - 1.0 && a / (2.0 * pi) == r - 1.0
  {
    assert a == 2.0 * pi * (r - 1.0);
    AzimuthQuotient(pi, r - 1.0, a);
  }

  /** The azimuth of a uniform random in [0, 1) is read back: AzimuthToUnit returns the random
      itself, while phi / 2 / pi returns it only up to 1/2 and the random minus one above. */
  lemma AzimuthRecovered(el: Elementary, rho: real, r1: real, x: real, y: real)
    requires Lawful(el) && PolarLaws(el) && 0.0 <= r1 < 1.0 && 0.0 < rho
    requires x == rho * el.cos(UnitToAzimuth(el, r1)) && y == rho * el.sin(UnitToAzimuth(el, r1))
    ensures AzimuthToUnit(el, el.atan2(y, x)) == r1
    ensures r1 <= 0.5 ==> AzimuthToUnitAsWritten(el, el.atan2(y, x)) == r1
    ensures 0.5 < r1 ==> AzimuthToUnitAsWritten(el, el.atan2(y, x)) == r1 - 1.0
  {
    AtanOfTurn(el, rho, r1, x, y);
    var phi := UnitToAzimuth(el, r1);
    TurnRange(el.pi, r1, phi);
    if r1 <= 0.5 {
      AzimuthQuotient(el.pi, r1, phi);
    } else {
      NegativeTurnQuotient(el.pi, r1, phi - 2.0 * el.pi);
    }
  }

  // ---------------------------------------------------------------------------------------
  // The COM mapping

  /** One event of a COM batch: the two randoms and the squared energy s. */
  datatype ComInput = ComInput(r1: real, r2: real, s: real)

  /** The two decay momenta of an event and the weight of the mapping. */
  datatype Decay = Decay(p1: Vec4, p2: Vec4, weight: real)

  /** What the inverse COM mapping returns for one event: the randoms, s and the density. */
  datatype ComRandoms = ComRandoms(r1: real, r2: real, s: real, density: real)

  /** The two-particle phase-space density at s divided by 4 pi, as both mappings weigh an
      event. */
  function DecayDensity(el: Elementary, s: real, m1: real, m2: real): (g: real)
    requires Lawful(el) && Regular(s, m1, m2)
    ensures 0.0 < g
  {
    var t := TwoParticleDensity(el, s, m1, m2);
    QuotientPos(t, 4.0 * el.pi);
    t / (4.0 * el.pi)
  }

  /** The polar cosine p.z / |p| and the azimuth of p are read back into randoms; the azimuth
      as phi / 2 / pi. */
  function AzimuthRandomAsWritten(el: Elementary, p: Vec4): real
    requires Lawful(el)
  {
    AzimuthToUnitAsWritten(el, el.atan2(p.y, p.x))
  }

  /** The azimuth of p read back into a random in [0, 1). */
  function AzimuthRandom(el: Elementary, p: Vec4): real
    requires Lawful(el)
  {
    AzimuthToUnit(el, el.atan2(p.y, p.x))
  }

  /** k.z / |p|, the polar cosine of k measured with the length of p. */
  function ReadCosine(el: Elementary, k: Vec4, p: Vec4): real
    requires Lawful(el) && 0.0 < SpatialDot(p, p)
  {
    SqrtPositive(el, SpatialDot(p, p));
    k.z / el.sqrt(SpatialDot(p, p))
  }

  lemma UnitQuotient(z: real, r: real, d: real, c: real)
    requires 0.0 < r && r * r == d && z * z <= d && c * r == z
    ensures -1.0 <= c <= 1.0
  {
    if 1.0 < c {
      MulPosEq(c - 1.0, r, z - r);
      MulPosEq(z - r, z + r, z * z - r * r);
    } else if c < -1.0 {
      MulPosEq(-c - 1.0, r, -z - r);
      MulPosEq(-z - r, r - z, z * z - r * r);
    }
  }

  /** The polar cosine p.z / |p| of p: it lies in [-1, 1]. */
  function PolarCosine(el: Elementary, p: Vec4): (c: real)
    requires Lawful(el) && 0.0 < SpatialDot(p, p)
    ensures -1.0 <= c <= 1.0
  {
    var d := SpatialDot(p, p);
    SqrtPositive(el, d);
    var c := ReadCosine(el, p, p);
    assert c * el.sqrt(d) == p.z;
    assert p.z * p.z <= d by {
      Boosts.SquareNonNeg(p.x);
      Boosts.SquareNonNeg(p.y);
    }
    UnitQuotient(p.z, el.sqrt(d), d, c);
    c
  }

  /** The polar cosine p.z / |p| of p read back into a random. */
  function CosineRandom(el: Elementary, p: Vec4): real
    requires Lawful(el) && 0.0 < SpatialDot(p, p)
  {
    CosineToUnit(PolarCosine(el, p))
  }

  /** A momentum of energy e recoiling against p: the spatial part of p reversed. */
  function Opposite(e: real, p: Vec4): Vec4 {
    Vec4(e, -p.x, -p.y, -p.z)
  }

  lemma BackToBack(p: Vec4, e: real)
    ensures p.Plus(Opposite(e, p)) == AtRest(p.e + e)
  {}

  lemma LSquareAtRest(m: real)
    ensures LSquare(AtRest(m)) == m * m
  {}

  /** The recoiling momentum has the invariant of any vector with its energy and the spatial
      length of p. */
  lemma OppositeOnShell(p: Vec4, q: Vec4)
    requires SpatialDot(p, p) == SpatialDot(q, q)
    ensures LSquare(Opposite(q.e, p)) == LSquare(q)
  {}

  /** Both decay products at rest have the same spatial length. */
  lemma RestDecayMirror(el: Elementary, s: real, aa: real, bb: real)
    requires Lawful(el) && 0.0 < s && 0.0 <= Kaellen(s, aa, bb)
    ensures SpatialDot(RestDecay(el, s, bb, aa), RestDecay(el, s, bb, aa)) == SpatialDot(RestDecay(el, s, aa, bb), RestDecay(el, s, aa, bb))
  {
    RestDecayOnShell(el, s, aa, bb);
  }

  lemma PairOnShell(p1: Vec4, rest: Vec4, back: Vec4, aa: real, bb: real)
    requires p1.e == rest.e && SpatialDot(p1, p1) == SpatialDot(rest, rest)
    requires SpatialDot(back, back) == SpatialDot(rest, rest)
    requires LSquare(rest) == aa && LSquare(back) == bb
    ensures LSquare(p1) == aa && LSquare(Opposite(back.e, p1)) == bb
  {
    OppositeOnShell(p1, back);
  }

  /** The isotropic decay in the rest frame of the decaying system, for the masses m1, m2. */
  datatype TwoParticleCom = TwoParticleCom(m1: real, m2: real) {

    /** map for one event: p1 along the direction (2 r2 - 1, 2 pi r1), p2 opposite to it, the
        weight 1 / g. */
    function MapEvent(el: Elementary, x: ComInput): Decay
      requires Lawful(el) && Regular(x.s, m1, m2)
    {
      var p1 := TurnedDecay(el, x);
      Decay(p1, Opposite(DecayEnergy(el, x.s, Sq(m2), Sq(m1)), p1), 1.0 / DecayDensity(el, x.s, m1, m2))
    }

    /** map for one event as the source computes it: p1 and p2 start as zero vectors, the
        energies and the z component of p1 are written in place, then p1 is turned and the
        spatial part of p2 is set opposite to it. */
    method MapEventInPlace(el: Elementary, x: ComInput) returns (d: Decay)
      requires Lawful(el) && Regular(x.s, m1, m2)
      ensures d == MapEvent(el, x)
    {
      var p1, p2 := Zero, Zero;
      p1 := p1.(e := DecayEnergy(el, x.s, Sq(m1), Sq(m2)));
      p2 := p2.(e := DecayEnergy(el, x.s, Sq(m2), Sq(m1)));
      p1 := p1.(z := DecayMomentum(el, x.s, Sq(m1), Sq(m2)));
      p1 := RotateZY(el, p1, UnitToAzimuth(el, x.r1), UnitToCosine(x.r2));
      p2 := p2.(x := -p1.x, y := -p1.y, z := -p1.z);
      d := Decay(p1, p2, 1.0 / DecayDensity(el, x.s, m1, m2));
    }

    /** map for a batch; any event with s < 0 rejects the batch. */
    function Map(el: Elementary, xs: seq<ComInput>): (r: Result<seq<Decay>>)
      requires Lawful(el)
      requires forall i :: 0 <= i < |xs| && 0.0 <= xs[i].s ==> Regular(xs[i].s, m1, m2)
      ensures r.Err? <==> exists i :: 0 <= i < |xs| && xs[i].s < 0.0
      ensures r.Err? ==> r.error == NegativeInvariant
      ensures r.Ok? ==> |r.value| == |xs| && forall i :: 0 <= i < |xs| ==> r.value[i] == MapEvent(el, xs[i])
    {
      if exists i :: 0 <= i < |xs| && xs[i].s < 0.0 then Err(NegativeInvariant)
      else Ok(seq(|xs|, i requires 0 <= i < |xs| => MapEvent(el, xs[i])))
    }

    /** map_inverse for one event: s from the total momentum, the randoms from the direction
        of p1, and the density g. */
    function MapInverseEvent(el: Elementary, d: Decay): ComRandoms
      requires Lawful(el) && 0.0 < SpatialDot(d.p1, d.p1) && Regular(LSquare(d.p1.Plus(d.p2)), m1, m2)
    {
      var s := LSquare(d.p1.Plus(d.p2));
      ComRandoms(AzimuthRandom(el, d.p1), CosineRandom(el, d.p1), s, DecayDensity(el, s, m1, m2))
    }

    /** density(inputs, inverse=False): 1 / g at the invariant of the momenta' sum. */
    function Density(el: Elementary, d: Decay): real
      requires Lawful(el) && Regular(LSquare(d.p1.Plus(d.p2)), m1, m2)
    {
      1.0 / DecayDensity(el, LSquare(d.p1.Plus(d.p2)), m1, m2)
    }

    /** density(inputs, inverse=True): g at the given s. */
    function DensityInverse(el: Elementary, s: real): real
      requires Lawful(el) && Regular(s, m1, m2)
    {
      DecayDensity(el, s, m1, m2)
    }

    /** The first decay product: the rest decay turned to the direction of the randoms. */
    function TurnedDecay(el: Elementary, x: ComInput): Vec4
      requires Lawful(el) && Regular(x.s, m1, m2)
    {
      RotateZY(el, RestDecay(el, x.s, Sq(m1), Sq(m2)), UnitToAzimuth(el, x.r1), UnitToCosine(x.r2))
    }

    /** The decay products add up to the decaying system at rest, (sqrt s, 0, 0, 0). */
    lemma MapConserves(el: Elementary, x: ComInput)
      requires Lawful(el) && Regular(x.s, m1, m2)
      ensures MapEvent(el, x).p1.Plus(MapEvent(el, x).p2) == AtRest(el.sqrt(x.s))
      ensures LSquare(MapEvent(el, x).p1.Plus(MapEvent(el, x).p2)) == x.s
    {
      var aa, bb := Sq(m1), Sq(m2);
      var rest := RestDecay(el, x.s, aa, bb);
      RestDecayOnShell(el, x.s, aa, bb);
      RotationsKeepEnergy(el, rest, UnitToAzimuth(el, x.r1), UnitToCosine(x.r2));
      BackToBack(TurnedDecay(el, x), DecayEnergy(el, x.s, bb, aa));
      LSquareAtRest(el.sqrt(x.s));
    }

    /** For r2 in [0, 1] both decay products are on their mass shells. */
    lemma MapOnShell(el: Elementary, x: ComInput)
      requires Lawful(el) && Regular(x.s, m1, m2) && 0.0 <= x.r2 <= 1.0
      ensures LSquare(MapEvent(el, x).p1) == m1 * m1
      ensures LSquare(MapEvent(el, x).p2) == m2 * m2
    {
      var aa, bb := Sq(m1), Sq(m2);
      var p1 := TurnedDecay(el, x);
      var rest := RestDecay(el, x.s, aa, bb);
      RotateZYPreservesNorm(el, rest, UnitToAzimuth(el, x.r1), UnitToCosine(x.r2));
      RotationsKeepEnergy(el, rest, UnitToAzimuth(el, x.r1), UnitToCosine(x.r2));
      RestDecayOnShell(el, x.s, aa, bb);
      KaellenLaws(x.s, aa, bb);
      RestDecayOnShell(el, x.s, bb, aa);
      RestDecayMirror(el, x.s, aa, bb);
      PairOnShell(p1, rest, RestDecay(el, x.s, bb, aa), aa, bb);
    }

    /** The weight of map is positive and the reciprocal of the inverse density at s, and the
        forward density of the mapped momenta reproduces it. */
    lemma MapWeight(el: Elementary, x: ComInput)
      requires Lawful(el) && Regular(x.s, m1, m2)
      ensures LSquare(MapEvent(el, x).p1.Plus(MapEvent(el, x).p2)) == x.s
      ensures 0.0 < MapEvent(el, x).weight
      ensures MapEvent(el, x).weight * DensityInverse(el, x.s) == 1.0
      ensures Density(el, MapEvent(el, x)) == MapEvent(el, x).weight
    {
      MapConserves(el, x);
      var g := DecayDensity(el, x.s, m1, m2);
      QuotientPos(1.0, g);
      assert MapEvent(el, x).weight == 1.0 / g;
      assert (1.0 / g) * g == 1.0;
    }

    /** For randoms strictly inside the unit square map_inverse reads back the randoms, s and
        the density of the event. */
    lemma MapInverseRoundTrip(el: Elementary, x: ComInput)
      requires Lawful(el) && PolarLaws(el) && Regular(x.s, m1, m2)
      requires 0.0 <= x.r1 < 1.0 && 0.0 < x.r2 < 1.0
      ensures LSquare(MapEvent(el, x).p1.Plus(MapEvent(el, x).p2)) == x.s
      ensures 0.0 < SpatialDot(MapEvent(el, x).p1, MapEvent(el, x).p1)
      ensures MapInverseEvent(el, MapEvent(el, x)) == ComRandoms(x.r1, x.r2, x.s, DensityInverse(el, x.s))
    {
      MapConserves(el, x);
      DirectionRecovered(el, x.s, Sq(m1), Sq(m2), x.r1, x.r2, TurnedDecay(el, x));
    }

    /** Read back as phi / 2 / pi, the azimuth of a random r1 in (1/2, 1) gives r1 - 1, a
        negative number outside the unit interval. */
    lemma AzimuthAsWrittenShifts(el: Elementary, x: ComInput)
      requires Lawful(el) && PolarLaws(el) && Regular(x.s, m1, m2)
      requires 0.5 < x.r1 < 1.0 && 0.0 < x.r2 < 1.0
      ensures AzimuthRandomAsWritten(el, MapEvent(el, x).p1) == x.r1 - 1.0 < 0.0
    {
      DirectionRecovered(el, x.s, Sq(m1), Sq(m2), x.r1, x.r2, TurnedDecay(el, x));
    }
  }

  // ---------------------------------------------------------------------------------------
  // The LAB mapping

  /** One event of a LAB batch: the two randoms and the total momentum p0. */
  datatype LabInput = LabInput(r1: real, r2: real, p0: Vec4)

  /** What the inverse LAB mapping returns for one event: the randoms, p0 and the density. */
  datatype LabRandoms = LabRandoms(r1: real, r2: real, p0: Vec4, density: real)

  lemma DifferenceOfSum(a: Vec4, b: Vec4, c: Vec4)
    requires a == b.Plus(c)
    ensures a.Minus(b) == c && b.Plus(a.Minus(b)) == a
  {}

  /** The isotropic decay of a system of total momentum p0, boosted from its rest frame. */
  datatype TwoParticleLab = TwoParticleLab(m1: real, m2: real) {

    /** The COM mapping with the same masses. */
    function Com(): TwoParticleCom {
      TwoParticleCom(m1, m2)
    }

    /** The event at rest: the same randoms and s = p0^2. */
    function RestEvent(x: LabInput): ComInput {
      ComInput(x.r1, x.r2, LSquare(x.p0))
    }

    /** map for one event: p1 of the COM mapping boosted out of the rest frame of p0, p2 the
        rest of p0, the weight of the COM mapping at s = p0^2. */
    function MapEvent(el: Elementary, x: LabInput): Decay
      requires Lawful(el) && Regular(LSquare(x.p0), m1, m2) && 0.0 < x.p0.e
    {
      var d := Com().MapEvent(el, RestEvent(x));
      var p1 := Boost(el, d.p1, x.p0, false);
      Decay(p1, x.p0.Minus(p1), d.weight)
    }

    /** map for one event as the source computes it: p1 starts as a zero vector, its energy
        and z component are written in place, then it is turned and boosted along p0, and
        p2 = p0 - p1. */
    method MapEventInPlace(el: Elementary, x: LabInput) returns (d: Decay)
      requires Lawful(el) && Regular(LSquare(x.p0), m1, m2) && 0.0 < x.p0.e
      ensures d == MapEvent(el, x)
    {
      var s := LSquare(x.p0);
      var p1 := Zero;
      p1 := p1.(e := DecayEnergy(el, s, Sq(m1), Sq(m2)));
      p1 := p1.(z := DecayMomentum(el, s, Sq(m1), Sq(m2)));
      p1 := RotateZY(el, p1, UnitToAzimuth(el, x.r1), UnitToCosine(x.r2));
      p1 := Boost(el, p1, x.p0, false);
      d := Decay(p1, x.p0.Minus(p1), 1.0 / DecayDensity(el, s, m1, m2));
    }

    /** map for a batch; any event with p0^2 < 0 rejects the batch. */
    function Map(el: Elementary, xs: seq<LabInput>): (r: Result<seq<Decay>>)
      requires Lawful(el)
      requires forall i :: 0 <= i < |xs| && 0.0 <= LSquare(xs[i].p0) ==> Regular(LSquare(xs[i].p0), m1, m2) && 0.0 < xs[i].p0.e
      ensures r.Err? <==> exists i :: 0 <= i < |xs| && LSquare(xs[i].p0) < 0.0
      ensures r.Err? ==> r.error == NegativeInvariant
      ensures r.Ok? ==> |r.value| == |xs| && forall i :: 0 <= i < |xs| ==> r.value[i] == MapEvent(el, xs[i])
    {
      if exists i :: 0 <= i < |xs| && LSquare(xs[i].p0) < 0.0 then Err(NegativeInvariant)
      else Ok(seq(|xs|, i requires 0 <= i < |xs| => MapEvent(el, xs[i])))
    }

    /** map_inverse for one event: p1 boosted into the rest frame of p0 = p1 + p2, the randoms
        from its direction, p0 itself and the density at s = p0^2. */
    function MapInverseEvent(el: Elementary, d: Decay): LabRandoms
      requires Lawful(el) && Timelike(d.p1.Plus(d.p2)) && Regular(LSquare(d.p1.Plus(d.p2)), m1, m2)
      requires 0.0 < SpatialDot(Boost(el, d.p1, d.p1.Plus(d.p2), true), Boost(el, d.p1, d.p1.Plus(d.p2), true))
    {
      var p0 := d.p1.Plus(d.p2);
      var q := Boost(el, d.p1, p0, true);
      LabRandoms(AzimuthRandom(el, q), CosineRandom(el, q), p0, DecayDensity(el, LSquare(p0), m1, m2))
    }

    /** density(inputs, inverse=False): 1 / g at the invariant of the momenta' sum. */
    function Density(el: Elementary, d: Decay): real
      requires Lawful(el) && Regular(LSquare(d.p1.Plus(d.p2)), m1, m2)
    {
      1.0 / DecayDensity(el, LSquare(d.p1.Plus(d.p2)), m1, m2)
    }

    /** density(inputs, inverse=True): g at s = p0^2. */
    function DensityInverse(el: Elementary, p0: Vec4): real
      requires Lawful(el) && Regular(LSquare(p0), m1, m2)
    {
      DecayDensity(el, LSquare(p0), m1, m2)
    }

    /** The decay products add up to p0, and the second is the second decay product of the COM
        mapping boosted like the first. */
    lemma MapConserves(el: Elementary, x: LabInput)
      requires Lawful(el) && Regular(LSquare(x.p0), m1, m2) && 0.0 < x.p0.e
      ensures MapEvent(el, x).p1.Plus(MapEvent(el, x).p2) == x.p0
      ensures MapEvent(el, x).p2 == Boost(el, Com().MapEvent(el, RestEvent(x)).p2, x.p0, false)
    {
      var c := Com().MapEvent(el, RestEvent(x));
      Com().MapConserves(el, RestEvent(x));
      BoostAdditive(el, c.p1, c.p2, x.p0, false);
      BoostOutOfRestFrame(el, x.p0);
      DifferenceOfSum(x.p0, Boost(el, c.p1, x.p0, false), Boost(el, c.p2, x.p0, false));
    }

    /** For r2 in [0, 1] both decay products are on their mass shells. */
    lemma MapOnShell(el: Elementary, x: LabInput)
      requires Lawful(el) && Regular(LSquare(x.p0), m1, m2) && 0.0 < x.p0.e && 0.0 <= x.r2 <= 1.0
      ensures LSquare(MapEvent(el, x).p1) == m1 * m1
      ensures LSquare(MapEvent(el, x).p2) == m2 * m2
    {
      var c := Com().MapEvent(el, RestEvent(x));
      Com().MapOnShell(el, RestEvent(x));
      MapConserves(el, x);
      BoostPreservesLSquare(el, c.p1, x.p0, false);
      BoostPreservesLSquare(el, c.p2, x.p0, false);
    }

    /** The weight of map is positive and the reciprocal of the inverse density at p0, and the
        forward density of the mapped momenta reproduces it. */
    lemma MapWeight(el: Elementary, x: LabInput)
      requires Lawful(el) && Regular(LSquare(x.p0), m1, m2) && 0.0 < x.p0.e
      ensures MapEvent(el, x).p1.Plus(MapEvent(el, x).p2) == x.p0
      ensures 0.0 < MapEvent(el, x).weight
      ensures MapEvent(el, x).weight * DensityInverse(el, x.p0) == 1.0
      ensures Density(el, MapEvent(el, x)) == MapEvent(el, x).weight
    {
      MapConserves(el, x);
      Com().MapWeight(el, RestEvent(x));
    }

    /** For randoms strictly inside the unit square map_inverse reads back the randoms, p0 and
        the density of the event. */
    lemma MapInverseRoundTrip(el: Elementary, x: LabInput)
      requires Lawful(el) && PolarLaws(el) && Regular(LSquare(x.p0), m1, m2) && 0.0 < x.p0.e
      requires 0.0 <= x.r1 < 1.0 && 0.0 < x.r2 < 1.0
      ensures MapEvent(el, x).p1.Plus(MapEvent(el, x).p2) == x.p0
      ensures Boost(el, MapEvent(el, x).p1, x.p0, true) == Com().MapEvent(el, RestEvent(x)).p1
      ensures 0.0 < SpatialDot(Boost(el, MapEvent(el, x).p1, x.p0, true), Boost(el, MapEvent(el, x).p1, x.p0, true))
      ensures MapInverseEvent(el, MapEvent(el, x)) == LabRandoms(x.r1, x.r2, x.p0, DensityInverse(el, x.p0))
    {
      MapConserves(el, x);
      var c := Com().MapEvent(el, RestEvent(x));
      BoostRoundTrip(el, c.p1, x.p0, false);
      Com().MapInverseRoundTrip(el, RestEvent(x));
    }
  }

  lemma DecayMomentumPositive(el: Elementary, s: real, aa: real, bb: real)
    requires Lawful(el) && 0.0 < s && 0.0 < Kaellen(s, aa, bb)
    ensures 0.0 < DecayMomentum(el, s, aa, bb)
  {
    SqrtPositive(el, s);
    SqrtPositive(el, Kaellen(s, aa, bb));
    QuotientPos(el.sqrt(Kaellen(s, aa, bb)), 2.0 * el.sqrt(s));
  }

  lemma SinThetaPositive(el: Elementary, c: real)
    requires Lawful(el) && -1.0 < c < 1.0
    ensures 0.0 < el.sqrt(1.0 - c * c)
  {
    MulPosEq(1.0 - c, 1.0 + c, 1.0 - c * c);
    SqrtPositive(el, 1.0 - c * c);
  }

  lemma SinThetaNonNeg(el: Elementary, c: real)
    requires Lawful(el) && -1.0 <= c <= 1.0
    ensures 0.0 <= el.sqrt(1.0 - c * c)
  {
    MulNonNegEq(1.0 - c, 1.0 + c, 1.0 - c * c);
  }

  lemma CosineQuotient(v: real, c: real, l: real)
    requires 0.0 < v && l == v
    ensures (v * c) / l == c
  {}

  /** A momentum (e, 0, 0, v) along the z axis with v > 0, turned to the azimuth of r1 and
      the polar cosine c, has azimuth random r1 and z component v c. */
  lemma AxisTurnAzimuth(el: Elementary, e: real, v: real, r1: real, c: real, p1: Vec4)
    requires Lawful(el) && PolarLaws(el) && 0.0 < v
    requires 0.0 <= r1 < 1.0 && -1.0 < c < 1.0
    requires p1 == RotateZY(el, Vec4(e, 0.0, 0.0, v), UnitToAzimuth(el, r1), c)
    ensures p1.z == v * c
    ensures AzimuthRandom(el, p1) == r1
    ensures 0.5 < r1 ==> AzimuthRandomAsWritten(el, p1) == r1 - 1.0
  {
    RotateZYAxis(el, e, v, UnitToAzimuth(el, r1), c);
    var st := el.sqrt(1.0 - c * c);
    SinThetaPositive(el, c);
    MulPosEq(v, st, v * st);
    AzimuthRecovered(el, v * st, r1, p1.x, p1.y);
  }

  /** A momentum of length v > 0 and z component v c has polar cosine c. */
  lemma PolarCosineRead(el: Elementary, v: real, c: real, p1: Vec4)
    requires Lawful(el) && 0.0 < v && SpatialDot(p1, p1) == v * v && p1.z == v * c
    ensures 0.0 < SpatialDot(p1, p1) && PolarCosine(el, p1) == c
  {
    MulPosEq(v, v, v * v);
    SqrtOfSquare(el, v);
    CosineQuotient(v, c, el.sqrt(SpatialDot(p1, p1)));
  }

  /** A momentum p with p^2 > 0 in its spatial part is rebuilt from its energy, its length
      and its angles: (E, 0, 0, |p|) turned to the azimuth atan2(p.y, p.x) and to the polar
      cosine p.z / |p| is p. */
  lemma AxisRebuilt(el: Elementary, p: Vec4)
    requires Lawful(el) && PolarLaws(el) && 0.0 < SpatialDot(p, p)
    ensures RotateZY(el, Vec4(p.e, 0.0, 0.0, el.sqrt(SpatialDot(p, p))), el.atan2(p.y, p.x), PolarCosine(el, p)) == p
  {
    PolarCosineScaled(el, p);
    AxisTurnedTo(el, p, el.sqrt(SpatialDot(p, p)), PolarCosine(el, p));
  }

  /** (E, 0, 0, v) turned to the azimuth of p and to the cosine c is p when v is the length
      of p and v c its z component. */
  lemma AxisTurnedTo(el: Elementary, p: Vec4, v: real, c: real)
    requires Lawful(el) && PolarLaws(el) && 0.0 <= v && v * v == SpatialDot(p, p)
    requires -1.0 <= c <= 1.0 && v * c == p.z
    ensures RotateZY(el, Vec4(p.e, 0.0, 0.0, v), el.atan2(p.y, p.x), c) == p
  {
    SinTheta(el, c);
    SinThetaNonNeg(el, c);
    TransverseLength(v, c, el.sqrt(1.0 - c * c), p.z, SpatialDot(p, p), TransverseSquare(p));
    MulNonNegEq(v, el.sqrt(1.0 - c * c), v * el.sqrt(1.0 - c * c));
    AtanDirection(el, v * el.sqrt(1.0 - c * c), p.x, p.y);
    RotateZYAxis(el, p.e, v, el.atan2(p.y, p.x), c);
  }

  /** The polar cosine times the length is the z component. */
  lemma PolarCosineScaled(el: Elementary, p: Vec4)
    requires Lawful(el) && 0.0 < SpatialDot(p, p)
    ensures 0.0 < el.sqrt(SpatialDot(p, p)) && el.sqrt(SpatialDot(p, p)) * el.sqrt(SpatialDot(p, p)) == SpatialDot(p, p)
    ensures el.sqrt(SpatialDot(p, p)) * PolarCosine(el, p) == p.z
  {
    SqrtPositive(el, SpatialDot(p, p));
  }

  /** A vector of length v, z component v c and sin(theta) st has the transverse length v st. */
  lemma TransverseLength(v: real, c: real, st: real, z: real, d: real, t: real)
    requires v * v == d && v * c == z && c * c + st * st == 1.0 && t == d - z * z
    ensures (v * st) * (v * st) == t
  {
    assert (v * st) * (v * st) == (v * v) * (st * st);
    assert (v * c) * (v * c) == (v * v) * (c * c);
  }

  /** The squared length of the transverse part (p.x, p.y). */
  function TransverseSquare(p: Vec4): real { p.x * p.x + p.y * p.y }

  /** The momentum of the rest decay, turned to the azimuth of a random r1 in [0, 1) and to a
      polar cosine c in (-1, 1), has its azimuth read back by AzimuthRandom and its cosine by
      PolarCosine. */
  lemma DirectionRead(el: Elementary, s: real, aa: real, bb: real, r1: real, c: real, p1: Vec4)
    requires Lawful(el) && PolarLaws(el) && 0.0 < s && 0.0 < Kaellen(s, aa, bb)
    requires 0.0 <= r1 < 1.0 && -1.0 < c < 1.0
    requires p1 == RotateZY(el, RestDecay(el, s, aa, bb), UnitToAzimuth(el, r1), c)
    ensures 0.0 < SpatialDot(p1, p1)
    ensures SpatialDot(p1, p1) == SpatialDot(RestDecay(el, s, aa, bb), RestDecay(el, s, aa, bb))
    ensures AzimuthRandom(el, p1) == r1 && PolarCosine(el, p1) == c
    ensures 0.5 < r1 ==> AzimuthRandomAsWritten(el, p1) == r1 - 1.0
  {
    var e, v := DecayEnergy(el, s, aa, bb), DecayMomentum(el, s, aa, bb);
    DecayMomentumPositive(el, s, aa, bb);
    assert RestDecay(el, s, aa, bb) == Vec4(e, 0.0, 0.0, v);
    RotateZYPreservesNorm(el, Vec4(e, 0.0, 0.0, v), UnitToAzimuth(el, r1), c);
    AxisTurnAzimuth(el, e, v, r1, c, p1);
    PolarCosineRead(el, v, c, p1);
  }

  /** The momentum of the rest decay, turned to the direction of the randoms r1 in [0, 1) and
      r2 in (0, 1), has its randoms read back by AzimuthRandom and CosineRandom. */
  lemma DirectionRecovered(el: Elementary, s: real, aa: real, bb: real, r1: real, r2: real, p1: Vec4)
    requires Lawful(el) && PolarLaws(el) && 0.0 < s && 0.0 < Kaellen(s, aa, bb)
    requires 0.0 <= r1 < 1.0 && 0.0 < r2 < 1.0
    requires p1 == RotateZY(el, RestDecay(el, s, aa, bb), UnitToAzimuth(el, r1), UnitToCosine(r2))
    ensures 0.0 < SpatialDot(p1, p1)
    ensures AzimuthRandom(el, p1) == r1 && CosineRandom(el, p1) == r2
    ensures 0.5 < r1 ==> AzimuthRandomAsWritten(el, p1) == r1 - 1.0
  {
    DirectionRead(el, s, aa, bb, r1, UnitToCosine(r2), p1);
    AnglesFromUnits(el, r1, r2, UnitToCosine(r2));
  }
}
