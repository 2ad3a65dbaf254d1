/** The kinematics kernel: Minkowski products, mass, the Källén function, the numerically
    stable Lorentz boost, the beam-axis boost, the spherical rotation and its inverse, and the
    closed-form phase-space density factors. Every operation acts on one batch element. */
module Kinematics {
  import opened Elementary

  /** A four-momentum (E, px, py, pz): one batch element of a tensor whose last axis has size 4. */
  datatype Vec4 = Vec4(e: real, x: real, y: real, z: real) {
    function Plus(o: Vec4): Vec4 { Vec4(e + o.e, x + o.x, y + o.y, z + o.z) }
    function Minus(o: Vec4): Vec4 { Vec4(e - o.e, x - o.x, y - o.y, z - o.z) }
    function Scale(c: real): Vec4 { Vec4(c * e, c * x, c * y, c * z) }
    /** The four components, in the order of the last tensor axis. */
    function Components(): seq<real> { [e, x, y, z] }
    /** The slice k[..., 1:]. */
    function Spatial(): seq<real> { [x, y, z] }
  }

  const Zero: Vec4 := Vec4(0.0, 0.0, 0.0, 0.0)

  /** A vector at rest with energy m: (m, 0, 0, 0). */
  function AtRest(m: real): Vec4 { Vec4(m, 0.0, 0.0, 0.0) }

  /** The metric diag(1, -1, -1, -1) applied to a vector, MINKOWSKI times b. */
  function Lower(b: Vec4): Vec4 { Vec4(b.e, -b.x, -b.y, -b.z) }

  /** Euclidean inner product over the last axis, for vectors of any length. */
  function EDot(a: seq<real>, b: seq<real>): real
    requires |a| == |b|
    decreases |a|
  {
    if |a| == 0 then 0.0 else a[0] * b[0] + EDot(a[1..], b[1..])
  }

  /** Euclidean square over the last axis. */
  function ESquare(a: seq<real>): real { EDot(a, a) }

  /** The Euclidean product of the spatial parts, edot(k[..., 1:], p[..., 1:]). */
  function SpatialDot(k: Vec4, p: Vec4): real {
    k.x * p.x + k.y * p.y + k.z * p.z
  }

  /** The Lorentz inner product with the metric diag(1, -1, -1, -1). */
  function LDot(a: Vec4, b: Vec4): real {
    a.e * b.e - SpatialDot(a, b)
  }

  /** The Lorentz invariant a^2 = E^2 - |p|^2. */
  function LSquare(a: Vec4): real {
    LDot(a, a)
  }

  function Abs(x: real): real { if x < 0.0 then -x else x }

  /** The square m^2 of a mass, kept as one term so that it can be passed on as an argument. */
  function Sq(m: real): real { m * m }

  /** The mass sqrt(|a^2|). */
  function Mass(el: Elementary, a: Vec4): (m: real)
    requires Lawful(el)
    ensures 0.0 <= m && m * m == Abs(LSquare(a))
  {
    el.sqrt(Abs(LSquare(a)))
  }

  /** The Källén triangle function a^2 + b^2 + c^2 - 2ab - 2bc - 2ca. */
  function Kaellen(a: real, b: real, c: real): real {
    a * a + b * b + c * c - 2.0 * a * b - 2.0 * b * c - 2.0 * c * a
  }

  /** A frame vector the boost can use: positive invariant mass and positive energy. */
  ghost predicate Timelike(p: Vec4) { 0.0 < LSquare(p) && 0.0 < p.e }

  function Sign(inverse: bool): real { if inverse then -1.0 else 1.0 }

  /** The boosted energy k0 = (E p0 + sign k.p) / M for a frame vector p of mass M. */
  function BoostEnergy(k: Vec4, p: Vec4, m: real, sign: real): real
    requires 0.0 < m
  {
    (k.e * p.e + sign * SpatialDot(k, p)) / m
  }

  /** The shared spatial coefficient c1 = (E + k0) / (M + p0). */
  function BoostCoef(k: Vec4, p: Vec4, m: real, sign: real): real
    requires 0.0 < m && 0.0 < m + p.e
  {
    (k.e + BoostEnergy(k, p, m, sign)) / (m + p.e)
  }

  /** The boost for a frame vector p whose mass M is already known: (k0, k + sign c1 p). */
  function BoostBy(k: Vec4, p: Vec4, m: real, sign: real): Vec4
    requires 0.0 < m && 0.0 < m + p.e
  {
    var c1 := BoostCoef(k, p, m, sign);
    Vec4(BoostEnergy(k, p, m, sign), k.x + sign * c1 * p.x, k.y + sign * c1 * p.y, k.z + sign * c1 * p.z)
  }

  /** Boosts k into the frame of p (inverse) or out of it (forward), with M = sqrt(p^2). */
  function Boost(el: Elementary, k: Vec4, p: Vec4, inverse: bool): Vec4
    requires Lawful(el) && Timelike(p)
  {
    SqrtPositive(el, LSquare(p));
    BoostBy(k, p, el.sqrt(LSquare(p)), Sign(inverse))
  }

  /** Boosts q along the beam (z) axis with the given rapidity. */
  function BoostBeam(el: Elementary, q: Vec4, rapidity: real, inverse: bool): Vec4 {
    var sign := Sign(inverse);
    Vec4(q.e * el.cosh(rapidity) + sign * q.z * el.sinh(rapidity),
         q.x,
         q.y,
         q.z * el.cosh(rapidity) + sign * q.e * el.sinh(rapidity))
  }

  /** R_z(phi) R_y(theta) p, with sin(theta) = sqrt(1 - cos(theta)^2). */
  function RotateZY(el: Elementary, p: Vec4, phi: real, costheta: real): Vec4 {
    var sintheta := el.sqrt(1.0 - costheta * costheta);
    Vec4(p.e,
         p.x * costheta * el.cos(phi) + p.z * sintheta * el.cos(phi) - p.y * el.sin(phi),
         p.x * costheta * el.sin(phi) + p.z * sintheta * el.sin(phi) + p.y * el.cos(phi),
         p.z * costheta - p.x * sintheta)
  }

  /** R_y(-theta) R_z(-phi) p, the inverse rotation. */
  function InvRotateZY(el: Elementary, p: Vec4, phi: real, costheta: real): Vec4 {
    var sintheta := el.sqrt(1.0 - costheta * costheta);
    Vec4(p.e,
         p.x * costheta * el.cos(phi) + p.y * costheta * el.sin(phi) - p.z * sintheta,
         p.y * el.cos(phi) - p.x * el.sin(phi),
         p.z * costheta + p.x * sintheta * el.cos(phi) + p.y * sintheta * el.sin(phi))
  }

  /** Energy q0 and the direction (costheta, phi) as one four-momentum. */
  function MapFourvectorRamboDiet(el: Elementary, q0: real, costheta: real, phi: real): Vec4 {
    Vec4(q0,
         q0 * el.sqrt(1.0 - costheta * costheta) * el.cos(phi),
         q0 * el.sqrt(1.0 - costheta * costheta) * el.sin(phi),
         q0 * costheta)
  }

  /** A uniform random in [0, 1] as a cosine in [-1, 1]. */
  function UnitToCosine(r: real): (c: real)
    ensures 0.0 <= r <= 1.0 <==> -1.0 <= c <= 1.0
  {
    2.0 * r - 1.0
  }

  /** The azimuth 2 pi r of a uniform random r. */
  function UnitToAzimuth(el: Elementary, r: real): real {
    2.0 * el.pi * r
  }

  /** Four uniform randoms as one massless four-momentum: energy -log(r2 r3) in the direction
      cos(theta) = 2 r0 - 1, phi = 2 pi r1, with the same components as map_fourvector_rambo_diet. */
  function MapFourvectorRambo(el: Elementary, r0: real, r1: real, r2: real, r3: real): Vec4 {
    MapFourvectorRamboDiet(el, -el.log(r2 * r3), UnitToCosine(r0), UnitToAzimuth(el, r1))
  }

  /** The two-particle phase-space density 8 s / sqrt(lambda(s, m1^2, m2^2)). */
  function TwoParticleDensity(el: Elementary, s: real, m1: real, m2: real): (g: real)
    requires Lawful(el) && 0.0 < Kaellen(s, m1 * m1, m2 * m2)
    ensures g * el.sqrt(Kaellen(s, m1 * m1, m2 * m2)) == 8.0 * s
    ensures 0.0 < s ==> 0.0 < g
  {
    var l := Kaellen(s, m1 * m1, m2 * m2);
    SqrtPositive(el, l);
    var g := (8.0 * s) / el.sqrt(l);
    assert g * el.sqrt(l) == 8.0 * s;
    assert 0.0 < s ==> 0.0 < g by {
      if 0.0 < s && g <= 0.0 {
        MulNonPos(g, el.sqrt(l));
      }
    }
    g
  }

  /** The t-channel two-particle density 4 sqrt(lambda(s, p1^2, p2^2)). */
  function TinvTwoParticleDensity(el: Elementary, s: real, p1sq: real, p2sq: real): (g: real)
    requires Lawful(el)
    ensures 0.0 <= Kaellen(s, p1sq, p2sq) ==> 0.0 <= g && g * g == 16.0 * Kaellen(s, p1sq, p2sq)
  {
    4.0 * el.sqrt(Kaellen(s, p1sq, p2sq))
  }

  /** The two-body decay factor of the recursive n-body phase space,
      sqrt((M^2 - (Mi + mi)^2) (M^2 - (Mi - mi)^2)) / (8 M^2). */
  function TwoBodyDecayFactor(el: Elementary, mPrev: real, mNext: real, mOut: real): real
    requires mPrev != 0.0
  {
    1.0 / (8.0 * mPrev * mPrev)
      * el.sqrt((mPrev * mPrev - (mNext + mOut) * (mNext + mOut))
                * (mPrev * mPrev - (mNext - mOut) * (mNext - mOut)))
  }

  // ---------------------------------------------------------------------------------------
  // Invariant products and the Källén function

  /** The spatial product is the Euclidean product of the spatial slices. */
  lemma SpatialDotIsEDot(k: Vec4, p: Vec4)
    ensures SpatialDot(k, p) == EDot(k.Spatial(), p.Spatial())
  {
    var a, b := k.Spatial(), p.Spatial();
    assert EDot(a[2..], b[2..]) == k.z * p.z by {
      assert a[2..][1..] == [] && b[2..][1..] == [];
    }
    assert EDot(a[1..], b[1..]) == k.y * p.y + k.z * p.z by {
      assert a[1..][1..] == a[2..] && b[1..][1..] == b[2..];
    }
  }

  /** The Lorentz product is the Euclidean product of a with MINKOWSKI b, as the einsum
      over the metric computes it; esquare of a vector is its Euclidean product with itself. */
  lemma LDotIsMetricContraction(a: Vec4, b: Vec4)
    ensures LDot(a, b) == EDot(a.Components(), Lower(b).Components())
    ensures LSquare(a) == EDot(a.Components(), Lower(a).Components())
    ensures ESquare(a.Components()) == a.e * a.e + SpatialDot(a, a)
  {
    var u, v := a.Components(), Lower(b).Components();
    assert u[1..] == a.Spatial() && v[1..] == Lower(b).Spatial();
    SpatialDotIsEDot(a, Lower(b));
    var w := Lower(a).Components();
    assert w[1..] == Lower(a).Spatial();
    SpatialDotIsEDot(a, Lower(a));
    assert u[1..] == a.Spatial();
    SpatialDotIsEDot(a, a);
  }

  /** The Lorentz product is symmetric and contracts a vector with itself to its square. */
  lemma LDotSymmetric(a: Vec4, b: Vec4)
    ensures LDot(a, b) == LDot(b, a)
    ensures LDot(a, a) == LSquare(a)
  {}

  /** The Källén function is symmetric in all three arguments, has the factored form
      (a - b - c)^2 - 4 b c, and reduces to a^2 when both other arguments vanish. */
  lemma KaellenLaws(a: real, b: real, c: real)
    ensures Kaellen(a, b, c) == Kaellen(b, a, c) == Kaellen(a, c, b) == Kaellen(c, b, a)
    ensures Kaellen(a, b, c) == (a - b - c) * (a - b - c) - 4.0 * b * c
    ensures Kaellen(a, 0.0, 0.0) == a * a
  {}

  /** Energy and momentum of the two-body decay at rest: with E1 = (s + m1^2 - m2^2) / (2 sqrt s),
      E1^2 minus lambda(s, m1^2, m2^2) / (4 s) is m1^2, because
      (s + m1^2 - m2^2)^2 - lambda(s, m1^2, m2^2) = 4 s m1^2. */
  lemma KaellenOnShell(s: real, m1sq: real, m2sq: real)
    ensures (s + m1sq - m2sq) * (s + m1sq - m2sq) - Kaellen(s, m1sq, m2sq) == 4.0 * s * m1sq
  {}

  lemma MulNonPos(g: real, r: real)
    requires g <= 0.0 && 0.0 < r
    ensures g * r <= 0.0
  {}

  lemma MulCancel(a: real, b: real, m: real)
    requires m != 0.0 && a * m == b * m
    ensures a == b
  {
    assert (a - b) * m == 0.0;
  }
}
