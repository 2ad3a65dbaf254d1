/** Laws of the numerically stable Lorentz boost: it takes a frame vector to rest and back,
    it is linear, it keeps the invariant square, the inverse boost undoes the forward one, and
    it keeps future-pointing timelike vectors future-pointing. Each law is first shown for
    BoostBy with a known frame mass and then lifted to Boost. */
module Boosts {
  import opened Elementary
  import opened Kinematics

  /** m is the mass of the frame vector p: m > 0, m^2 = p^2 and p0 > 0. */
  ghost predicate FrameMass(p: Vec4, m: real) {
    0.0 < m && m * m == LSquare(p) && 0.0 < p.e
  }

  /** A timelike frame vector has mass sqrt(p^2). */
  lemma FrameOf(el: Elementary, p: Vec4)
    requires Lawful(el) && Timelike(p)
    ensures FrameMass(p, el.sqrt(LSquare(p)))
  {
    SqrtPositive(el, LSquare(p));
  }

  // ---------------------------------------------------------------------------------------
  // Scalar steps

  lemma DivLaw(n: real, m: real, q: real)
    requires m != 0.0 && q == n / m
    ensures q * m == n
  {}

  lemma CancelTo(a: real, b: real, m: real, lhs: real, rhs: real)
    requires m != 0.0 && a * m == lhs && b * m == rhs && lhs == rhs
    ensures a == b
  {
    MulCancel(a, b, m);
  }

  lemma EnergyLaw(k: Vec4, p: Vec4, m: real, sign: real)
    requires 0.0 < m
    ensures BoostEnergy(k, p, m, sign) * m == k.e * p.e + sign * SpatialDot(k, p)
  {
    DivLaw(k.e * p.e + sign * SpatialDot(k, p), m, BoostEnergy(k, p, m, sign));
  }

  lemma CoefLaw(k: Vec4, p: Vec4, m: real, sign: real)
    requires 0.0 < m && 0.0 < m + p.e
    ensures BoostCoef(k, p, m, sign) * (m + p.e) == k.e + BoostEnergy(k, p, m, sign)
  {
    DivLaw(k.e + BoostEnergy(k, p, m, sign), m + p.e, BoostCoef(k, p, m, sign));
  }

  lemma AddCore(ek: real, el: real, qk: real, ql: real, p0: real, s: real, m: real, rk: real, rl: real, rs: real)
    requires m != 0.0
    requires rk * m == ek * p0 + s * qk && rl * m == el * p0 + s * ql
    requires rs * m == (ek + el) * p0 + s * (qk + ql)
    ensures rs == rk + rl
  {
    MulCancel(rs, rk + rl, m);
  }

  lemma ScaleCore(a: real, ek: real, qk: real, ea: real, qa: real, p0: real, s: real, m: real, rk: real, ra: real)
    requires m != 0.0 && ea == a * ek && qa == a * qk
    requires rk * m == ek * p0 + s * qk
    requires ra * m == ea * p0 + s * qa
    ensures ra == a * rk
  {
    assert (a * rk) * m == a * (rk * m);
    MulCancel(ra, a * rk, m);
  }

  lemma ScaleShift(a: real, kx: real, kax: real, s: real, c: real, ca: real, px: real, l: real, r: real)
    requires ca == a * c && kax == a * kx && l == kax + s * ca * px && r == kx + s * c * px
    ensures l == a * r
  {}

  lemma ScaledBy(u: Vec4, v: Vec4, a: real)
    requires u.e == a * v.e && u.x == a * v.x && u.y == a * v.y && u.z == a * v.z
    ensures u == v.Scale(a)
  {}

  /** E1^2 - E^2 = 2 s c (k.p) + c^2 |p|^2 when E1 m = E p0 + s (k.p) and c (m + p0) = E + E1. */
  lemma InvarianceCore(e: real, e1: real, q: real, pp: real, p0: real, m: real, c: real, s: real)
    requires s * s == 1.0 && 0.0 < m
    requires m * m == p0 * p0 - pp
    requires e1 * m == e * p0 + s * q
    requires c * (m + p0) == e + e1
    ensures e1 * e1 - e * e == 2.0 * s * c * q + c * c * pp
  {
    assert pp == (p0 - m) * (p0 + m);
    assert c * c * pp == c * (e + e1) * (p0 - m);
    assert s * q == e1 * m - e * p0;
    assert 2.0 * s * c * q == 2.0 * c * (e1 * m - e * p0);
    assert (e1 - e) * (e1 + e) == (e1 - e) * c * (m + p0);
  }

  lemma ShiftSquare(v: Vec4, k: Vec4, p: Vec4, t: real)
    requires v.x == k.x + t * p.x && v.y == k.y + t * p.y && v.z == k.z + t * p.z
    ensures SpatialDot(v, v) == SpatialDot(k, k) + 2.0 * t * SpatialDot(k, p) + t * t * SpatialDot(p, p)
  {}

  lemma ShiftDot(v: Vec4, k: Vec4, p: Vec4, t: real)
    requires v.x == k.x + t * p.x && v.y == k.y + t * p.y && v.z == k.z + t * p.z
    ensures SpatialDot(v, p) == SpatialDot(k, p) + t * SpatialDot(p, p)
  {}

  lemma SignSquare(s: real, c: real)
    requires s * s == 1.0
    ensures (s * c) * (s * c) == c * c
  {
    assert (s * c) * (s * c) == (s * s) * (c * c);
  }

  /** The energy of the inverse boost of the forward boost is the original energy. */
  lemma RoundTripCore(e: real, e1: real, e2: real, q: real, q1: real, pp: real, p0: real, m: real, c: real, s: real)
    requires s * s == 1.0 && 0.0 < m
    requires m * m == p0 * p0 - pp
    requires e1 * m == e * p0 + s * q
    requires c * (m + p0) == e + e1
    requires e2 * m == e1 * p0 + (-s) * q1 && q1 == q + s * c * pp
    ensures e2 == e
  {
    assert pp == (p0 - m) * (p0 + m);
    assert c * pp == (e + e1) * (p0 - m);
    assert (-s) * q1 == -(s * q) - (s * s) * (c * pp);
    assert e2 * m == e1 * p0 - s * q - c * pp;
    assert e2 * m == e * m;
    MulCancel(e2, e, m);
  }

  lemma SquareNonNeg(u: real)
    ensures 0.0 <= u * u
  {
    if u < 0.0 {
      assert u * u == (-u) * (-u);
    }
  }

  lemma SquareMono(u: real, v: real)
    requires 0.0 <= u <= v
    ensures u * u <= v * v
  {
    assert v * v - u * u == (v - u) * (v + u);
  }

  lemma MulMono(u: real, v: real, w: real)
    requires 0.0 <= w && u <= v
    ensures u * w <= v * w
  {
    assert v * w - u * w == (v - u) * w;
  }

  /** Lagrange's identity in three dimensions. */
  lemma Lagrange(kx: real, ky: real, kz: real, px: real, py: real, pz: real)
    ensures (kx * kx + ky * ky + kz * kz) * (px * px + py * py + pz * pz)
            - (kx * px + ky * py + kz * pz) * (kx * px + ky * py + kz * pz)
         == (kx * py - ky * px) * (kx * py - ky * px) + (ky * pz - kz * py) * (ky * pz - kz * py)
            + (kz * px - kx * pz) * (kz * px - kx * pz)
  {}

  lemma SelfDotNonNeg(k: Vec4)
    ensures 0.0 <= SpatialDot(k, k)
  {
    SquareNonNeg(k.x);
    SquareNonNeg(k.y);
    SquareNonNeg(k.z);
  }

  lemma CauchySchwarzCore(kx: real, ky: real, kz: real, px: real, py: real, pz: real)
    ensures (kx * px + ky * py + kz * pz) * (kx * px + ky * py + kz * pz)
         <= (kx * kx + ky * ky + kz * kz) * (px * px + py * py + pz * pz)
  {
    Lagrange(kx, ky, kz, px, py, pz);
    SquareNonNeg(kx * py - ky * px);
    SquareNonNeg(ky * pz - kz * py);
    SquareNonNeg(kz * px - kx * pz);
  }

  /** Cauchy-Schwarz: (k.p)^2 <= |k|^2 |p|^2. */
  lemma CauchySchwarz(k: Vec4, p: Vec4)
    ensures SpatialDot(k, p) * SpatialDot(k, p) <= SpatialDot(k, k) * SpatialDot(p, p)
  {
    CauchySchwarzCore(k.x, k.y, k.z, p.x, p.y, p.z);
  }

  /** With a, b > 0, x < a^2, y < b^2, x, y >= 0 and d^2 <= x y: |d| < a b. */
  lemma DominatesCore(a: real, b: real, x: real, y: real, d: real)
    requires 0.0 < a && 0.0 < b && 0.0 <= x && 0.0 <= y
    requires x < a * a && y < b * b && d * d <= x * y
    ensures -d < a * b && d < a * b
  {
    MulMono(y, b * b, x);
    MulMono(x, a * a, b * b);
    assert (a * a) * (b * b) == (a * b) * (a * b);
    MulPos(a, b);
    MulPos(a * a - x, b * b);
    if a * b <= d {
      SquareMono(a * b, d);
    }
    if a * b <= -d {
      SquareMono(a * b, -d);
    }
  }

  // ---------------------------------------------------------------------------------------
  // The boost with a known frame mass

  lemma ByIntoRest(k: Vec4, m: real)
    requires FrameMass(k, m)
    ensures BoostBy(k, k, m, -1.0) == AtRest(m)
  {
    EnergyLaw(k, k, m, -1.0);
    CancelTo(BoostEnergy(k, k, m, -1.0), m, m, k.e * k.e + -1.0 * SpatialDot(k, k), LSquare(k));
    CoefLaw(k, k, m, -1.0);
    CancelTo(BoostCoef(k, k, m, -1.0), 1.0, m + k.e, k.e + BoostEnergy(k, k, m, -1.0), m + k.e);
  }

  lemma ByOutOfRest(p: Vec4, m: real)
    requires FrameMass(p, m)
    ensures BoostBy(AtRest(m), p, m, 1.0) == p
  {
    assert SpatialDot(AtRest(m), p) == 0.0;
    EnergyLaw(AtRest(m), p, m, 1.0);
    CancelTo(BoostEnergy(AtRest(m), p, m, 1.0), p.e, m, m * p.e + 1.0 * 0.0, p.e * m);
    CoefLaw(AtRest(m), p, m, 1.0);
    CancelTo(BoostCoef(AtRest(m), p, m, 1.0), 1.0, m + p.e, m + BoostEnergy(AtRest(m), p, m, 1.0), m + p.e);
  }

  lemma EnergyAdditive(k: Vec4, l: Vec4, p: Vec4, m: real, sign: real)
    requires 0.0 < m
    ensures BoostEnergy(k.Plus(l), p, m, sign) == BoostEnergy(k, p, m, sign) + BoostEnergy(l, p, m, sign)
  {
    EnergyLaw(k, p, m, sign);
    EnergyLaw(l, p, m, sign);
    EnergyLaw(k.Plus(l), p, m, sign);
    assert SpatialDot(k.Plus(l), p) == SpatialDot(k, p) + SpatialDot(l, p);
    AddCore(k.e, l.e, SpatialDot(k, p), SpatialDot(l, p), p.e, sign, m,
      BoostEnergy(k, p, m, sign), BoostEnergy(l, p, m, sign), BoostEnergy(k.Plus(l), p, m, sign));
  }

  lemma CoefAdditive(k: Vec4, l: Vec4, p: Vec4, m: real, sign: real)
    requires 0.0 < m && 0.0 < m + p.e
    ensures BoostCoef(k.Plus(l), p, m, sign) == BoostCoef(k, p, m, sign) + BoostCoef(l, p, m, sign)
  {
    CoefLaw(k, p, m, sign);
    CoefLaw(l, p, m, sign);
    CoefLaw(k.Plus(l), p, m, sign);
    EnergyAdditive(k, l, p, m, sign);
    AddCore(k.e, l.e, BoostEnergy(k, p, m, sign), BoostEnergy(l, p, m, sign), 1.0, 1.0, m + p.e,
      BoostCoef(k, p, m, sign), BoostCoef(l, p, m, sign), BoostCoef(k.Plus(l), p, m, sign));
  }

  lemma AddShift(kx: real, lx: real, sx: real, s: real, ck: real, cl: real, cs: real, px: real, rk: real, rl: real, rs: real)
    requires cs == ck + cl && sx == kx + lx
    requires rk == kx + s * ck * px && rl == lx + s * cl * px && rs == sx + s * cs * px
    ensures rs == rk + rl
  {}

  lemma Summed(u: Vec4, v: Vec4, w: Vec4)
    requires u.e == v.e + w.e && u.x == v.x + w.x && u.y == v.y + w.y && u.z == v.z + w.z
    ensures u == v.Plus(w)
  {}

  lemma AdditiveX(k: Vec4, l: Vec4, p: Vec4, m: real, sign: real)
    requires 0.0 < m && 0.0 < m + p.e
    ensures BoostBy(k.Plus(l), p, m, sign).x == BoostBy(k, p, m, sign).x + BoostBy(l, p, m, sign).x
  {
    CoefAdditive(k, l, p, m, sign);
    AddShift(k.x, l.x, k.Plus(l).x, sign, BoostCoef(k, p, m, sign), BoostCoef(l, p, m, sign), BoostCoef(k.Plus(l), p, m, sign), p.x,
      BoostBy(k, p, m, sign).x, BoostBy(l, p, m, sign).x, BoostBy(k.Plus(l), p, m, sign).x);
  }

  lemma AdditiveY(k: Vec4, l: Vec4, p: Vec4, m: real, sign: real)
    requires 0.0 < m && 0.0 < m + p.e
    ensures BoostBy(k.Plus(l), p, m, sign).y == BoostBy(k, p, m, sign).y + BoostBy(l, p, m, sign).y
  {
    CoefAdditive(k, l, p, m, sign);
    AddShift(k.y, l.y, k.Plus(l).y, sign, BoostCoef(k, p, m, sign), BoostCoef(l, p, m, sign), BoostCoef(k.Plus(l), p, m, sign), p.y,
      BoostBy(k, p, m, sign).y, BoostBy(l, p, m, sign).y, BoostBy(k.Plus(l), p, m, sign).y);
  }

  lemma AdditiveZ(k: Vec4, l: Vec4, p: Vec4, m: real, sign: real)
    requires 0.0 < m && 0.0 < m + p.e
    ensures BoostBy(k.Plus(l), p, m, sign).z == BoostBy(k, p, m, sign).z + BoostBy(l, p, m, sign).z
  {
    CoefAdditive(k, l, p, m, sign);
    AddShift(k.z, l.z, k.Plus(l).z, sign, BoostCoef(k, p, m, sign), BoostCoef(l, p, m, sign), BoostCoef(k.Plus(l), p, m, sign), p.z,
      BoostBy(k, p, m, sign).z, BoostBy(l, p, m, sign).z, BoostBy(k.Plus(l), p, m, sign).z);
  }

  lemma ByAdditive(k: Vec4, l: Vec4, p: Vec4, m: real, sign: real)
    requires 0.0 < m && 0.0 < m + p.e
    ensures BoostBy(k.Plus(l), p, m, sign) == BoostBy(k, p, m, sign).Plus(BoostBy(l, p, m, sign))
  {
    EnergyAdditive(k, l, p, m, sign);
    AdditiveX(k, l, p, m, sign);
    AdditiveY(k, l, p, m, sign);
    AdditiveZ(k, l, p, m, sign);
    Summed(BoostBy(k.Plus(l), p, m, sign), BoostBy(k, p, m, sign), BoostBy(l, p, m, sign));
  }

  lemma EnergyHomogeneous(a: real, k: Vec4, p: Vec4, m: real, sign: real)
    requires 0.0 < m
    ensures BoostEnergy(k.Scale(a), p, m, sign) == a * BoostEnergy(k, p, m, sign)
  {
    EnergyLaw(k, p, m, sign);
    EnergyLaw(k.Scale(a), p, m, sign);
    assert SpatialDot(k.Scale(a), p) == a * SpatialDot(k, p);
    ScaleCore(a, k.e, SpatialDot(k, p), k.Scale(a).e, SpatialDot(k.Scale(a), p), p.e, sign, m,
      BoostEnergy(k, p, m, sign), BoostEnergy(k.Scale(a), p, m, sign));
  }

  lemma CoefHomogeneous(a: real, k: Vec4, p: Vec4, m: real, sign: real)
    requires 0.0 < m && 0.0 < m + p.e
    ensures BoostCoef(k.Scale(a), p, m, sign) == a * BoostCoef(k, p, m, sign)
  {
    CoefLaw(k, p, m, sign);
    CoefLaw(k.Scale(a), p, m, sign);
    EnergyHomogeneous(a, k, p, m, sign);
    ScaleCore(a, k.e, BoostEnergy(k, p, m, sign), k.Scale(a).e, BoostEnergy(k.Scale(a), p, m, sign), 1.0, 1.0, m + p.e,
      BoostCoef(k, p, m, sign), BoostCoef(k.Scale(a), p, m, sign));
  }

  lemma HomogeneousX(a: real, k: Vec4, p: Vec4, m: real, sign: real)
    requires 0.0 < m && 0.0 < m + p.e
    ensures BoostBy(k.Scale(a), p, m, sign).x == a * BoostBy(k, p, m, sign).x
  {
    CoefHomogeneous(a, k, p, m, sign);
    ScaleShift(a, k.x, k.Scale(a).x, sign, BoostCoef(k, p, m, sign), BoostCoef(k.Scale(a), p, m, sign), p.x,
      BoostBy(k.Scale(a), p, m, sign).x, BoostBy(k, p, m, sign).x);
  }

  lemma HomogeneousY(a: real, k: Vec4, p: Vec4, m: real, sign: real)
    requires 0.0 < m && 0.0 < m + p.e
    ensures BoostBy(k.Scale(a), p, m, sign).y == a * BoostBy(k, p, m, sign).y
  {
    CoefHomogeneous(a, k, p, m, sign);
    ScaleShift(a, k.y, k.Scale(a).y, sign, BoostCoef(k, p, m, sign), BoostCoef(k.Scale(a), p, m, sign), p.y,
      BoostBy(k.Scale(a), p, m, sign).y, BoostBy(k, p, m, sign).y);
  }

  lemma HomogeneousZ(a: real, k: Vec4, p: Vec4, m: real, sign: real)
    requires 0.0 < m && 0.0 < m + p.e
    ensures BoostBy(k.Scale(a), p, m, sign).z == a * BoostBy(k, p, m, sign).z
  {
    CoefHomogeneous(a, k, p, m, sign);
    ScaleShift(a, k.z, k.Scale(a).z, sign, BoostCoef(k, p, m, sign), BoostCoef(k.Scale(a), p, m, sign), p.z,
      BoostBy(k.Scale(a), p, m, sign).z, BoostBy(k, p, m, sign).z);
  }

  lemma ByHomogeneous(a: real, k: Vec4, p: Vec4, m: real, sign: real)
    requires 0.0 < m && 0.0 < m + p.e
    ensures BoostBy(k.Scale(a), p, m, sign) == BoostBy(k, p, m, sign).Scale(a)
  {
    EnergyHomogeneous(a, k, p, m, sign);
    HomogeneousX(a, k, p, m, sign);
    HomogeneousY(a, k, p, m, sign);
    HomogeneousZ(a, k, p, m, sign);
    ScaledBy(BoostBy(k.Scale(a), p, m, sign), BoostBy(k, p, m, sign), a);
  }

  lemma ByPreservesLSquare(k: Vec4, p: Vec4, m: real, sign: real)
    requires FrameMass(p, m) && sign * sign == 1.0
    ensures LSquare(BoostBy(k, p, m, sign)) == LSquare(k)
  {
    var r, c := BoostBy(k, p, m, sign), BoostCoef(k, p, m, sign);
    EnergyLaw(k, p, m, sign);
    CoefLaw(k, p, m, sign);
    InvarianceCore(k.e, r.e, SpatialDot(k, p), SpatialDot(p, p), p.e, m, c, sign);
    ShiftSquare(r, k, p, sign * c);
    SignSquare(sign, c);
  }

  lemma RoundTripEnergy(k: Vec4, p: Vec4, m: real, sign: real)
    requires FrameMass(p, m) && sign * sign == 1.0
    ensures BoostEnergy(BoostBy(k, p, m, sign), p, m, -sign) == k.e
  {
    var r, c := BoostBy(k, p, m, sign), BoostCoef(k, p, m, sign);
    EnergyLaw(k, p, m, sign);
    CoefLaw(k, p, m, sign);
    EnergyLaw(r, p, m, -sign);
    ShiftDot(r, k, p, sign * c);
    RoundTripCore(k.e, r.e, BoostEnergy(r, p, m, -sign), SpatialDot(k, p), SpatialDot(r, p), SpatialDot(p, p), p.e, m, c, sign);
  }

  lemma RoundTripCoef(k: Vec4, p: Vec4, m: real, sign: real)
    requires FrameMass(p, m) && sign * sign == 1.0
    ensures BoostCoef(BoostBy(k, p, m, sign), p, m, -sign) == BoostCoef(k, p, m, sign)
  {
    var r := BoostBy(k, p, m, sign);
    RoundTripEnergy(k, p, m, sign);
    CoefLaw(k, p, m, sign);
    CoefLaw(r, p, m, -sign);
    CancelTo(BoostCoef(r, p, m, -sign), BoostCoef(k, p, m, sign), m + p.e, r.e + BoostEnergy(r, p, m, -sign), k.e + r.e);
  }

  lemma UnShift(kx: real, s: real, c: real, px: real, rx: real, r2x: real)
    requires rx == kx + s * c * px && r2x == rx + (-s) * c * px
    ensures r2x == kx
  {}

  lemma ByRoundTrip(k: Vec4, p: Vec4, m: real, sign: real)
    requires FrameMass(p, m) && sign * sign == 1.0
    ensures BoostBy(BoostBy(k, p, m, sign), p, m, -sign) == k
  {
    var r := BoostBy(k, p, m, sign);
    var r2 := BoostBy(r, p, m, -sign);
    var c := BoostCoef(k, p, m, sign);
    RoundTripEnergy(k, p, m, sign);
    RoundTripCoef(k, p, m, sign);
    UnShift(k.x, sign, c, p.x, r.x, r2.x);
    UnShift(k.y, sign, c, p.y, r.y, r2.y);
    UnShift(k.z, sign, c, p.z, r.z, r2.z);
  }

  lemma UnitSign(s: real)
    requires s * s == 1.0
    ensures s == 1.0 || s == -1.0
  {
    assert (s + 1.0) * (s - 1.0) == 0.0;
  }

  lemma SignedDominates(s: real, t: real, d: real)
    requires s * s == 1.0 && -d < t && d < t
    ensures 0.0 < t + s * d
  {
    UnitSign(s);
  }

  lemma PositiveQuotient(q: real, m: real, n: real)
    requires 0.0 < m && 0.0 < n && q * m == n
    ensures 0.0 < q
  {
    if q <= 0.0 {
      MulMono(q, 0.0, m);
    }
  }

  lemma FrameSpatial(p: Vec4, m: real)
    requires FrameMass(p, m)
    ensures SpatialDot(p, p) < p.e * p.e
  {
    MulPosEq(m, m, LSquare(p));
  }

  lemma ByKeepsFuture(k: Vec4, p: Vec4, m: real, sign: real)
    requires FrameMass(p, m) && sign * sign == 1.0
    requires Timelike(k)
    ensures 0.0 < BoostBy(k, p, m, sign).e
  {
    CauchySchwarz(k, p);
    SelfDotNonNeg(k);
    SelfDotNonNeg(p);
    FrameSpatial(p, m);
    DominatesCore(k.e, p.e, SpatialDot(k, k), SpatialDot(p, p), SpatialDot(k, p));
    SignedDominates(sign, k.e * p.e, SpatialDot(k, p));
    EnergyLaw(k, p, m, sign);
    PositiveQuotient(BoostEnergy(k, p, m, sign), m, k.e * p.e + sign * SpatialDot(k, p));
  }

  /** With a, b > 0, 0 <= x <= a^2, 0 <= y < b^2 and d^2 <= x y: |d| < a b. */
  lemma DominatesWeakCore(a: real, b: real, x: real, y: real, d: real)
    requires 0.0 < a && 0.0 < b && 0.0 <= x && 0.0 <= y
    requires x <= a * a && y < b * b && d * d <= x * y
    ensures -d < a * b && d < a * b
  {
    MulMono(x, a * a, y);
    var aa := a * a;
    MulPosEq(a, a, aa);
    MulPosEq(aa, b * b - y, aa * (b * b - y));
    assert (a * a) * (b * b) == (a * b) * (a * b);
    MulPos(a, b);
    if a * b <= d {
      SquareMono(a * b, d);
    }
    if a * b <= -d {
      SquareMono(a * b, -d);
    }
  }

  lemma ByKeepsCausalFuture(k: Vec4, p: Vec4, m: real, sign: real)
    requires FrameMass(p, m) && sign * sign == 1.0
    requires 0.0 <= LSquare(k) && 0.0 < k.e
    ensures 0.0 < BoostBy(k, p, m, sign).e
  {
    CauchySchwarz(k, p);
    SelfDotNonNeg(k);
    SelfDotNonNeg(p);
    FrameSpatial(p, m);
    DominatesWeakCore(k.e, p.e, SpatialDot(k, k), SpatialDot(p, p), SpatialDot(k, p));
    SignedDominates(sign, k.e * p.e, SpatialDot(k, p));
    EnergyLaw(k, p, m, sign);
    PositiveQuotient(BoostEnergy(k, p, m, sign), m, k.e * p.e + sign * SpatialDot(k, p));
  }

  // ---------------------------------------------------------------------------------------
  // The boost of the source

  /** boost(k, k, inverse=True) = (M, 0, 0, 0) with M = sqrt(k^2). */
  lemma BoostIntoRestFrame(el: Elementary, k: Vec4)
    requires Lawful(el) && Timelike(k)
    ensures Boost(el, k, k, true) == AtRest(el.sqrt(LSquare(k)))
  {
    FrameOf(el, k);
    ByIntoRest(k, el.sqrt(LSquare(k)));
  }

  /** boost((M, 0, 0, 0), k) = k with M = sqrt(k^2). */
  lemma BoostOutOfRestFrame(el: Elementary, k: Vec4)
    requires Lawful(el) && Timelike(k)
    ensures Boost(el, AtRest(el.sqrt(LSquare(k))), k, false) == k
  {
    FrameOf(el, k);
    ByOutOfRest(k, el.sqrt(LSquare(k)));
  }

  /** The boost is additive in the boosted vector. */
  lemma BoostAdditive(el: Elementary, k: Vec4, l: Vec4, p: Vec4, inverse: bool)
    requires Lawful(el) && Timelike(p)
    ensures Boost(el, k.Plus(l), p, inverse) == Boost(el, k, p, inverse).Plus(Boost(el, l, p, inverse))
  {
    FrameOf(el, p);
    ByAdditive(k, l, p, el.sqrt(LSquare(p)), Sign(inverse));
  }

  /** The boost is homogeneous in the boosted vector. */
  lemma BoostHomogeneous(el: Elementary, a: real, k: Vec4, p: Vec4, inverse: bool)
    requires Lawful(el) && Timelike(p)
    ensures Boost(el, k.Scale(a), p, inverse) == Boost(el, k, p, inverse).Scale(a)
  {
    FrameOf(el, p);
    ByHomogeneous(a, k, p, el.sqrt(LSquare(p)), Sign(inverse));
  }

  /** The boost keeps the Lorentz invariant k^2. */
  lemma BoostPreservesLSquare(el: Elementary, k: Vec4, p: Vec4, inverse: bool)
    requires Lawful(el) && Timelike(p)
    ensures LSquare(Boost(el, k, p, inverse)) == LSquare(k)
  {
    FrameOf(el, p);
    ByPreservesLSquare(k, p, el.sqrt(LSquare(p)), Sign(inverse));
  }

  /** Boosting back with the opposite direction returns the original vector. */
  lemma BoostRoundTrip(el: Elementary, k: Vec4, p: Vec4, inverse: bool)
    requires Lawful(el) && Timelike(p)
    ensures Boost(el, Boost(el, k, p, inverse), p, !inverse) == k
  {
    FrameOf(el, p);
    assert Sign(!inverse) == -Sign(inverse);
    ByRoundTrip(k, p, el.sqrt(LSquare(p)), Sign(inverse));
  }

  /** A future-pointing timelike vector stays future-pointing and timelike under the boost. */
  lemma BoostKeepsFuture(el: Elementary, k: Vec4, p: Vec4, inverse: bool)
    requires Lawful(el) && Timelike(p) && Timelike(k)
    ensures Timelike(Boost(el, k, p, inverse))
  {
    FrameOf(el, p);
    ByKeepsFuture(k, p, el.sqrt(LSquare(p)), Sign(inverse));
    ByPreservesLSquare(k, p, el.sqrt(LSquare(p)), Sign(inverse));
  }

  /** A boost keeps the energy of a massless or massive momentum of positive energy positive. */
  lemma BoostKeepsPositiveEnergy(el: Elementary, k: Vec4, p: Vec4, inverse: bool)
    requires Lawful(el) && Timelike(p) && 0.0 <= LSquare(k) && 0.0 < k.e
    ensures 0.0 < Boost(el, k, p, inverse).e
  {
    FrameOf(el, p);
    ByKeepsCausalFuture(k, p, el.sqrt(LSquare(p)), Sign(inverse));
  }
}
