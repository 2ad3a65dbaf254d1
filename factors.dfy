/** Laws of the closed-form phase-space factors: the two-body decay factor is the Källén
    function under a square root and has a closed form for a massless emission, and the
    RAMBO four-vector maps produce massless momenta with positive energy. */
module Factors {
  import opened Elementary
  import opened Kinematics

  lemma DecayArgumentCore(mm: real, a: real, b: real)
    ensures (mm - (a + b) * (a + b)) * (mm - (a - b) * (a - b)) == Kaellen(mm, a * a, b * b)
  {}

  /** The decay factor is sqrt(lambda(M^2, Mi^2, mi^2)) / (8 M^2). */
  lemma TwoBodyDecayFactorIsKaellen(el: Elementary, mPrev: real, mNext: real, mOut: real)
    requires mPrev != 0.0
    ensures TwoBodyDecayFactor(el, mPrev, mNext, mOut)
         == 1.0 / (8.0 * mPrev * mPrev) * el.sqrt(Kaellen(mPrev * mPrev, mNext * mNext, mOut * mOut))
  {
    var arg := (mPrev * mPrev - (mNext + mOut) * (mNext + mOut)) * (mPrev * mPrev - (mNext - mOut) * (mNext - mOut));
    DecayArgumentCore(mPrev * mPrev, mNext, mOut);
    assert arg == Kaellen(mPrev * mPrev, mNext * mNext, mOut * mOut);
    assert el.sqrt(arg) == el.sqrt(Kaellen(mPrev * mPrev, mNext * mNext, mOut * mOut));
  }

  lemma SquareMonoEq(u: real, v: real, uu: real, vv: real)
    requires 0.0 <= u <= v && uu == u * u && vv == v * v
    ensures uu <= vv
  {
    assert vv - uu == (v - u) * (v + u);
    MulNonNegEq(v - u, v + u, vv - uu);
  }

  lemma MasslessArgument(mm: real, a: real, aa: real)
    requires aa == a * a
    ensures (mm - (a + 0.0) * (a + 0.0)) * (mm - (a - 0.0) * (a - 0.0)) == (mm - aa) * (mm - aa)
  {}

  lemma QuotientForm(d: real, x: real, f: real)
    requires d != 0.0 && f == 1.0 / d * x
    ensures f == x / d
  {}

  /** A massless emission, M >= Mi >= 0 and M > 0: the factor is (M^2 - Mi^2) / (8 M^2). */
  lemma TwoBodyDecayFactorMassless(el: Elementary, mPrev: real, mNext: real)
    requires Lawful(el) && 0.0 <= mNext <= mPrev && 0.0 < mPrev
    ensures TwoBodyDecayFactor(el, mPrev, mNext, 0.0)
         == (mPrev * mPrev - mNext * mNext) / (8.0 * mPrev * mPrev)
  {
    var d := mPrev * mPrev - mNext * mNext;
    var arg := (mPrev * mPrev - (mNext + 0.0) * (mNext + 0.0)) * (mPrev * mPrev - (mNext - 0.0) * (mNext - 0.0));
    SquareMonoEq(mNext, mPrev, mNext * mNext, mPrev * mPrev);
    MasslessArgument(mPrev * mPrev, mNext, mNext * mNext);
    assert arg == d * d;
    SqrtOfSquare(el, d);
    assert el.sqrt(arg) == d;
    MulPosEq(8.0 * mPrev, mPrev, 8.0 * mPrev * mPrev);
    QuotientForm(8.0 * mPrev * mPrev, d, TwoBodyDecayFactor(el, mPrev, mNext, 0.0));
  }

  lemma LengthCore(q0: real, ct: real, st: real, cp: real, sp: real, vx: real, vy: real, vz: real)
    requires ct * ct + st * st == 1.0 && cp * cp + sp * sp == 1.0
    requires vx == q0 * st * cp && vy == q0 * st * sp && vz == q0 * ct
    ensures vx * vx + vy * vy + vz * vz == q0 * q0
  {
    assert vx * vx + vy * vy == (q0 * q0) * (st * st) * (cp * cp + sp * sp);
    assert (q0 * q0) * (st * st) + vz * vz == (q0 * q0) * (ct * ct + st * st);
  }

  /** A vector with energy q0 and spatial part q0 times a unit vector in spherical form is
      massless. */
  lemma DirectionLength(v: Vec4, q0: real, ct: real, st: real, cp: real, sp: real)
    requires ct * ct + st * st == 1.0 && cp * cp + sp * sp == 1.0
    requires v.e == q0 && v.x == q0 * st * cp && v.y == q0 * st * sp && v.z == q0 * ct
    ensures SpatialDot(v, v) == q0 * q0 && LSquare(v) == 0.0
  {
    LengthCore(q0, ct, st, cp, sp, v.x, v.y, v.z);
  }

  /** For |cos(theta)| <= 1 the vector of an energy and a direction is massless: its spatial
      length is the energy. */
  lemma MapFourvectorRamboDietMassless(el: Elementary, q0: real, costheta: real, phi: real)
    requires Lawful(el) && -1.0 <= costheta <= 1.0
    ensures SpatialDot(MapFourvectorRamboDiet(el, q0, costheta, phi), MapFourvectorRamboDiet(el, q0, costheta, phi)) == q0 * q0
    ensures LSquare(MapFourvectorRamboDiet(el, q0, costheta, phi)) == 0.0
  {
    var st, cp, sp := el.sqrt(1.0 - costheta * costheta), el.cos(phi), el.sin(phi);
    MulNonNegEq(1.0 - costheta, 1.0 + costheta, 1.0 - costheta * costheta);
    assert st * st == 1.0 - costheta * costheta;
    assert cp * cp + sp * sp == 1.0;
    DirectionLength(MapFourvectorRamboDiet(el, q0, costheta, phi), q0, costheta, st, cp, sp);
  }

  lemma PositiveEnergyMassless(el: Elementary, q0: real, costheta: real, phi: real)
    requires Lawful(el) && -1.0 <= costheta <= 1.0 && 0.0 < q0
    ensures LSquare(MapFourvectorRamboDiet(el, q0, costheta, phi)) == 0.0
    ensures 0.0 < MapFourvectorRamboDiet(el, q0, costheta, phi).e
  {
    MapFourvectorRamboDietMassless(el, q0, costheta, phi);
  }

  lemma UnitProduct(a: real, b: real, q: real)
    requires 0.0 < a < 1.0 && 0.0 < b < 1.0 && q == a * b
    ensures 0.0 < q < 1.0
  {
    MulPosEq(a, b, q);
    assert q < b by {
      assert b - q == (1.0 - a) * b;
      MulPosEq(1.0 - a, b, b - q);
    }
  }

  /** Randoms in the unit cube (r2, r3 strictly inside) map to a massless vector of
      positive energy. */
  lemma MapFourvectorRamboMassless(el: Elementary, r0: real, r1: real, r2: real, r3: real)
    requires Lawful(el) && 0.0 <= r0 <= 1.0 && 0.0 < r2 < 1.0 && 0.0 < r3 < 1.0
    ensures LSquare(MapFourvectorRambo(el, r0, r1, r2, r3)) == 0.0
    ensures 0.0 < MapFourvectorRambo(el, r0, r1, r2, r3).e
  {
    UnitProduct(r2, r3, r2 * r3);
    assert el.log(r2 * r3) < 0.0;
    PositiveEnergyMassless(el, -el.log(r2 * r3), UnitToCosine(r0), UnitToAzimuth(el, r1));
  }
}
