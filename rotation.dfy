/** Laws of the spherical rotation R_z(phi) R_y(theta) and its inverse: both keep the energy
    and the length of the spatial part, each undoes the other, and the rotation takes a vector
    along the z axis to spherical coordinates. The proofs factor both rotations into the
    elementary rotations about y and z. */
module Rotations {
  import opened Elementary
  import opened Kinematics

  /** The rotation about the y axis with cosine c and sine s. */
  function RotY(p: Vec4, c: real, s: real): Vec4 {
    Vec4(p.e, c * p.x + s * p.z, p.y, c * p.z - s * p.x)
  }

  /** The rotation about the z axis with cosine c and sine s. */
  function RotZ(p: Vec4, c: real, s: real): Vec4 {
    Vec4(p.e, c * p.x - s * p.y, s * p.x + c * p.y, p.z)
  }

  /** sin(theta) = sqrt(1 - cos(theta)^2) completes cos(theta) to a unit pair. */
  lemma SinTheta(el: Elementary, costheta: real)
    requires Lawful(el) && -1.0 <= costheta <= 1.0
    ensures costheta * costheta + el.sqrt(1.0 - costheta * costheta) * el.sqrt(1.0 - costheta * costheta) == 1.0
  {
    MulNonNegEq(1.0 - costheta, 1.0 + costheta, 1.0 - costheta * costheta);
  }

  // ---------------------------------------------------------------------------------------
  // Scalar steps

  lemma TurnBack(c: real, s: real, u: real, v: real)
    requires c * c + s * s == 1.0
    ensures c * (c * u + s * v) - s * (c * v - s * u) == u
    ensures c * (c * v - s * u) + s * (c * u + s * v) == v
  {
    assert c * (c * u + s * v) - s * (c * v - s * u) == (c * c + s * s) * u;
    assert c * (c * v - s * u) + s * (c * u + s * v) == (c * c + s * s) * v;
  }

  lemma TurnNorm(c: real, s: real, u: real, v: real)
    requires c * c + s * s == 1.0
    ensures (c * u + s * v) * (c * u + s * v) + (c * v - s * u) * (c * v - s * u) == u * u + v * v
  {
    assert (c * u + s * v) * (c * u + s * v) + (c * v - s * u) * (c * v - s * u) == (c * c + s * s) * (u * u + v * v);
  }

  // ---------------------------------------------------------------------------------------
  // The elementary rotations

  lemma RotYInverse(p: Vec4, c: real, s: real)
    requires c * c + s * s == 1.0
    ensures RotY(RotY(p, c, s), c, -s) == p
    ensures RotY(RotY(p, c, -s), c, s) == p
  {
    TurnBack(c, s, p.x, p.z);
    TurnBack(c, -s, p.x, p.z);
  }

  lemma RotZInverse(p: Vec4, c: real, s: real)
    requires c * c + s * s == 1.0
    ensures RotZ(RotZ(p, c, s), c, -s) == p
    ensures RotZ(RotZ(p, c, -s), c, s) == p
  {
    TurnBack(c, -s, p.x, p.y);
    TurnBack(c, s, p.x, p.y);
  }

  lemma RotYNorm(p: Vec4, c: real, s: real)
    requires c * c + s * s == 1.0
    ensures SpatialDot(RotY(p, c, s), RotY(p, c, s)) == SpatialDot(p, p)
  {
    TurnNorm(c, s, p.x, p.z);
  }

  lemma RotZNorm(p: Vec4, c: real, s: real)
    requires c * c + s * s == 1.0
    ensures SpatialDot(RotZ(p, c, s), RotZ(p, c, s)) == SpatialDot(p, p)
  {
    TurnNorm(c, -s, p.x, p.y);
  }

  /** rotate_zy is R_z(phi) after R_y(theta). */
  lemma RotateZYFactors(el: Elementary, p: Vec4, phi: real, costheta: real)
    ensures RotateZY(el, p, phi, costheta)
         == RotZ(RotY(p, costheta, el.sqrt(1.0 - costheta * costheta)), el.cos(phi), el.sin(phi))
  {
    var st, cp, sp := el.sqrt(1.0 - costheta * costheta), el.cos(phi), el.sin(phi);
    assert cp * (costheta * p.x + st * p.z) == p.x * costheta * cp + p.z * st * cp;
    assert sp * (costheta * p.x + st * p.z) == p.x * costheta * sp + p.z * st * sp;
  }

  /** inv_rotate_zy is R_y(-theta) after R_z(-phi). */
  lemma InvRotateZYFactors(el: Elementary, p: Vec4, phi: real, costheta: real)
    ensures InvRotateZY(el, p, phi, costheta)
         == RotY(RotZ(p, el.cos(phi), -el.sin(phi)), costheta, -el.sqrt(1.0 - costheta * costheta))
  {
    var st, cp, sp := el.sqrt(1.0 - costheta * costheta), el.cos(phi), el.sin(phi);
    assert costheta * (cp * p.x - (-sp) * p.y) == p.x * costheta * cp + p.y * costheta * sp;
    assert (-st) * (cp * p.x - (-sp) * p.y) == -(p.x * st * cp + p.y * st * sp);
  }

  // ---------------------------------------------------------------------------------------
  // The rotations of the source

  /** Both rotations keep the energy component. */
  lemma RotationsKeepEnergy(el: Elementary, p: Vec4, phi: real, costheta: real)
    ensures RotateZY(el, p, phi, costheta).e == p.e
    ensures InvRotateZY(el, p, phi, costheta).e == p.e
  {}

  /** For |cos(theta)| <= 1 the rotation keeps the spatial length, hence the invariant p^2. */
  lemma RotateZYPreservesNorm(el: Elementary, p: Vec4, phi: real, costheta: real)
    requires Lawful(el) && -1.0 <= costheta <= 1.0
    ensures SpatialDot(RotateZY(el, p, phi, costheta), RotateZY(el, p, phi, costheta)) == SpatialDot(p, p)
    ensures LSquare(RotateZY(el, p, phi, costheta)) == LSquare(p)
  {
    var st := el.sqrt(1.0 - costheta * costheta);
    SinTheta(el, costheta);
    assert el.cos(phi) * el.cos(phi) + el.sin(phi) * el.sin(phi) == 1.0;
    RotateZYFactors(el, p, phi, costheta);
    RotYNorm(p, costheta, st);
    RotZNorm(RotY(p, costheta, st), el.cos(phi), el.sin(phi));
  }

  /** For |cos(theta)| <= 1 the inverse rotation keeps the spatial length and p^2. */
  lemma InvRotateZYPreservesNorm(el: Elementary, p: Vec4, phi: real, costheta: real)
    requires Lawful(el) && -1.0 <= costheta <= 1.0
    ensures SpatialDot(InvRotateZY(el, p, phi, costheta), InvRotateZY(el, p, phi, costheta)) == SpatialDot(p, p)
    ensures LSquare(InvRotateZY(el, p, phi, costheta)) == LSquare(p)
  {
    var st := el.sqrt(1.0 - costheta * costheta);
    SinTheta(el, costheta);
    assert el.cos(phi) * el.cos(phi) + el.sin(phi) * el.sin(phi) == 1.0;
    InvRotateZYFactors(el, p, phi, costheta);
    RotZNorm(p, el.cos(phi), -el.sin(phi));
    RotYNorm(RotZ(p, el.cos(phi), -el.sin(phi)), costheta, -st);
  }

  /** For |cos(theta)| <= 1 each rotation undoes the other. */
  lemma RotationsInverse(el: Elementary, p: Vec4, phi: real, costheta: real)
    requires Lawful(el) && -1.0 <= costheta <= 1.0
    ensures InvRotateZY(el, RotateZY(el, p, phi, costheta), phi, costheta) == p
    ensures RotateZY(el, InvRotateZY(el, p, phi, costheta), phi, costheta) == p
  {
    var st, cp, sp := el.sqrt(1.0 - costheta * costheta), el.cos(phi), el.sin(phi);
    SinTheta(el, costheta);
    assert cp * cp + sp * sp == 1.0;
    RotateZYFactors(el, p, phi, costheta);
    InvRotateZYFactors(el, RotateZY(el, p, phi, costheta), phi, costheta);
    RotZInverse(RotY(p, costheta, st), cp, sp);
    RotYInverse(p, costheta, st);
    InvRotateZYFactors(el, p, phi, costheta);
    RotateZYFactors(el, InvRotateZY(el, p, phi, costheta), phi, costheta);
    RotYInverse(RotZ(p, cp, -sp), costheta, st);
    RotZInverse(p, cp, sp);
  }

  /** A vector (E, 0, 0, |v|) along the z axis goes to spherical coordinates
      (E, |v| sin(theta) cos(phi), |v| sin(theta) sin(phi), |v| cos(theta)); with E = |v| this
      is the massless vector of map_fourvector_rambo_diet. */
  lemma RotateZYAxis(el: Elementary, e: real, v: real, phi: real, costheta: real)
    ensures RotateZY(el, Vec4(e, 0.0, 0.0, v), phi, costheta)
         == Vec4(e, v * el.sqrt(1.0 - costheta * costheta) * el.cos(phi),
                    v * el.sqrt(1.0 - costheta * costheta) * el.sin(phi), v * costheta)
    ensures RotateZY(el, Vec4(v, 0.0, 0.0, v), phi, costheta) == MapFourvectorRamboDiet(el, v, costheta, phi)
  {}
}
