/** Laws of the boost along the beam axis: it leaves the transverse components alone, keeps
    the invariant square, and the inverse boost with the same rapidity undoes it. */
module BeamBoosts {
  import opened Elementary
  import opened Kinematics

  lemma HyperbolicTurnBack(ch: real, sh: real, s: real, e: real, z: real)
    requires ch * ch - sh * sh == 1.0 && s * s == 1.0
    ensures (e * ch + s * z * sh) * ch + (-s) * (z * ch + s * e * sh) * sh == e
    ensures (z * ch + s * e * sh) * ch + (-s) * (e * ch + s * z * sh) * sh == z
  {
    assert (e * ch + s * z * sh) * ch + (-s) * (z * ch + s * e * sh) * sh == e * (ch * ch - (s * s) * (sh * sh));
    assert (z * ch + s * e * sh) * ch + (-s) * (e * ch + s * z * sh) * sh == z * (ch * ch - (s * s) * (sh * sh));
  }

  lemma HyperbolicNorm(ch: real, sh: real, s: real, e: real, z: real)
    requires ch * ch - sh * sh == 1.0 && s * s == 1.0
    ensures (e * ch + s * z * sh) * (e * ch + s * z * sh) - (z * ch + s * e * sh) * (z * ch + s * e * sh) == e * e - z * z
  {
    assert (e * ch + s * z * sh) * (e * ch + s * z * sh) - (z * ch + s * e * sh) * (z * ch + s * e * sh)
        == (e * e - z * z) * (ch * ch - (s * s) * (sh * sh));
  }

  /** The beam boost keeps px and py. */
  lemma BoostBeamKeepsTransverse(el: Elementary, q: Vec4, rapidity: real, inverse: bool)
    ensures BoostBeam(el, q, rapidity, inverse).x == q.x
    ensures BoostBeam(el, q, rapidity, inverse).y == q.y
  {}

  /** The beam boost keeps the invariant q^2. */
  lemma BoostBeamPreservesLSquare(el: Elementary, q: Vec4, rapidity: real, inverse: bool)
    requires Lawful(el)
    ensures LSquare(BoostBeam(el, q, rapidity, inverse)) == LSquare(q)
  {
    assert el.cosh(rapidity) * el.cosh(rapidity) - el.sinh(rapidity) * el.sinh(rapidity) == 1.0;
    HyperbolicNorm(el.cosh(rapidity), el.sinh(rapidity), Sign(inverse), q.e, q.z);
  }

  /** The boost with the opposite direction and the same rapidity undoes the beam boost. */
  lemma BoostBeamRoundTrip(el: Elementary, q: Vec4, rapidity: real, inverse: bool)
    requires Lawful(el)
    ensures BoostBeam(el, BoostBeam(el, q, rapidity, inverse), rapidity, !inverse) == q
  {
    assert el.cosh(rapidity) * el.cosh(rapidity) - el.sinh(rapidity) * el.sinh(rapidity) == 1.0;
    assert Sign(!inverse) == -Sign(inverse);
    HyperbolicTurnBack(el.cosh(rapidity), el.sinh(rapidity), Sign(inverse), q.e, q.z);
  }
}
