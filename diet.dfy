/** RAMBO on diet: 3n - 4 randoms become n - 2 numbers u (through a solver) and n - 1
    directions. The u make a decreasing chain of intermediate masses from e_cm down to 0,
    and a loop of boosts peels off one massless momentum per stage; the last stage's
    remainder is the n-th momentum. Every stage splits a mass M_i at rest into a massless
    momentum of energy q_i and a remainder of mass M_(i+1), so the momenta add up to
    (e_cm, 0, 0, 0). */
module Diet {
  import opened Elementary
  import opened Kinematics
  import opened Failures
  import opened Boosts
  import opened Factors
  import opened Rambo

  // ---------------------------------------------------------------------------------------
  // The layout of the randoms

  /** The angular mask [True, False] repeated k times. */
  function Mask(k: nat): (m: seq<bool>)
    ensures |m| == 2 * k
  {
    if k == 0 then [] else [true, false] + Mask(k - 1)
  }

  /** Boolean-mask indexing: xs[mask] when keep is true, xs[~mask] when it is false. */
  function Select(xs: seq<real>, mask: seq<bool>, keep: bool): seq<real>
    requires |mask| == |xs|
    decreases |xs|
  {
    if |xs| == 0 then []
    else (if mask[0] == keep then [xs[0]] else []) + Select(xs[1..], mask[1..], keep)
  }

  /** The alternating mask picks the even positions for the cosines and the odd positions
      for the azimuths, k of each. */
  lemma {:induction false} SelectAlternating(xs: seq<real>, k: nat)
    requires |xs| == 2 * k
    ensures |Select(xs, Mask(k), true)| == k && |Select(xs, Mask(k), false)| == k
    ensures forall j :: 0 <= j < k ==> Select(xs, Mask(k), true)[j] == xs[2 * j]
    ensures forall j :: 0 <= j < k ==> Select(xs, Mask(k), false)[j] == xs[2 * j + 1]
    decreases k
  {
    if k > 0 {
      var m := Mask(k);
      assert m[1..][1..] == Mask(k - 1);
      assert xs[1..][1..] == xs[2..];
      SelectAlternating(xs[2..], k - 1);
      assert Select(xs, m, true) == [xs[0]] + Select(xs[2..], Mask(k - 1), true);
      assert Select(xs, m, false) == [xs[1]] + Select(xs[2..], Mask(k - 1), false);
    }
  }

  /** Numbers strictly inside the unit interval. */
  predicate InUnit(u: seq<real>) {
    forall j :: 0 <= j < |u| ==> 0.0 < u[j] < 1.0
  }

  /** Numbers in the closed unit interval. */
  predicate InClosedUnit(r: seq<real>) {
    forall j :: 0 <= j < |r| ==> 0.0 <= r[j] <= 1.0
  }

  // ---------------------------------------------------------------------------------------
  // The chain of intermediate masses

  /** The product of a list of numbers, the last factor outermost. */
  function Prod(xs: seq<real>): real
    decreases |xs|
  {
    if |xs| == 0 then 1.0 else Prod(xs[..|xs| - 1]) * xs[|xs| - 1]
  }

  /** The running products u0, u0 u1, ..., as torch.cumprod. */
  function CumProd(u: seq<real>): (c: seq<real>)
    ensures |c| == |u|
  {
    seq(|u|, i requires 0 <= i < |u| => Prod(u[..i + 1]))
  }

  /** The intermediate masses: e_cm, then cumprod(u) times e_cm, then the 0 the tensor of
      zeros keeps in its last slot. */
  function MassChain(u: seq<real>, ecm: real): (ms: seq<real>)
    ensures |ms| == |u| + 2
  {
    [ecm] + seq(|u|, i requires 0 <= i < |u| => CumProd(u)[i] * ecm) + [0.0]
  }

  lemma ProdStep(p: real, x: real, q: real)
    requires 0.0 < p && 0.0 < x < 1.0 && q == p * x
    ensures 0.0 < q < p
  {
    MulPosEq(p, x, q);
    assert p - q == p * (1.0 - x);
    MulPosEq(p, 1.0 - x, p - q);
  }

  /** Every prefix product of numbers in (0, 1) is in (0, 1], and the next factor makes it
      strictly smaller. */
  lemma {:induction false} ProdUnit(u: seq<real>, i: nat)
    requires InUnit(u) && i <= |u|
    ensures 0.0 < Prod(u[..i]) <= 1.0
    ensures 0 < i ==> Prod(u[..i]) == Prod(u[..i - 1]) * u[i - 1] && Prod(u[..i]) < Prod(u[..i - 1])
    decreases i
  {
    if i > 0 {
      assert u[..i][..i - 1] == u[..i - 1];
      ProdUnit(u, i - 1);
      ProdStep(Prod(u[..i - 1]), u[i - 1], Prod(u[..i]));
    }
  }

  lemma ChainStepCore(p: real, x: real, e: real, p1: real, a: real, b: real)
    requires 0.0 < e && p1 == p * x && a == p * e && b == p1 * e && p1 < p
    ensures b == a * x && b < a
  {
    assert b == (p * x) * e;
  }

  lemma ChainEntry(u: seq<real>, ecm: real, j: nat)
    requires InUnit(u) && 0.0 < ecm && j <= |u|
    ensures MassChain(u, ecm)[j] == Prod(u[..j]) * ecm
    ensures 0.0 < MassChain(u, ecm)[j]
  {
    ProdUnit(u, j);
    if j > 0 {
      assert MassChain(u, ecm)[j] == CumProd(u)[j - 1] * ecm;
      assert u[..j - 1 + 1] == u[..j];
    }
    MulPos(Prod(u[..j]), ecm);
  }

  /** The first mass is e_cm and the last is 0. */
  lemma ChainEnds(u: seq<real>, ecm: real)
    ensures MassChain(u, ecm)[0] == ecm && MassChain(u, ecm)[|u| + 1] == 0.0
  {}

  /** One link of the chain: the next mass is this one times u_j, and smaller. */
  lemma ChainLink(u: seq<real>, ecm: real, j: nat)
    requires InUnit(u) && 0.0 < ecm && j < |u|
    ensures MassChain(u, ecm)[j + 1] == MassChain(u, ecm)[j] * u[j]
    ensures MassChain(u, ecm)[j + 1] < MassChain(u, ecm)[j]
  {
    ChainEntry(u, ecm, j);
    ChainEntry(u, ecm, j + 1);
    ProdUnit(u, j + 1);
    ChainStepCore(Prod(u[..j]), u[j], ecm, Prod(u[..j + 1]), MassChain(u, ecm)[j], MassChain(u, ecm)[j + 1]);
  }

  /** For 0 < u < 1 and e_cm > 0 the masses start at e_cm, end at 0 and decrease strictly,
      each the previous one times the next u. */
  lemma ChainLaws(u: seq<real>, ecm: real)
    requires InUnit(u) && 0.0 < ecm
    ensures MassChain(u, ecm)[0] == ecm && MassChain(u, ecm)[|u| + 1] == 0.0
    ensures forall j :: 0 <= j <= |u| ==> 0.0 < MassChain(u, ecm)[j]
    ensures forall j :: 0 <= j <= |u| ==> MassChain(u, ecm)[j + 1] < MassChain(u, ecm)[j]
    ensures forall j :: 0 <= j < |u| ==> MassChain(u, ecm)[j + 1] == MassChain(u, ecm)[j] * u[j]
  {
    ChainEnds(u, ecm);
    forall j | 0 <= j <= |u|
      ensures 0.0 < MassChain(u, ecm)[j]
    {
      ChainEntry(u, ecm, j);
    }
    forall j | 0 <= j <= |u|
      ensures MassChain(u, ecm)[j + 1] < MassChain(u, ecm)[j]
    {
      if j < |u| {
        ChainLink(u, ecm, j);
      } else {
        ChainEntry(u, ecm, j);
      }
    }
    forall j | 0 <= j < |u|
      ensures MassChain(u, ecm)[j + 1] == MassChain(u, ecm)[j] * u[j]
    {
      ChainLink(u, ecm, j);
    }
  }

  /** For 0 < u < 1 and e_cm > 0 the masses form a decreasing chain. */
  lemma ChainDecreasing(u: seq<real>, ecm: real)
    requires InUnit(u) && 0.0 < ecm
    ensures DecreasingChain(MassChain(u, ecm))
  {
    ChainLaws(u, ecm);
  }

  // ---------------------------------------------------------------------------------------
  // The stage energies and directions

  /** A strictly decreasing chain of positive masses ending at a non-negative mass. */
  predicate DecreasingChain(ms: seq<real>) {
    && 0 < |ms| && 0.0 <= ms[|ms| - 1]
    && (forall j :: 0 <= j < |ms| - 1 ==> 0.0 < ms[j])
    && (forall j {:trigger ms[j]} :: 0 <= j < |ms| - 1 ==> ms[j + 1] < ms[j])
  }

  /** The energy q = 4 M two_body_decay_factor(M, M', 0) of the massless momentum a stage
      of mass M emits when it leaves the mass M'. */
  function EmittedEnergy(el: Elementary, m: real, mn: real): real
    requires m != 0.0
  {
    4.0 * m * TwoBodyDecayFactor(el, m, mn, 0.0)
  }

  /** The energies q_i of the first n - 1 stages. */
  function DietEnergies(el: Elementary, ms: seq<real>): (q: seq<real>)
    requires 0 < |ms| && forall j :: 0 <= j < |ms| - 1 ==> ms[j] != 0.0
    ensures |q| == |ms| - 1
  {
    seq(|ms| - 1, j requires 0 <= j < |ms| - 1 => EmittedEnergy(el, ms[j], ms[j + 1]))
  }

  lemma QuarterCore(m: real, mn: real, f: real, q: real)
    requires 0.0 < m && f == (m * m - mn * mn) / (8.0 * m * m) && q == 4.0 * m * f
    ensures 2.0 * m * q == m * m - mn * mn
  {
    MulPosEq(8.0 * m, m, 8.0 * m * m);
    assert f * (8.0 * m * m) == m * m - mn * mn;
    assert 2.0 * m * q == f * (8.0 * m * m);
  }

  lemma StageEnergyCore(m: real, mn: real, q: real)
    requires 0.0 <= mn < m && 2.0 * m * q == m * m - mn * mn
    ensures 0.0 < q && 0.0 <= m - q && (m - q) * (m - q) == Sq(q) + Sq(mn)
  {
    MulPosEq(m - mn, m + mn, m * m - mn * mn);
    MulSign(q, 2.0 * m);
    assert (m - q) * (2.0 * m) == m * m + mn * mn;
    SquareNonNeg(mn);
    MulPosEq(m, m, m * m);
    MulSign(m - q, 2.0 * m);
    assert (m - q) * (m - q) == m * m - 2.0 * m * q + q * q;
  }

  /** The energy identity of one stage: q + sqrt(q^2 + M'^2) = M, with q > 0. */
  lemma StageEnergy(el: Elementary, m: real, mn: real)
    requires Lawful(el) && 0.0 <= mn < m
    ensures 0.0 < EmittedEnergy(el, m, mn)
    ensures EmittedEnergy(el, m, mn) + el.sqrt(Sq(EmittedEnergy(el, m, mn)) + Sq(mn)) == m
  {
    var f := TwoBodyDecayFactor(el, m, mn, 0.0);
    TwoBodyDecayFactorMassless(el, m, mn);
    var q := EmittedEnergy(el, m, mn);
    QuarterCore(m, mn, f, q);
    StageEnergyCore(m, mn, q);
    SqrtUnique(el, Sq(q) + Sq(mn), m - q);
  }

  /** Every stage of a strictly decreasing chain of positive masses ending at a non-negative
      mass has a positive energy and the energy identity q_i + sqrt(q_i^2 + M_(i+1)^2) = M_i. */
  lemma DietEnergyLaws(el: Elementary, ms: seq<real>)
    requires Lawful(el) && DecreasingChain(ms)
    ensures forall j :: 0 <= j < |ms| - 1 ==> 0.0 < DietEnergies(el, ms)[j]
    ensures forall j :: 0 <= j < |ms| - 1 ==>
              DietEnergies(el, ms)[j] + el.sqrt(Sq(DietEnergies(el, ms)[j]) + Sq(ms[j + 1])) == ms[j]
  {
    forall j | 0 <= j < |ms| - 1
      ensures 0.0 < DietEnergies(el, ms)[j]
      ensures DietEnergies(el, ms)[j] + el.sqrt(Sq(DietEnergies(el, ms)[j]) + Sq(ms[j + 1])) == ms[j]
    {
      assert 0.0 <= ms[j + 1] by {
        if j + 1 < |ms| - 1 {
          assert 0.0 < ms[j + 1];
        }
      }
      StageEnergy(el, ms[j], ms[j + 1]);
    }
  }

  /** The massless momenta of the first n - 1 stages in their stage frames: energy q_i in the
      direction cos(theta) = 2 rcos_i - 1, phi = 2 pi rphi_i. */
  function Directions(el: Elementary, q: seq<real>, rcos: seq<real>, rphi: seq<real>): (pn: seq<Vec4>)
    requires |rcos| == |q| && |rphi| == |q|
    ensures |pn| == |q|
  {
    seq(|q|, j requires 0 <= j < |q| => MapFourvectorRamboDiet(el, q[j], UnitToCosine(rcos[j]), UnitToAzimuth(el, rphi[j])))
  }

  /** One direction: a cosine random in [0, 1] gives energy q0 and spatial length q0. */
  lemma DirectionLaw(el: Elementary, q0: real, rc: real, rp: real)
    requires Lawful(el) && 0.0 <= rc <= 1.0
    ensures MapFourvectorRamboDiet(el, q0, UnitToCosine(rc), UnitToAzimuth(el, rp)).e == q0
    ensures SpatialDot(MapFourvectorRamboDiet(el, q0, UnitToCosine(rc), UnitToAzimuth(el, rp)),
                       MapFourvectorRamboDiet(el, q0, UnitToCosine(rc), UnitToAzimuth(el, rp))) == Sq(q0)
  {
    MapFourvectorRamboDietMassless(el, q0, UnitToCosine(rc), UnitToAzimuth(el, rp));
  }

  /** Cosine randoms in [0, 1] give directions with energy q_i and spatial length q_i. */
  lemma DirectionLaws(el: Elementary, q: seq<real>, rcos: seq<real>, rphi: seq<real>)
    requires Lawful(el) && |rcos| == |q| && |rphi| == |q| && InClosedUnit(rcos)
    ensures forall j :: 0 <= j < |q| ==> Directions(el, q, rcos, rphi)[j].e == q[j]
    ensures forall j :: 0 <= j < |q| ==>
              SpatialDot(Directions(el, q, rcos, rphi)[j], Directions(el, q, rcos, rphi)[j]) == Sq(q[j])
  {
    var pn := Directions(el, q, rcos, rphi);
    forall j | 0 <= j < |q|
      ensures pn[j].e == q[j] && SpatialDot(pn[j], pn[j]) == Sq(q[j])
    {
      DirectionLaw(el, q[j], rcos[j], rphi[j]);
    }
  }

  // ---------------------------------------------------------------------------------------
  // The boost stages

  /** What stage i leaves behind in its own frame: energy sqrt(q_i^2 + M_(i+1)^2) and the
      opposite of the emitted spatial momentum. */
  function StageRest(el: Elementary, q: real, mNext: real, pn: Vec4): Vec4 {
    Vec4(el.sqrt(Sq(q) + Sq(mNext)), -pn.x, -pn.y, -pn.z)
  }

  /** The square of a positive number is positive. */
  lemma SqPositive(q: real)
    requires 0.0 < q
    ensures 0.0 < Sq(q)
  {
    MulPosEq(q, q, Sq(q));
  }

  /** A square is non-negative. */
  lemma SqNonNeg(q: real)
    ensures 0.0 <= Sq(q)
  {
    if q < 0.0 {
      MulPosEq(-q, -q, Sq(q));
    } else {
      MulNonNegEq(q, q, Sq(q));
    }
  }

  /** A sum of two squares is non-negative, and positive when either number is positive. */
  lemma SquareSum(q: real, m: real, a: real)
    requires a == Sq(q) + Sq(m)
    ensures 0.0 <= a && (0.0 < q ==> 0.0 < a) && (0.0 < m ==> 0.0 < a)
  {
    SqNonNeg(q);
    SqNonNeg(m);
    if 0.0 < q {
      SqPositive(q);
    }
    if 0.0 < m {
      SqPositive(m);
    }
  }

  /** The remainder of a stage emitting a massless momentum of energy q has the mass M':
      it is lightlike for M' = 0, timelike for M' > 0, with positive energy when q > 0. */
  lemma RestLaws(el: Elementary, q: real, mNext: real, pn: Vec4)
    requires Lawful(el) && SpatialDot(pn, pn) == Sq(q)
    ensures LSquare(StageRest(el, q, mNext, pn)) == Sq(mNext)
    ensures 0.0 < q ==> 0.0 < StageRest(el, q, mNext, pn).e
    ensures 0.0 < mNext ==> Timelike(StageRest(el, q, mNext, pn))
  {
    var a := Sq(q) + Sq(mNext);
    var rest := StageRest(el, q, mNext, pn);
    SquareSum(q, mNext, a);
    assert rest.e * rest.e == a;
    assert SpatialDot(rest, rest) == SpatialDot(pn, pn);
    if 0.0 < q || 0.0 < mNext {
      SqrtPositive(el, a);
    }
    if 0.0 < mNext {
      SqPositive(mNext);
    }
  }

  /** The frame of the next stage stays timelike while its mass is positive. */
  lemma NextFrame(el: Elementary, q: real, mNext: real, pn: Vec4, frame: Vec4)
    requires Lawful(el) && Timelike(frame) && SpatialDot(pn, pn) == Sq(q) && 0.0 < mNext
    ensures Timelike(Boost(el, StageRest(el, q, mNext, pn), frame, false))
  {
    RestLaws(el, q, mNext, pn);
    BoostKeepsFuture(el, StageRest(el, q, mNext, pn), frame, false);
  }

  /** The boosts stay defined: the emitted momenta have spatial length q_i, and every
      intermediate mass but the last is positive. */
  predicate StagesDefined(q: seq<real>, ms: seq<real>, pn: seq<Vec4>) {
    && |pn| == |q| && |ms| == |q| + 1
    && (forall j :: 0 <= j < |q| ==> SpatialDot(pn[j], pn[j]) == Sq(q[j]))
    && (forall j :: 1 <= j < |q| ==> 0.0 < ms[j])
  }

  /** The momenta the loop writes from stage i on when its frame vector is Q: p_i is the
      emitted momentum boosted along Q, the next frame is the remainder boosted along Q,
      and after the last stage the frame vector itself is the last momentum. */
  function Stages(el: Elementary, q: seq<real>, ms: seq<real>, pn: seq<Vec4>, i: nat, frame: Vec4): (ps: seq<Vec4>)
    requires Lawful(el) && StagesDefined(q, ms, pn) && i <= |q|
    requires i < |q| ==> Timelike(frame)
    ensures |ps| == |q| - i + 1
    decreases |q| - i
  {
    if i == |q| then [frame]
    else
      var next := Boost(el, StageRest(el, q[i], ms[i + 1], pn[i]), frame, false);
      assert i + 1 < |q| ==> Timelike(next) by {
        if i + 1 < |q| {
          NextFrame(el, q[i], ms[i + 1], pn[i], frame);
        }
      }
      [Boost(el, pn[i], frame, false)] + Stages(el, q, ms, pn, i + 1, next)
  }

  /** One turn of the loop: the momenta from stage i on are the emitted momentum boosted
      along Q followed by the momenta from stage i + 1 on in the next frame, which stays
      timelike while stages remain. */
  lemma StagesUnfold(el: Elementary, q: seq<real>, ms: seq<real>, pn: seq<Vec4>, i: nat, frame: Vec4)
    requires Lawful(el) && StagesDefined(q, ms, pn) && i < |q| && Timelike(frame)
    ensures i + 1 < |q| ==> Timelike(Boost(el, StageRest(el, q[i], ms[i + 1], pn[i]), frame, false))
    ensures Stages(el, q, ms, pn, i, frame)
            == [Boost(el, pn[i], frame, false)]
               + Stages(el, q, ms, pn, i + 1, Boost(el, StageRest(el, q[i], ms[i + 1], pn[i]), frame, false))
  {
    if i + 1 < |q| {
      NextFrame(el, q[i], ms[i + 1], pn[i], frame);
    }
  }

  /** The energy identity of every stage q_i + sqrt(q_i^2 + M_(i+1)^2) = M_i, with positive
      masses and energies, and emitted momenta of energy q_i. */
  predicate StageIdentities(el: Elementary, q: seq<real>, ms: seq<real>, pn: seq<Vec4>)
    requires |ms| == |q| + 1 && |pn| == |q|
  {
    forall j :: 0 <= j < |q| ==>
      && 0.0 < ms[j] && 0.0 < q[j] && pn[j].e == q[j]
      && q[j] + el.sqrt(Sq(q[j]) + Sq(ms[j + 1])) == ms[j]
  }

  /** One stage with frame vector Q of mass M_i: the emitted momentum and the next frame
      add up to Q, the emitted momentum is massless with positive energy, and the next frame
      has mass M_(i+1) and positive energy. */
  lemma StageStep(el: Elementary, q: real, m: real, mNext: real, pn: Vec4, frame: Vec4)
    requires Lawful(el) && Timelike(frame) && LSquare(frame) == Sq(m) && 0.0 < m
    requires pn.e == q && 0.0 < q && SpatialDot(pn, pn) == Sq(q)
    requires q + el.sqrt(Sq(q) + Sq(mNext)) == m
    ensures Boost(el, pn, frame, false).Plus(Boost(el, StageRest(el, q, mNext, pn), frame, false)) == frame
    ensures LSquare(Boost(el, pn, frame, false)) == 0.0 && 0.0 < Boost(el, pn, frame, false).e
    ensures LSquare(Boost(el, StageRest(el, q, mNext, pn), frame, false)) == Sq(mNext)
    ensures 0.0 < Boost(el, StageRest(el, q, mNext, pn), frame, false).e
  {
    var rest := StageRest(el, q, mNext, pn);
    assert pn.Plus(rest) == AtRest(m);
    BoostAdditive(el, pn, rest, frame, false);
    SqrtOfSquare(el, m);
    BoostOutOfRestFrame(el, frame);
    RestLaws(el, q, mNext, pn);
    SqNonNeg(mNext);
    BoostPreservesLSquare(el, rest, frame, false);
    BoostKeepsPositiveEnergy(el, rest, frame, false);
    assert LSquare(pn) == 0.0;
    BoostPreservesLSquare(el, pn, frame, false);
    BoostKeepsPositiveEnergy(el, pn, frame, false);
  }

  /** From stage i on, with a frame vector Q of mass M_i, the momenta add up to Q. */
  lemma {:induction false} StagesTotal(el: Elementary, q: seq<real>, ms: seq<real>, pn: seq<Vec4>, i: nat, frame: Vec4)
    requires Lawful(el) && StagesDefined(q, ms, pn) && StageIdentities(el, q, ms, pn) && i <= |q|
    requires i < |q| ==> Timelike(frame)
    requires LSquare(frame) == Sq(ms[i]) && 0.0 < frame.e
    ensures Total(Stages(el, q, ms, pn, i, frame)) == frame
    decreases |q| - i
  {
    var ps := Stages(el, q, ms, pn, i, frame);
    if i == |q| {
      assert ps == [frame];
      assert Total(ps) == frame.Plus(Zero);
    } else {
      var next := Boost(el, StageRest(el, q[i], ms[i + 1], pn[i]), frame, false);
      StageStep(el, q[i], ms[i], ms[i + 1], pn[i], frame);
      if i + 1 < |q| {
        NextFrame(el, q[i], ms[i + 1], pn[i], frame);
      }
      StagesTotal(el, q, ms, pn, i + 1, next);
      assert ps[1..] == Stages(el, q, ms, pn, i + 1, next);
    }
  }

  /** From stage i on, with a frame vector Q of mass M_i: all momenta but the last are
      massless, the last has the mass of the last chain entry, and all have positive
      energy. */
  lemma {:induction false} StagesMasses(el: Elementary, q: seq<real>, ms: seq<real>, pn: seq<Vec4>, i: nat, frame: Vec4)
    requires Lawful(el) && StagesDefined(q, ms, pn) && StageIdentities(el, q, ms, pn) && i <= |q|
    requires i < |q| ==> Timelike(frame)
    requires LSquare(frame) == Sq(ms[i]) && 0.0 < frame.e
    ensures forall j :: 0 <= j < |q| - i ==> LSquare(Stages(el, q, ms, pn, i, frame)[j]) == 0.0
    ensures LSquare(Stages(el, q, ms, pn, i, frame)[|q| - i]) == Sq(ms[|q|])
    ensures forall j :: 0 <= j <= |q| - i ==> 0.0 < Stages(el, q, ms, pn, i, frame)[j].e
    decreases |q| - i
  {
    var ps := Stages(el, q, ms, pn, i, frame);
    if i == |q| {
      assert ps == [frame];
    } else {
      var next := Boost(el, StageRest(el, q[i], ms[i + 1], pn[i]), frame, false);
      StagesUnfold(el, q, ms, pn, i, frame);
      StageStep(el, q[i], ms[i], ms[i + 1], pn[i], frame);
      StagesMasses(el, q, ms, pn, i + 1, next);
      MasslessCons(Boost(el, pn[i], frame, false), Stages(el, q, ms, pn, i + 1, next), Sq(ms[|q|]));
    }
  }

  /** A massless momentum of positive energy put in front of momenta that are massless but
      for the last, of invariant mm, all of positive energy, keeps that shape. */
  lemma MasslessCons(h: Vec4, t: seq<Vec4>, mm: real)
    requires 0 < |t| && LSquare(h) == 0.0 && 0.0 < h.e
    requires forall j :: 0 <= j < |t| - 1 ==> LSquare(t[j]) == 0.0
    requires LSquare(t[|t| - 1]) == mm
    requires forall j :: 0 <= j < |t| ==> 0.0 < t[j].e
    ensures forall j :: 0 <= j < |t| ==> LSquare(([h] + t)[j]) == 0.0
    ensures LSquare(([h] + t)[|t|]) == mm
    ensures forall j :: 0 <= j <= |t| ==> 0.0 < ([h] + t)[j].e
  {
    assert forall j :: 1 <= j <= |t| ==> ([h] + t)[j] == t[j - 1];
  }

  // ---------------------------------------------------------------------------------------
  // The loop of the map

  /** The intermediate masses as the source fills them: a tensor of zeros, e_cm in the
      first slot and cumprod(u) e_cm in the slots between. */
  method MassArray(u: seq<real>, ecm: real) returns (ms: seq<real>)
    ensures ms == MassChain(u, ecm)
  {
    var M := new real[|u| + 2](_ => 0.0);
    M[0] := ecm;
    forall i | 1 <= i < |u| + 1 {
      M[i] := CumProd(u)[i - 1] * ecm;
    }
    ms := M[..];
    assert forall i :: 0 <= i < |ms| ==> ms[i] == MassChain(u, ecm)[i];
  }

  /** The loop of boosts: p_i is the emitted momentum boosted along the frame vector Q,
      Q moves on to the boosted remainder, and after n - 1 turns Q is the last momentum. */
  method BoostStages(el: Elementary, q: seq<real>, ms: seq<real>, pn: seq<Vec4>, ecm: real) returns (ps: seq<Vec4>)
    requires Lawful(el) && StagesDefined(q, ms, pn) && Timelike(AtRest(ecm))
    ensures ps == Stages(el, q, ms, pn, 0, AtRest(ecm))
  {
    var n := |q| + 1;
    var p := new Vec4[n](_ => Zero);
    var frame := AtRest(ecm);
    ghost var all := Stages(el, q, ms, pn, 0, frame);
    var i := 0;
    while i < n - 1
      invariant 0 <= i <= n - 1
      invariant i < n - 1 ==> Timelike(frame)
      invariant p[..i] + Stages(el, q, ms, pn, i, frame) == all
    {
      var rest := StageRest(el, q[i], ms[i + 1], pn[i]);
      StagesUnfold(el, q, ms, pn, i, frame);
      ghost var done := p[..i];
      var head := Boost(el, pn[i], frame, false);
      p[i] := head;
      assert p[..i + 1] == done + [head];
      frame := Boost(el, rest, frame, false);
      Regroup(done, head, Stages(el, q, ms, pn, i + 1, frame), all);
      i := i + 1;
    }
    p[n - 1] := frame;
    assert p[..] == p[..n - 1] + [frame];
    ps := p[..];
  }

  /** Moving the head of the remaining stages onto the finished prefix keeps the whole. */
  lemma Regroup(done: seq<Vec4>, head: Vec4, rest: seq<Vec4>, all: seq<Vec4>)
    requires done + ([head] + rest) == all
    ensures (done + [head]) + rest == all
  {
    assert (done + [head]) + rest == done + ([head] + rest);
  }

  /** Along a decreasing chain every stage has a positive mass and energy and the energy
      identity, for any momenta with the stage energies. */
  lemma ChainIdentities(el: Elementary, ms: seq<real>, pn: seq<Vec4>)
    requires Lawful(el) && DecreasingChain(ms) && |pn| == |ms| - 1
    requires forall j :: 0 <= j < |pn| ==> pn[j].e == DietEnergies(el, ms)[j]
    ensures StageIdentities(el, DietEnergies(el, ms), ms, pn)
  {
    DietEnergyLaws(el, ms);
  }

  /** What the loop works from: the intermediate masses, the stage energies and the
      directions in the stage frames. */
  datatype StagePlan = StagePlan(ms: seq<real>, q: seq<real>, pn: seq<Vec4>)

  /** The plan of the loop from the numbers u, e_cm and the angular randoms: the boosts are
      defined, and every stage has a positive mass, a positive energy equal to that of its
      massless momentum, and the energy identity; the chain ends at zero mass. */
  function Plan(el: Elementary, u: seq<real>, ecm: real, rcos: seq<real>, rphi: seq<real>): (pl: StagePlan)
    requires Lawful(el) && InUnit(u) && 0.0 < ecm && InClosedUnit(rcos)
    requires |rcos| == |u| + 1 && |rphi| == |u| + 1
    ensures |pl.q| == |u| + 1 && StagesDefined(pl.q, pl.ms, pl.pn) && StageIdentities(el, pl.q, pl.ms, pl.pn)
    ensures pl.ms[0] == ecm && pl.ms[|u| + 1] == 0.0
  {
    var ms := MassChain(u, ecm);
    ChainDecreasing(u, ecm);
    ChainEnds(u, ecm);
    PlanLaws(el, ms, rcos, rphi);
    StagePlan(ms, DietEnergies(el, ms), Directions(el, DietEnergies(el, ms), rcos, rphi))
  }

  /** Along any decreasing chain the stage energies and the directions make a plan whose
      boosts are defined and whose stages keep the energy identity. */
  lemma PlanLaws(el: Elementary, ms: seq<real>, rcos: seq<real>, rphi: seq<real>)
    requires Lawful(el) && DecreasingChain(ms) && InClosedUnit(rcos)
    requires |rcos| == |ms| - 1 && |rphi| == |ms| - 1
    ensures StagesDefined(DietEnergies(el, ms), ms, Directions(el, DietEnergies(el, ms), rcos, rphi))
    ensures StageIdentities(el, DietEnergies(el, ms), ms, Directions(el, DietEnergies(el, ms), rcos, rphi))
  {
    var q := DietEnergies(el, ms);
    DirectionLaws(el, q, rcos, rphi);
    ChainIdentities(el, ms, Directions(el, q, rcos, rphi));
  }

  /** The massless momenta of the loop from the numbers u, e_cm and the angular randoms. */
  function LoopMomenta(el: Elementary, u: seq<real>, ecm: real, rcos: seq<real>, rphi: seq<real>): (ps: seq<Vec4>)
    requires Lawful(el) && InUnit(u) && 0.0 < ecm && InClosedUnit(rcos)
    requires |rcos| == |u| + 1 && |rphi| == |u| + 1
    ensures |ps| == |u| + 2
  {
    var pl := Plan(el, u, ecm, rcos, rphi);
    RestFrame(ecm);
    Stages(el, pl.q, pl.ms, pl.pn, 0, AtRest(ecm))
  }

  /** The momenta of the loop are massless with positive energies and add up to
      (e_cm, 0, 0, 0). */
  lemma LoopMomentaLaws(el: Elementary, u: seq<real>, ecm: real, rcos: seq<real>, rphi: seq<real>)
    requires Lawful(el) && InUnit(u) && 0.0 < ecm && InClosedUnit(rcos)
    requires |rcos| == |u| + 1 && |rphi| == |u| + 1
    ensures Total(LoopMomenta(el, u, ecm, rcos, rphi)) == AtRest(ecm)
    ensures forall i :: 0 <= i < |u| + 2 ==>
              LSquare(LoopMomenta(el, u, ecm, rcos, rphi)[i]) == 0.0 && 0.0 < LoopMomenta(el, u, ecm, rcos, rphi)[i].e
  {
    var pl := Plan(el, u, ecm, rcos, rphi);
    RestFrame(ecm);
    StagesTotal(el, pl.q, pl.ms, pl.pn, 0, AtRest(ecm));
    StagesMasses(el, pl.q, pl.ms, pl.pn, 0, AtRest(ecm));
    assert Sq(pl.ms[|u| + 1]) == 0.0;
  }

  /** The rest frame of a positive e_cm is timelike with mass square e_cm^2. */
  lemma RestFrame(ecm: real)
    requires 0.0 < ecm
    ensures Timelike(AtRest(ecm)) && LSquare(AtRest(ecm)) == Sq(ecm)
  {
    assert LSquare(AtRest(ecm)) == Sq(ecm);
    SqPositive(ecm);
  }

  // ---------------------------------------------------------------------------------------
  // The RAMBO-on-diet map

  /** A RAMBO-on-diet mapping: 3n - 4 randoms and e_cm in, n momenta and a weight out. */
  datatype DietMap = DietMap(setup: Setup) {

    /** The number of randoms: n - 2 for the masses and 2 (n - 1) for the angles, so only
        n >= 2 has a layout. */
    function InputSize(): int {
      3 * setup.n - 4
    }

    /** The numbers u the solver finds from the first n - 2 randoms. */
    function Us(sv: Solvers, r: seq<real>): seq<real>
      requires |r| == InputSize()
    {
      sv.u(r[..setup.n - 2])
    }

    /** The cosine randoms: the even positions of the angular randoms. */
    function Cosines(r: seq<real>): seq<real>
      requires |r| == InputSize()
    {
      Select(r[setup.n - 2..], Mask(setup.n - 1), true)
    }

    /** The azimuth randoms: the odd positions of the angular randoms. */
    function Azimuths(r: seq<real>): seq<real>
      requires |r| == InputSize()
    {
      Select(r[setup.n - 2..], Mask(setup.n - 1), false)
    }

    /** The layout of the randoms: 3n - 4 of them exist only for n >= 2; the first n - 2
        go to the solver, and of the remaining 2n - 2 the even positions are the n - 1 cosine
        randoms and the odd positions the n - 1 azimuth randoms. */
    lemma Layout(r: seq<real>)
      requires |r| == InputSize()
      ensures 2 <= setup.n && |r[..setup.n - 2]| == setup.n - 2 && |r[setup.n - 2..]| == 2 * (setup.n - 1)
      ensures |Cosines(r)| == setup.n - 1 && |Azimuths(r)| == setup.n - 1
      ensures forall j :: 0 <= j < setup.n - 1 ==> Cosines(r)[j] == r[setup.n - 2 + 2 * j]
      ensures forall j :: 0 <= j < setup.n - 1 ==> Azimuths(r)[j] == r[setup.n - 2 + 2 * j + 1]
    {
      SelectAlternating(r[setup.n - 2..], setup.n - 1);
    }

    /** What the loop needs of e_cm, the solver and the randoms: a positive e_cm, n - 2
        numbers u in (0, 1) and cosine randoms in [0, 1]. */
    predicate Laws(sv: Solvers, r: seq<real>, ecm: real)
      requires |r| == InputSize()
    {
      0.0 < ecm && |Us(sv, r)| == setup.n - 2 && InUnit(Us(sv, r)) && InClosedUnit(Cosines(r))
    }

    /** The massless momenta of the loop for these randoms. */
    function DietMomenta(el: Elementary, sv: Solvers, r: seq<real>, ecm: real): (ps: seq<Vec4>)
      requires Lawful(el) && |r| == InputSize() && Laws(sv, r, ecm)
      ensures |ps| == setup.n
    {
      SelectAlternating(r[setup.n - 2..], setup.n - 1);
      LoopMomenta(el, Us(sv, r), ecm, Cosines(r), Azimuths(r))
    }

    /** What one call needs beyond the check the map makes itself: lawful functions, a
        valid setup, 3n - 4 randoms, and above the threshold the laws of the loop and a
        reshaping without division by zero. */
    ghost predicate Ready(el: Elementary, sv: Solvers, r: seq<real>, ecm: real) {
      && Lawful(el) && setup.Valid() && |r| == InputSize()
      && (setup.EMin() < ecm ==>
            && Laws(sv, r, ecm)
            && (setup.masses.Some? ==> Reshapable(sv, el, setup.masses.value, DietMomenta(el, sv, r, ecm))))
    }

    /** map: BelowThreshold at or below e_min; otherwise the momenta of the loop with the
        massless weight, reshaped to the masses when there are masses. */
    function Map(el: Elementary, sv: Solvers, r: seq<real>, ecm: real): (res: Result<Momenta>)
      requires Ready(el, sv, r, ecm)
      ensures res.Err? <==> ecm <= setup.EMin()
      ensures res.Err? ==> res.error == BelowThreshold
      ensures res.Ok? ==> |res.value.p| == setup.n
    {
      if ecm <= setup.EMin() then Err(BelowThreshold)
      else
        var ps := DietMomenta(el, sv, r, ecm);
        var w0 := MasslessWeight(el, setup.n, ecm).value;
        if setup.masses.None? then Ok(Momenta(ps, w0))
        else Ok(MassiveStage(sv, el, setup.masses.value, ps, w0))
    }

    /** The map as the source computes it: the masses M filled column by column, then one
        loop turn per stage writing p_i and moving the frame vector Q on, and Q as the last
        momentum. */
    method MapEvent(el: Elementary, sv: Solvers, r: seq<real>, ecm: real) returns (res: Result<Momenta>)
      requires Ready(el, sv, r, ecm)
      ensures res == Map(el, sv, r, ecm)
    {
      if ecm <= setup.EMin() {
        return Err(BelowThreshold);
      }
      var n := setup.n;
      var u := sv.u(r[..n - 2]);
      var rcos := Select(r[n - 2..], Mask(n - 1), true);
      var rphi := Select(r[n - 2..], Mask(n - 1), false);
      SelectAlternating(r[n - 2..], n - 1);
      ChainLaws(u, ecm);
      var ms := MassArray(u, ecm);
      var q := DietEnergies(el, ms);
      var pn := Directions(el, q, rcos, rphi);
      DirectionLaws(el, q, rcos, rphi);
      RestFrame(ecm);
      var ps := BoostStages(el, q, ms, pn, ecm);
      var w0 := MasslessWeight(el, n, ecm).value;
      if setup.masses.None? {
        return Ok(Momenta(ps, w0));
      }
      var m := MakeMassive(sv, el, setup.masses.value, ps, w0);
      res := Ok(m);
    }

    /** density as intended: the inverse direction is not implemented, and the forward
        direction is the weight of the map. */
    function Density(el: Elementary, sv: Solvers, r: seq<real>, ecm: real, inverse: bool): (res: Result<real>)
      requires Ready(el, sv, r, ecm)
      ensures inverse ==> res == Err(NotImplemented)
      ensures !inverse ==> (res.Ok? <==> setup.EMin() < ecm)
      ensures !inverse && res.Ok? ==> res.value == Map(el, sv, r, ecm).value.weight
    {
      if inverse then Err(NotImplemented)
      else
        var m := Map(el, sv, r, ecm);
        if m.Err? then Err(m.error) else Ok(m.value.weight)
    }

    /** The momenta of the loop are massless with positive energies and add up to
        (e_cm, 0, 0, 0). */
    lemma DietMomentaLaws(el: Elementary, sv: Solvers, r: seq<real>, ecm: real)
      requires Lawful(el) && |r| == InputSize() && Laws(sv, r, ecm)
      ensures Total(DietMomenta(el, sv, r, ecm)) == AtRest(ecm)
      ensures forall i :: 0 <= i < setup.n ==>
                LSquare(DietMomenta(el, sv, r, ecm)[i]) == 0.0 && 0.0 < DietMomenta(el, sv, r, ecm)[i].e
    {
      SelectAlternating(r[setup.n - 2..], setup.n - 1);
      LoopMomentaLaws(el, Us(sv, r), ecm, Cosines(r), Azimuths(r));
    }

    /** Without masses: the momenta are massless with positive energies and add up to
        (e_cm, 0, 0, 0), and the weight is the positive massless weight. */
    lemma MapMassless(el: Elementary, sv: Solvers, r: seq<real>, ecm: real)
      requires Ready(el, sv, r, ecm) && setup.masses.None? && 0.0 < ecm
      ensures Map(el, sv, r, ecm).Ok?
      ensures Total(Map(el, sv, r, ecm).value.p) == AtRest(ecm)
      ensures forall i :: 0 <= i < setup.n ==>
                LSquare(Map(el, sv, r, ecm).value.p[i]) == 0.0 && 0.0 < Map(el, sv, r, ecm).value.p[i].e
      ensures Map(el, sv, r, ecm).value.weight == MasslessWeight(el, setup.n, ecm).value
      ensures 0.0 < Map(el, sv, r, ecm).value.weight
    {
      DietMomentaLaws(el, sv, r, ecm);
      MasslessWeightPositive(el, setup.n, ecm);
    }

    /** With masses and the scale the solver finds: the momenta are on their mass shells and
        add up to (e_cm, 0, 0, 0). */
    lemma MapMassive(el: Elementary, sv: Solvers, r: seq<real>, ecm: real)
      requires Ready(el, sv, r, ecm) && setup.masses.Some? && setup.EMin() < ecm
      requires XiSolves(el, sv.xi(Energies(DietMomenta(el, sv, r, ecm)), setup.masses.value),
                        setup.masses.value, DietMomenta(el, sv, r, ecm), ecm)
      ensures Map(el, sv, r, ecm).Ok?
      ensures Total(Map(el, sv, r, ecm).value.p) == AtRest(ecm)
      ensures forall i :: 0 <= i < setup.n ==> LSquare(Map(el, sv, r, ecm).value.p[i]) == Sq(setup.masses.value[i])
    {
      var ps := DietMomenta(el, sv, r, ecm);
      var ms := setup.masses.value;
      var xi := sv.xi(Energies(ps), ms);
      DietMomentaLaws(el, sv, r, ecm);
      MassiveConserve(el, xi, ms, ps, ecm);
      MassiveOnShell(el, xi, ms, ps);
    }
  }
}
