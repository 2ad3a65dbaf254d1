# MadSpace phase-space mappings in Dafny

This project models the core of MadSpace, a library of phase-space mappings for event
generation in particle physics. A mapping turns uniform random numbers into four-momenta and
a phase-space weight, and its inverse reads the random numbers back together with the
density. The model covers:

- the kinematics helpers (`madspace/helper.py`): Minkowski and Euclidean products, mass,
  the Källén function, the two closed-form densities, the spherical rotation and its inverse,
  the Lorentz boost into or out of a frame, the beam boost, the four-vectors of RAMBO and of
  RAMBO on diet, and the two-body decay factor;
- the batched root finders (`madspace/rootfinder/methods.py`): a safeguarded Newton
  iteration and bisection, both over bracket arrays updated in place under a mask;
- the two-particle mappings (`madspace/twoparticle.py`): the isotropic decay in the rest frame
  (COM) and in any frame (LAB), and the t-channel decays, each with `map`, `map_inverse`
  and `density`;
- the n-particle generators (`madspace/rambo.py`): RAMBO and RAMBO on diet. This includes the
  threshold check, the massless weight, the reshaping to massive momenta with its weight, and
  the boost loop of RAMBO on diet.

The transcendental functions (square root, cosine, sine, the hyperbolic functions, logarithm,
two-argument arctangent) and pi are one record, `Elementary.Elementary`. The proofs use
only the laws `Lawful` and `PolarLaws` state of it. Every result therefore holds for the exact
real functions. Floating-point rounding is not modelled.

One batch element of a tensor is one value here:

- a four-momentum is `Kinematics.Vec4`;
- a batch is a sequence of events;
- a raised exception is an `Err` of `Failures.Result`.

Where the source writes into freshly allocated zero vectors, the model has a method that does
the same and is proved equal to the function that specifies it. This covers the decay
momenta, the intermediate masses of RAMBO on diet and the massive momenta. The same holds
where the source loops: the Newton and bisection iterations, and the boost loop of RAMBO on
diet. The numerical solvers called from `madspace/rootfinder/roots.py` (for the numbers u of
RAMBO on diet and the massive scale xi) are the parameter `Rambo.Solvers`. The invariant
blocks and the conversions between cos(theta) and t of the t-channel mappings are the
parameter `TChannel.TKernel`.

## Model

| member | source | states |
|---|---|---|
| Kinematics.Mass | madspace/helper.py:159-168 | the mass is non-negative and its square is the absolute value of the invariant a^2 |
| Kinematics.UnitToCosine | madspace/twoparticle.py:77 | 2 r - 1 lies in [-1, 1] exactly when r lies in [0, 1] |
| Kinematics.TwoParticleDensity | madspace/helper.py:11-24 | g times sqrt(lambda(s, m1^2, m2^2)) is 8 s, and g is positive for positive s |
| Kinematics.TinvTwoParticleDensity | madspace/helper.py:27-40 | for lambda >= 0 the density is non-negative and its square is 16 lambda |
| Kinematics.SpatialDotIsEDot | madspace/helper.py:198-209 | the spatial product is edot over the spatial slices of two four-vectors |
| Kinematics.LDotIsMetricContraction | madspace/helper.py:146-195 | ldot and lsquare are the einsum of a with MINKOWSKI times b, and esquare is E^2 plus the spatial square |
| Kinematics.LDotSymmetric | madspace/helper.py:171-182 | the Lorentz product is symmetric and ldot(a, a) is lsquare(a) |
| Kinematics.KaellenLaws | madspace/helper.py:43-56 | the Källén function is symmetric in its arguments, equals (a-b-c)^2 - 4bc, and lambda(a, 0, 0) = a^2 |
| Kinematics.KaellenOnShell | madspace/helper.py:43-56 | (s + m1^2 - m2^2)^2 - lambda(s, m1^2, m2^2) = 4 s m1^2, the on-shell identity of the rest-frame decay |
| Factors.TwoBodyDecayFactorIsKaellen | madspace/helper.py:308-321 | the decay factor is sqrt(lambda(M^2, M'^2, m^2)) / (8 M^2) |
| Factors.TwoBodyDecayFactorMassless | madspace/helper.py:308-321 | for a massless emission with M >= M' >= 0 the factor is (M^2 - M'^2) / (8 M^2) |
| Factors.MapFourvectorRamboDietMassless | madspace/helper.py:289-305 | for cos(theta) in [-1, 1] the vector has spatial length q0 and is massless |
| Factors.PositiveEnergyMassless | madspace/helper.py:289-305 | with a positive energy q0 the vector is massless with positive energy |
| Factors.MapFourvectorRamboMassless | madspace/helper.py:269-286 | randoms with r2, r3 in (0, 1) give a massless vector of positive energy -log(r2 r3) |
| Rotations.RotateZYFactors | madspace/helper.py:59-111 | rotate_zy is R_z(phi) applied after R_y(theta) |
| Rotations.InvRotateZYFactors | madspace/helper.py:114-143 | inv_rotate_zy is R_y(-theta) applied after R_z(-phi) |
| Rotations.RotationsKeepEnergy | madspace/helper.py:59-143 | both rotations keep the energy component |
| Rotations.RotateZYPreservesNorm | madspace/helper.py:59-111 | for cos(theta) in [-1, 1] the rotation keeps the spatial length and p^2 |
| Rotations.InvRotateZYPreservesNorm | madspace/helper.py:114-143 | for cos(theta) in [-1, 1] the inverse rotation keeps the spatial length and p^2 |
| Rotations.RotationsInverse | madspace/helper.py:59-143 | for cos(theta) in [-1, 1] each rotation undoes the other |
| Rotations.RotateZYAxis | madspace/helper.py:59-111 | a vector along z goes to spherical coordinates; a massless one gives the RAMBO-on-diet four-vector |
| BeamBoosts.BoostBeamKeepsTransverse | madspace/helper.py:244-266 | the beam boost keeps px and py |
| BeamBoosts.BoostBeamPreservesLSquare | madspace/helper.py:244-266 | the beam boost keeps q^2 |
| BeamBoosts.BoostBeamRoundTrip | madspace/helper.py:244-266 | the beam boost with the opposite direction and the same rapidity undoes it |
| Boosts.BoostIntoRestFrame | madspace/helper.py:212-241 | a timelike p boosted into its own frame is (sqrt(p^2), 0, 0, 0) |
| Boosts.BoostOutOfRestFrame | madspace/helper.py:212-241 | (sqrt(p^2), 0, 0, 0) boosted out of the frame of p is p |
| Boosts.BoostAdditive | madspace/helper.py:212-241 | the boost of a sum is the sum of the boosts |
| Boosts.BoostHomogeneous | madspace/helper.py:212-241 | the boost of c k is c times the boost of k |
| Boosts.BoostPreservesLSquare | madspace/helper.py:212-241 | the boost keeps k^2 |
| Boosts.BoostRoundTrip | madspace/helper.py:212-241 | boosting back with the opposite direction returns k |
| Boosts.BoostKeepsFuture | madspace/helper.py:212-241 | a timelike vector of positive energy keeps a positive energy |
| Boosts.BoostKeepsPositiveEnergy | madspace/helper.py:212-241 | a causal (k^2 >= 0) vector of positive energy keeps a positive energy |
| RootFinder.Filled | madspace/rootfinder/methods.py:27-28 | a fresh array holding v n times, as a times ones_like(x0) |
| RootFinder.ClampAt | madspace/rootfinder/methods.py:42-47 | a step inside the bracket is kept, and a safeguarded step from inside stays inside |
| RootFinder.NewtonIterateInside | madspace/rootfinder/methods.py:39-47 | an iterate inside its bracket stays inside after the safeguarded Newton step |
| RootFinder.Newton | madspace/rootfinder/methods.py:14-61 | the method with its arrays and loop returns what the recursive definition of newton returns or raises |
| RootFinder.NewtonRound | madspace/rootfinder/methods.py:35-58 | one pass either finishes with the definition's result or hands on an iterate with the same remaining result |
| RootFinder.NewtonStep | madspace/rootfinder/methods.py:39-47 | the raw step and the two masked writes give the safeguarded iterate |
| RootFinder.AdjustBrackets | madspace/rootfinder/methods.py:53-56 | the masked writes replace the lower end where f(x1) f(xa) > 0 and the upper end elsewhere |
| RootFinder.NewtonLoopKeepsBracketError | madspace/rootfinder/methods.py:34-61 | the iteration itself never reports a missing root |
| RootFinder.NewtonBracketError | madspace/rootfinder/methods.py:23-24 | newton raises "no unique root" exactly when some event has f(a) f(b) > 0 |
| RootFinder.NewtonLoopFlatDerivative | madspace/rootfinder/methods.py:34-36 | at any pass of the loop, whatever its brackets, a derivative below epsilon at the current iterate raises "derivative too small" |
| RootFinder.NewtonDerivativeError | madspace/rootfinder/methods.py:34-61 | the loop raises "derivative too small" if and only if some iterate it tests (the start, then every non-converged step) has a derivative below epsilon |
| RootFinder.NewtonFlatDerivative | madspace/rootfinder/methods.py:23-36 | a derivative below epsilon at the start raises "derivative too small" once the bracket test passes |
| RootFinder.NewtonResultDerivativeError | madspace/rootfinder/methods.py:23-61 | newton raises "derivative too small" if and only if the bracket test passes and some tested iterate has a flat derivative |
| RootFinder.NewtonLoopSteep | madspace/rootfinder/methods.py:34-61 | with df >= epsilon everywhere the iteration succeeds with a batch of the input's size |
| RootFinder.NewtonSucceeds | madspace/rootfinder/methods.py:14-61 | a sign change at a, b for every event and df >= epsilon give a result of the input's size |
| RootFinder.NewtonUpdateNested | madspace/rootfinder/methods.py:53-56 | the bracket update keeps each bracket inside [a, b] and inside the previous one |
| RootFinder.NewtonUpdateKeepsSignChange | madspace/rootfinder/methods.py:53-56 | the bracket update keeps a sign change of f across every bracket |
| RootFinder.NewtonLoopInside | madspace/rootfinder/methods.py:34-61 | started inside nested brackets, the iteration's result lies in [a, b] |
| RootFinder.NewtonStaysInBracket | madspace/rootfinder/methods.py:14-61 | a start inside [a, b] gives a result inside [a, b] |
| RootFinder.Midpoint | madspace/rootfinder/methods.py:82 | every entry is equidistant from both bracket ends |
| RootFinder.BisectLoop | madspace/rootfinder/methods.py:80-96 | bisection never fails once started and returns a batch of the input's size |
| RootFinder.Bisect | madspace/rootfinder/methods.py:64-96 | the method with its arrays and loop returns what the recursive definition of bisect returns or raises |
| RootFinder.BisectRound | madspace/rootfinder/methods.py:82-91 | one pass returns the midpoint, performs one bisection step and reports the convergence test |
| RootFinder.BisectBracketError | madspace/rootfinder/methods.py:73-74 | bisect raises exactly when some event has f(a) f(b) > 0 and otherwise returns a batch of the input's size |
| RootFinder.BisectStepHalves | madspace/rootfinder/methods.py:82-87 | one step halves every bracket and keeps it inside the old one |
| RootFinder.BisectWidth | madspace/rootfinder/methods.py:80-87 | after j steps every bracket is 2^-j times as wide as at the start |
| RootFinder.BisectNested | madspace/rootfinder/methods.py:80-87 | every bracket stays inside [a, b] |
| RootFinder.BisectEndSigns | madspace/rootfinder/methods.py:85-87 | a lower end that moved has f <= 0 there, an upper end that moved has f > 0 there |
| RootFinder.BisectReturnsMidpoint | madspace/rootfinder/methods.py:80-96 | bisect returns the midpoint of the brackets after some j < k steps |
| RootFinder.BisectStopsByStep | madspace/rootfinder/methods.py:89-91 | once the brackets after m + 1 steps pass allclose, bisect has stopped at step m or earlier |
| RootFinder.BisectConverges | madspace/rootfinder/methods.py:89-91 | brackets of width at most XTOL 2^(m+1) stop bisection within m + 1 steps |
| TwoParticle.RestDecayOnShell | madspace/twoparticle.py:80-82 | the rest-frame decay product has invariant m1^2, the energies add up to sqrt s, the momentum is shared and non-negative |
| TwoParticle.RestDecayOfPart | madspace/twoparticle.py:358-359 | the decay at rest into the invariants of a momentum q and of its partner (sqrt s, 0, 0, 0) - q has q's energy and q's length |
| TwoParticle.AnglesFromUnits | madspace/twoparticle.py:76-77 | the random-to-angle conversions and their inverses undo each other |
| TwoParticle.AzimuthRecovered | madspace/twoparticle.py:118-121 | atan2 reads back the azimuth of r1; AzimuthToUnit returns r1, phi / 2 / pi returns r1 - 1 above 1/2 |
| TwoParticle.DecayDensity | madspace/twoparticle.py:90 | the density g of a regular decay is positive |
| TwoParticle.PolarCosine | madspace/twoparticle.py:114-117 | the polar cosine read off a momentum lies in [-1, 1] |
| TwoParticle.DirectionRecovered | madspace/twoparticle.py:113-122 | the rest decay turned to the direction of r1, r2 has those randoms read back |
| TwoParticle.AxisRebuilt | madspace/twoparticle.py:320-323 | a momentum p off the z axis or on it, rebuilt as (E, 0, 0, abs(p)) turned to its azimuth atan2(p.y, p.x) and its polar cosine, is p |
| TwoParticle.TwoParticleCom.MapEventInPlace | madspace/twoparticle.py:67-93 | the zero vectors with the energies and p1.z written, turned and mirrored, are the map's decay |
| TwoParticle.TwoParticleCom.Map | madspace/twoparticle.py:54-93 | a batch is rejected exactly when some s < 0; otherwise every event is mapped |
| TwoParticle.TwoParticleCom.MapConserves | madspace/twoparticle.py:79-86 | the decay products add up to (sqrt s, 0, 0, 0), whose invariant is s |
| TwoParticle.TwoParticleCom.MapOnShell | madspace/twoparticle.py:76-86 | for r2 in [0, 1] the decay products have invariants m1^2 and m2^2 |
| TwoParticle.TwoParticleCom.MapWeight | madspace/twoparticle.py:88-93 | the weight is positive, the reciprocal of the inverse density and the forward density of the mapped momenta |
| TwoParticle.TwoParticleCom.MapInverseRoundTrip | madspace/twoparticle.py:95-129 | for r1 in [0, 1) and r2 in (0, 1) map_inverse reads back r1, r2, s and the density |
| TwoParticle.TwoParticleCom.AzimuthAsWrittenShifts | madspace/twoparticle.py:121 | read as phi / 2 / pi, r1 in (1/2, 1) comes back as r1 - 1 < 0 |
| TwoParticle.TwoParticleLab.MapEventInPlace | madspace/twoparticle.py:172-199 | the zero vector with energy and z written, turned, boosted along p0, and p2 = p0 - p1, is the map's decay |
| TwoParticle.TwoParticleLab.Map | madspace/twoparticle.py:159-199 | a batch is rejected exactly when some p0^2 < 0; otherwise every event is mapped |
| TwoParticle.TwoParticleLab.MapConserves | madspace/twoparticle.py:190-193 | the decay products add up to p0, and p2 is the COM p2 boosted like p1 |
| TwoParticle.TwoParticleLab.MapOnShell | madspace/twoparticle.py:183-193 | for r2 in [0, 1] the decay products have invariants m1^2 and m2^2 |
| TwoParticle.TwoParticleLab.MapWeight | madspace/twoparticle.py:195-199 | the weight is positive, the reciprocal of the inverse density and the forward density |
| TwoParticle.TwoParticleLab.MapInverseRoundTrip | madspace/twoparticle.py:201-238 | boosting p1 back into the rest frame of p0 gives the COM p1, and map_inverse reads back r1, r2, p0 and the density |
| TChannel.ChooseTSampler | madspace/twoparticle.py:272-281 | flat selects the uniform block, then a missing mass the massless, a missing width the stable, else Breit-Wigner |
| TChannel.SampleRoundTrip | madspace/twoparticle.py:311-314 | sampling |t|, turning it into cos(theta) and back reads back r2 with reciprocal weights |
| TChannel.TDensity | madspace/twoparticle.py:329 | gp is positive when lambda(s, p1^2, p2^2) > 0 |
| TChannel.InverseEventReads | madspace/twoparticle.py:364-389 | the shared inverse step returns the azimuth random, the unsampled r2, the masses, gs_inv gp, and p1 with p2 = ptot - p1 |
| TChannel.RebuiltAtRest | madspace/twoparticle.py:354-362 | with ptot at rest, p1 rebuilt from s, the invariants of p1 and p2 and the angles map read off p1 (lines 322-323) is p1 |
| TChannel.RebuiltInFrame | madspace/twoparticle.py:504-513 | in any frame, p1 rebuilt at rest from the angles map read off p1 in the rest frame of ptot (lines 471-472) and boosted along ptot is p1 |
| TChannel.TurnedOnShell | madspace/twoparticle.py:316-326 | the doubly turned decay product has invariant m1^2 and the rest of the system m2^2 |
| TChannel.TurnedRead | madspace/twoparticle.py:364-371 | turning the doubly turned product back about the axis reads back r1 and the cosine |
| TChannel.TInvariantCom.MapEventInPlace | madspace/twoparticle.py:299-334 | k1 built from a zero vector, its energy and z written and turned twice, is the map's decay |
| TChannel.TInvariantCom.MapInverseEventInPlace | madspace/twoparticle.py:354-389 | with the outputs read separately (the corrected unpacking of line 338), p1 built from a zero vector and turned onto the axis gives the corrected map_inverse's result |
| TChannel.TInvariantCom.MapOnShell | madspace/twoparticle.py:316-326 | k1 + k2 = ptot, k1 has invariant m1^2, and k2 has m2^2 when ptot is at rest |
| TChannel.TInvariantCom.MapWeight | madspace/twoparticle.py:329-334 | the weight times the positive gp is the sampler's gs_inv |
| TChannel.TInvariantCom.TurnedBackRead | madspace/twoparticle.py:364-371 | k1 turned back from the axis has its azimuth random r1 and the sampled cosine read back |
| TChannel.TInvariantCom.MapInverseRoundTrip | madspace/twoparticle.py:336-389 | map_inverse reads back r1, r2, the incoming momenta p1, p2 and the masses of map, with the density of the sampler at the read-back r2 |
| TChannel.TInvariantCom.MapInverseDensity | madspace/twoparticle.py:382-389 | the density of map_inverse times the weight of map is 1 |
| TChannel.TInvariantLab.MapEventInPlace | madspace/twoparticle.py:448-484 | k1 built from a zero vector, turned twice and boosted along ptot, is the map's decay |
| TChannel.TInvariantLab.MapInverseEventInPlace | madspace/twoparticle.py:504-539 | with the outputs read separately (the corrected unpacking of line 488) and k1 turned back, p1 built from a zero vector, turned and boosted, gives the corrected map_inverse's result |
| TChannel.TInvariantLab.MapOnShell | madspace/twoparticle.py:466-476 | k1 + k2 = ptot and both are on their mass shells in every frame |
| TChannel.TInvariantLab.MapWeight | madspace/twoparticle.py:479-484 | the weight times the positive gp is the sampler's gs_inv |
| TChannel.TInvariantLab.TurnedBackRead | madspace/twoparticle.py:515-521 | k1 boosted and turned back has its azimuth random r1 and the sampled cosine read back |
| TChannel.TInvariantLab.MapInverseRoundTrip | madspace/twoparticle.py:486-539 | the corrected map_inverse reads back r1, r2, the incoming momenta p1, p2 and the masses of map in any frame |
| TChannel.TInvariantLab.MapInverseDensity | madspace/twoparticle.py:532-539 | the density of the corrected map_inverse times the weight of map is 1 |
| TChannel.MapInverseAsWritten | madspace/twoparticle.py:336-348 | as written, both t-channel map_inverse methods raise for every batch: an unpack error unless it holds three events, and a shape error at `lsquare(k1)` when it does |
| TChannel.InverseDensityAsWritten | madspace/twoparticle.py:391-395 | as written, density(inverse=True) raises whatever map_inverse raises |
| TChannel.MapInverseAsWrittenRejectsPairs | madspace/twoparticle.py:338 | a batch of two events of map makes map_inverse and the inverse density raise at the unpacking (also at line 488) |
| TChannel.TInvariantLab.MapInverseAsWrittenIgnoresK1 | madspace/twoparticle.py:511-521 | as written, the turned-back vector is the rebuilt p1 at rest along z, so the cosine is 1 and r2 does not depend on k1 |
| Rambo.SumBounds | madspace/rambo.py:44 | the sum of non-negative masses is non-negative and bounds each mass |
| Rambo.NewSetup | madspace/rambo.py:34-51 | the corrected constructor (builtin `sum` at line 44) fails exactly when the mass list has the wrong length, and keeps n and the masses otherwise |
| Rambo.NewSetupAsWritten | madspace/rambo.py:40-47 | as written, every mass list fails: a wrong length at the assertion, a right one when torch's `sum` is applied to the list; without masses the constructor agrees with the corrected one |
| Rambo.NewSetupAsWrittenRejectsMasses | madspace/rambo.py:44 | a mass list of the right length is accepted by the corrected constructor and rejected as written, as in `RAMBO(2, [1.0, 1.0])` |
| Rambo.AboveThreshold | madspace/rambo.py:61-66 | an energy above the sum of non-negative masses is positive and exceeds each mass |
| Rambo.CheckThreshold | madspace/rambo.py:61-66 | the batch is rejected exactly when some e_cm <= e_min |
| Rambo.MasslessWeight | madspace/rambo.py:109-115 | the weight fails exactly for n < 2, where gamma has a pole |
| Rambo.MasslessWeightPositive | madspace/rambo.py:109-115 | the massless weight is positive at a positive energy |
| Rambo.MasslessWeightTwo | madspace/rambo.py:109-115 | two particles have the constant weight pi / 2 |
| Rambo.MasslessWeightScaling | madspace/rambo.py:109-115 | scaling e_cm by c scales the weight by c^(2n-4) |
| Rambo.TotalBoosted | madspace/rambo.py:72-79 | the boosted momenta add up to the boosted sum |
| Rambo.TotalScaled | madspace/rambo.py:80 | the scaled momenta add up to the scaled sum |
| Rambo.ScaleLSquare | madspace/rambo.py:80 | scaling by c scales the invariant by c^2 |
| Rambo.IntermediateMassless | madspace/rambo.py:69 | randoms inside the unit cube give massless intermediate momenta of positive energy |
| Rambo.RamboMomentaConserve | madspace/rambo.py:71-80 | the boosted and scaled momenta add up to (e_cm, 0, 0, 0) |
| Rambo.RamboMomentaMassless | madspace/rambo.py:71-80 | the momenta stay massless, with positive energies for e_cm > 0 |
| Rambo.ReshapeOnShell | madspace/rambo.py:94-96 | a reshaped massless momentum has invariant m^2 and non-negative energy |
| Rambo.ReshapeEnergy | madspace/rambo.py:95 | the reshaped energy is the non-negative root of m^2 + xi^2 p0^2 |
| Rambo.ReshapeMassless | madspace/rambo.py:94-96 | with zero mass and xi >= 0 reshaping only scales by xi |
| Rambo.MassiveMomentum | madspace/rambo.py:96 | the massive spatial momenta add up to xi times the massless ones |
| Rambo.EnergyRatiosScaled | madspace/rambo.py:139 | the product of energy ratios of momenta scaled by xi is (1/xi)^n |
| Rambo.MomentumSumScaled | madspace/rambo.py:140-141 | the sum of \|p\|^2 / p0 of momenta scaled by xi is xi times the original |
| Rambo.WeightFromFactors | madspace/rambo.py:117-143 | energy ratios (1/xi)^n and a momentum sum scaled by xi give the massive weight xi^(2n-4) |
| Rambo.MassiveWeightOfScaled | madspace/rambo.py:117-143 | zero masses give the massive weight xi^(2n-4), which is 1 at xi = 1 |
| Rambo.TotalEnergy | madspace/rambo.py:90 | the energy of a sum is the sum of the energies handed to the xi solver |
| Rambo.MassiveConserve | madspace/rambo.py:89-96 | with the solver's xi the massive momenta add up to (e_cm, 0, 0, 0) |
| Rambo.MassiveOnShell | madspace/rambo.py:94-96 | every massive momentum has invariant m_i^2 and non-negative energy |
| Rambo.MassiveZeroMasses | madspace/rambo.py:94-99 | zero masses with xi = 1 leave the momenta unchanged with massive weight 1 |
| Rambo.Reshaped | madspace/rambo.py:94-96 | ones_like(p) with the energy and spatial columns written is the reshaped event |
| Rambo.MakeMassive | madspace/rambo.py:85-101 | the massive branch with its in-place writes is the massive stage |
| Rambo.DensityAsWritten | madspace/rambo.py:145-151 | as written, the inverse is not implemented and the forward call passes the mapping itself as inputs and fails |
| Rambo.RamboMap.Map | madspace/rambo.py:53-103 | fails exactly below threshold (BelowThreshold) or for n < 2 (GammaDomain), else n momenta |
| Rambo.RamboMap.MapEvent | madspace/rambo.py:53-103 | the map with its in-place massive writes equals the specification |
| Rambo.RamboMap.MapInverse | madspace/rambo.py:105-107 | RAMBO has no inverse |
| Rambo.RamboMap.Density | madspace/rambo.py:145-151 | the inverse is not implemented, and the forward density is defined exactly when map succeeds and equals its weight |
| Rambo.RamboMap.MapMassless | madspace/rambo.py:53-103 | without masses: massless momenta of positive energy adding up to (e_cm, 0, 0, 0), with the positive massless weight |
| Rambo.RamboMap.MapWeightIndependent | madspace/rambo.py:82-83 | without masses the weight does not depend on the randoms |
| Rambo.RamboMap.MapMassive | madspace/rambo.py:85-101 | with masses and the solver's xi: the momenta are on their mass shells and add up to (e_cm, 0, 0, 0) |
| Diet.SelectAlternating | madspace/rambo.py:211-213 | the mask picks the even positions for the cosines and the odd positions for the azimuths |
| Diet.ChainLaws | madspace/rambo.py:220-222 | the masses start at e_cm, end at 0, are positive before the end, decrease strictly and M_(j+1) = M_j u_j |
| Diet.ChainDecreasing | madspace/rambo.py:220-222 | for u in (0, 1) and e_cm > 0 the masses form a decreasing chain |
| Diet.StageEnergy | madspace/rambo.py:226 | q = 4 M f(M, M', 0) is positive and q + sqrt(q^2 + M'^2) = M |
| Diet.DietEnergyLaws | madspace/rambo.py:226 | every stage of a decreasing chain has a positive energy with q_i + sqrt(q_i^2 + M_(i+1)^2) = M_i |
| Diet.DirectionLaws | madspace/rambo.py:216-217 | cosine randoms in [0, 1] give momenta of energy q_i and spatial length q_i |
| Diet.RestLaws | madspace/rambo.py:237-239 | the remainder of a stage has invariant M_(i+1)^2 and is timelike for M_(i+1) > 0 |
| Diet.NextFrame | madspace/rambo.py:243 | the frame vector of the next stage stays timelike while its mass is positive |
| Diet.StagesUnfold | madspace/rambo.py:235-243 | one turn of the loop: a boosted emitted momentum, then the stages from the boosted remainder |
| Diet.StageStep | madspace/rambo.py:237-243 | one stage splits its frame into a massless momentum of positive energy and a frame of mass M_(i+1) |
| Diet.StagesTotal | madspace/rambo.py:235-246 | from any stage on the momenta add up to that stage's frame vector |
| Diet.StagesMasses | madspace/rambo.py:235-246 | all momenta but the last are massless, the last has invariant M_(n-1)^2, all energies are positive |
| Diet.MassArray | madspace/rambo.py:220-222 | the array of zeros with e_cm and the cumulative products written holds the intermediate masses |
| Diet.BoostStages | madspace/rambo.py:232-246 | the loop with its array writes returns the stage momenta from the rest frame of e_cm |
| Diet.ChainIdentities | madspace/rambo.py:226-229 | along a decreasing chain every stage has the energy identity |
| Diet.Plan | madspace/rambo.py:220-229 | the plan of the loop has n - 1 stages, all boosts are defined, and the chain runs from e_cm to 0 |
| Diet.LoopMomentaLaws | madspace/rambo.py:232-246 | the momenta add up to (e_cm, 0, 0, 0) and are massless with positive energies |
| Diet.RestFrame | madspace/rambo.py:232 | the starting frame vector (e_cm, 0, 0, 0) is timelike with invariant e_cm^2 |
| Diet.DietMap.Layout | madspace/rambo.py:179-213 | 3n - 4 randoms need n >= 2; the first n - 2 are for u, and the cosines and azimuths alternate after them |
| Diet.DietMap.Map | madspace/rambo.py:187-270 | fails exactly at or below threshold with BelowThreshold, else n momenta |
| Diet.DietMap.MapEvent | madspace/rambo.py:187-270 | the map with its mass array, boost loop and massive writes equals the specification |
| Diet.DietMap.Density | madspace/rambo.py:366-372 | the inverse is not implemented, and the forward density is defined exactly above threshold and equals the map's weight |
| Diet.DietMap.DietMomentaLaws | madspace/rambo.py:199-246 | the massless momenta add up to (e_cm, 0, 0, 0) and are massless with positive energies |
| Diet.DietMap.MapMassless | madspace/rambo.py:187-270 | without masses: the momenta are conserved and massless, and the weight is the positive massless weight |
| Diet.DietMap.MapMassive | madspace/rambo.py:252-268 | with masses and the solver's xi: the momenta are on their mass shells and add up to (e_cm, 0, 0, 0) |

## Left out

- Floating point: all arithmetic is on exact reals. Infinities and NaNs from a division by zero
  or a square root of a negative number have no counterpart. The divisions the source makes
  therefore appear as preconditions: a timelike frame vector for a boost, lambda > 0 for the
  densities, s > 0, and non-zero energies and momentum sums in the massive weight.
- The transcendental functions are not defined. The proofs assume the laws `Lawful`
  (principal square root, Pythagorean and hyperbolic identities, a negative logarithm on
  (0, 1), a bracket on pi) and `PolarLaws` (the range of atan2, the angle it reads back
  from a direction, and the direction of the angle it returns).
- Tensors, shapes, devices and autograd are not modelled. One event is one value and a batch
  is a sequence. Only the batch checks (`torch.any(s < 0)`, `torch.any(e_cm <= e_min)`,
  `torch.allclose`) look at a whole batch: `CheckThreshold`, the `Map` functions of the
  two-particle mappings and the root finders do this. The RAMBO maps take one event at a time.
- The solvers `get_u_parameter` and `get_xi_parameter` are parameters
  (`madspace/rootfinder/roots.py` is not part of this model). The proofs assume only what they
  are for: u in (0, 1) for RAMBO on diet, and xi solving the energy equation `XiSolves`.
- The invariant blocks (uniform, massless, stable, Breit-Wigner) and `costheta_to_invt` and
  `invt_to_costheta` are the parameter `TKernel` (`madspace/invariants.py` and
  `madspace/functional/tchannel.py` are not part of this model). The proofs assume only
  `KernelLaws`: each inverse undoes its map, and the weights are reciprocal.
- The base class `PhaseSpaceMapping` and its checks of input and output shapes
  (`madspace/base.py` is not part of this model).
- RamboOnDiet.map_inverse (`madspace/rambo.py:272-328`) is not modelled. As written it cannot
  run:
  - it reads `self.n_particles`, an attribute the constructor never sets;
  - it passes `pi` where the massless momenta belong in the massive weight;
  - it overwrites every cosine and azimuth random with the last particle's on each turn of
    its loop;
  - it computes u from squared masses where the masses belong;
  - it calls `edot` with one argument at line 320, where `madspace/helper.py:198` takes two;
  - it reads a cosine random back as `0.5 * costheta + 1.0` at line 322, which is not the
    inverse `0.5 * (costheta + 1)` of `2 r - 1`.
- TChannel.TInvariantCom.MapInverseEvent and TChannel.TInvariantLab.MapInverseEvent read
  the three outputs of `map` separately. This is the corrected unpacking of the Findings row
  for `madspace/twoparticle.py:338`; as written no batch is read back (`TChannel.MapInverseAsWritten`).
- Rambo.RamboMap.Map: each event is modelled with its own e_cm, the per-event sampling
  that `madspace/rambo.py:29-31` and `:56` describe. As written a batched e_cm of shape (b,)
  does not broadcast: `e_cm / M` at line 76 has shape (b, b), and `x[..., None] * p` at line
  80 fails unless b == n, and scales event j by row j when b == n. Only a scalar e_cm, or
  b = 1, runs as the model describes.
- Diet.DietMap.Map: the same per-event e_cm. As written, `torch.cumprod(u, dim=1) * e_cm` at
  `madspace/rambo.py:222` and `e_cm * torch.tile(...)` at line 232 fail for a batched e_cm
  unless b = 1 or b = n - 2 = 4: the first needs b == n - 2 and the second b == 4. When
  b = n - 2 = 4 both run and mix events: entry [j, i] of the mass chain is scaled by e_cm[i],
  and every event's total momentum Q is (e_cm[0], 0, 0, 0), since e_cm[k] scales component k
  of the tiled (1, 0, 0, 0).
- The `density` methods of the t-channel mappings are not separate members. They return the
  weight of `map` or the density of `map_inverse`, which `MapWeight`, `MapInverseRoundTrip`
  and `MapInverseDensity` describe for the corrected unpacking. As written the inverse
  density raises with map_inverse (`TChannel.InverseDensityAsWritten`).
- The default `x0=None` guess of the root finders is not modelled: `a * torch.ones_like(None)`
  fails before the default would be used, so the model takes x0 as given. The diagnostic
  messages they print are not modelled either.
- Rambo.NewSetup: models the constructor with the builtin sum, as the Findings row for
  `madspace/rambo.py:44` explains. As written no setup with masses is ever built, so the
  massive branches of both maps are stated for the corrected constructor.
- Rambo.RamboMap.Map: for n = 0, `r.reshape((-1, 0, 4))` raises before the threshold check.
  The model reports GammaDomain for all n < 2, as the massless weight does for n = 1.
- Rambo.RamboMap.MapMassive: states conservation and the mass shells but not the value of
  the massive weight. `MassiveWeightOfScaled` gives that value only for zero masses.
- Diet.DietMap.MapMassive: the same as for RAMBO; the massive weight is not stated.
- Diet.DietMap.Map: requires 0 < u < 1 of the solver and cosine randoms in [0, 1] above
  threshold. These are what the loop needs so that the masses stay positive and every boost
  is defined.
- TwoParticle.TwoParticleCom.MapInverseRoundTrip: requires r2 strictly inside (0, 1). At r2 = 0
  or 1 the momentum lies on the z axis and atan2(0, 0) says nothing about r1.
- TwoParticle.TwoParticleLab.MapInverseRoundTrip: the same restriction on r2.
- TChannel.TInvariantCom.MapInverseRoundTrip: requires ptot at rest, as the COM mapping
  assumes of its inputs, and a sampled cosine strictly inside (-1, 1). The read-back r2 and
  density follow from `KernelLaws`, not from the invariant blocks themselves.
- TChannel.TInvariantCom.MapOnShell: k2 is on its mass shell only when ptot is at rest.
- RootFinder.NewtonStaysInBracket: the root finders are proved to stay in their brackets, to
  report their errors exactly, and (for bisection) to halve the bracket and converge. That
  the result is close to a root of f is not proved, and the source does not promise it: both
  finders return the last iterate without converging.

## Findings

| source | as written | input that shows it | evidently intended | confidence | as-written member | corrected member |
|---|---|---|---|---|---|---|
| madspace/twoparticle.py:121 | `r1 = phi / 2 / pi` with phi from atan2 in (-pi, pi] (also at lines 231, 377 and 531) | r1 = 0.75 mapped forward gives phi = 1.5 pi, and atan2 returns -0.5 pi, so map_inverse returns r1 = -0.25 | `phi / (2 pi) + (phi < 0)`, as `madspace/rambo.py:324` reads an azimuth back, returning r1 | medium, not executed | TwoParticle.TwoParticleCom.AzimuthAsWrittenShifts | TwoParticle.TwoParticleCom.MapInverseRoundTrip |
| madspace/twoparticle.py:338 | `p_out, q2_in, angles_in = inputs[0]` unpacks the batch of output momenta alone along its batch axis (also at line 488), where `map` returns the three outputs as separate entries | a batch of two events: unpacking two rows into three names raises a ValueError. With three events, k1 = p_out[:, 0] holds two numbers and `lsquare(k1)` at line 348 raises. `density(inverse=True)` fails the same way | `p_out, q2_in, angles_in = inputs[0], inputs[1], inputs[2]`, as every other map_inverse reads its inputs | high, not executed | TChannel.MapInverseAsWrittenRejectsPairs | TChannel.TInvariantCom.MapInverseRoundTrip |
| madspace/twoparticle.py:517 | the LAB t-channel map_inverse boosts and turns back the rebuilt p1 instead of k1 | any event: the turned-back vector is the rebuilt p1 at rest along z, so costheta = 1 and r2 is that of cos(theta) = 1 whatever k1 is | `boost(k1, ptot, inverse=True)`, as the COM version turns back k1 | high, not executed | TChannel.TInvariantLab.MapInverseAsWrittenIgnoresK1 | TChannel.TInvariantLab.MapInverseRoundTrip |
| madspace/rambo.py:44 | `self.e_min = sum(masses)`, where `sum` is `torch.sum` (imported at line 5) applied to the Python list of masses (also at line 174) | `RAMBO(2, [1.0, 1.0])`: the length assertion passes and `torch.sum` raises a TypeError because its argument is not a tensor | the builtin sum of the masses (or `self.masses.sum()`), giving e_min | high, not executed | Rambo.NewSetupAsWrittenRejectsMasses | Rambo.NewSetup |
| madspace/rambo.py:150 | `self.map(self, inputs)` passes the mapping object as the inputs (also at line 371) | any call density(inputs) with inverse=False: map indexes `inputs[0]` of the mapping object and fails | `self.map(inputs)`, returning the weight of the map | high, not executed | Rambo.DensityAsWritten | Rambo.RamboMap.Density |
