/** The batched root finders: a safeguarded Newton iteration and bisection on a bracket
    [a, b]. A batch is a sequence of points, one per event; the function whose root is sought
    takes the batch index and the point, so that each event may have its own function. The
    brackets are arrays updated in place under a mask, as the tensors of the original are. */
module RootFinder {
  import opened Failures
  import opened Kinematics
  import opened Elementary

  /** The default iteration count and the tolerances of the convergence test. */
  const ITER: nat := 100
  const XTOL: real := 0.000000000002
  /** The spacing of double-precision numbers at 1, 2^-52. */
  const MACHINE_EPSILON: real := 1.0 / 4503599627370496.0
  const RTOL: real := 4.0 * MACHINE_EPSILON
  /** The default smallest admissible derivative of the Newton iteration. */
  const EPSILON: real := 0.00000001

  /** A batched real function: the value at a point for the event with the given index. */
  type Batched = (int, real) -> real

  /** The batch holding v n times. */
  function Fill(v: real, n: nat): (s: seq<real>)
    ensures |s| == n && forall i :: 0 <= i < n ==> s[i] == v
  {
    seq(n, _ => v)
  }

  /** The convergence test: x is close to y for every event, within an absolute tolerance
      XTOL plus a tolerance RTOL relative to y. */
  predicate AllClose(x: seq<real>, y: seq<real>)
    requires |x| == |y|
  {
    forall i :: 0 <= i < |x| ==> Abs(x[i] - y[i]) <= XTOL + RTOL * Abs(y[i])
  }

  /** Some event has f of the same strict sign at both ends of [a, b]. */
  predicate BracketFails(f: Batched, a: real, b: real, n: nat) {
    exists i :: 0 <= i < n && f(i, a) * f(i, b) > 0.0
  }

  /** Every event has lo <= x <= hi. */
  predicate Inside(lo: seq<real>, x: seq<real>, hi: seq<real>)
    requires |lo| == |x| && |hi| == |x|
  {
    forall i :: 0 <= i < |x| ==> lo[i] <= x[i] <= hi[i]
  }

  /** Every event's bracket [lo, hi] lies within [a, b] and is not inverted. */
  predicate Nested(a: real, lo: seq<real>, hi: seq<real>, b: real)
    requires |lo| == |hi|
  {
    forall i :: 0 <= i < |lo| ==> a <= lo[i] <= hi[i] <= b
  }

  /** For every event, f does not have the same strict sign at both ends of the bracket. */
  predicate SignChange(f: Batched, lo: seq<real>, hi: seq<real>)
    requires |lo| == |hi|
  {
    forall i :: 0 <= i < |lo| ==> f(i, lo[i]) * f(i, hi[i]) <= 0.0
  }

  // ---------------------------------------------------------------------------------------
  // Newton's method

  /** A Newton step that leaves the bracket [lo, hi] is replaced by the midpoint between the
      previous iterate and the bracket end it overshot; an undershoot, written last, wins
      when both masks are set. */
  function ClampAt(lo: real, hi: real, prev: real, next: real): (c: real)
    ensures lo <= prev <= hi ==> lo <= c <= hi
    ensures lo <= next <= hi ==> c == next
  {
    if next < lo then (lo + prev) / 2.0
    else if hi < next then (hi + prev) / 2.0
    else next
  }

  /** The safeguarded Newton iterate of every event. An iterate inside its bracket stays
      inside. */
  function NewtonIterate(f: Batched, df: Batched, lo: seq<real>, hi: seq<real>, x: seq<real>): (y: seq<real>)
    requires |lo| == |x| && |hi| == |x|
    requires forall i :: 0 <= i < |x| ==> df(i, x[i]) != 0.0
    ensures |y| == |x|
  {
    seq(|x|, i requires 0 <= i < |x| => ClampAt(lo[i], hi[i], x[i], x[i] - f(i, x[i]) / df(i, x[i])))
  }

  /** An iterate inside its bracket stays inside after the safeguarded step. */
  lemma NewtonIterateInside(f: Batched, df: Batched, lo: seq<real>, hi: seq<real>, x: seq<real>)
    requires |lo| == |x| && |hi| == |x| && Inside(lo, x, hi)
    requires forall i :: 0 <= i < |x| ==> df(i, x[i]) != 0.0
    ensures Inside(lo, NewtonIterate(f, df, lo, hi, x), hi)
  {
    var y := NewtonIterate(f, df, lo, hi, x);
    forall i | 0 <= i < |x|
      ensures lo[i] <= y[i] <= hi[i]
    {
      assert y[i] == ClampAt(lo[i], hi[i], x[i], x[i] - f(i, x[i]) / df(i, x[i]));
    }
  }

  /** The new lower bracket: the iterate replaces the lower end where f has the same strict
      sign at both. */
  function NewtonLower(f: Batched, lo: seq<real>, x: seq<real>): seq<real>
    requires |lo| == |x|
  {
    seq(|x|, i requires 0 <= i < |x| => if f(i, x[i]) * f(i, lo[i]) > 0.0 then x[i] else lo[i])
  }

  /** The new upper bracket: the iterate replaces the upper end everywhere else. */
  function NewtonUpper(f: Batched, lo: seq<real>, hi: seq<real>, x: seq<real>): seq<real>
    requires |lo| == |x| && |hi| == |x|
  {
    seq(|x|, i requires 0 <= i < |x| => if f(i, x[i]) * f(i, lo[i]) > 0.0 then hi[i] else x[i])
  }

  /** The Newton iteration with k iterations left from iterate x and brackets [lo, hi]. */
  function NewtonLoop(f: Batched, df: Batched, lo: seq<real>, hi: seq<real>, x: seq<real>, k: nat, epsilon: real): Result<seq<real>>
    requires |lo| == |x| && |hi| == |x| && 0.0 < epsilon
    decreases k
  {
    if k == 0 then Ok(x)
    else if exists i :: 0 <= i < |x| && df(i, x[i]) < epsilon then Err(DerivativeTooSmall)
    else
      var next := NewtonIterate(f, df, lo, hi, x);
      if AllClose(x, next) then Ok(next)
      else NewtonLoop(f, df, NewtonLower(f, lo, next), NewtonUpper(f, lo, hi, next), next, k - 1, epsilon)
  }

  /** What newton(f, df, a, b, x0, maxIter, epsilon) returns or raises. */
  function NewtonResult(f: Batched, df: Batched, a: real, b: real, x0: seq<real>, maxIter: nat, epsilon: real): Result<seq<real>>
    requires 0.0 < epsilon
  {
    if BracketFails(f, a, b, |x0|) then Err(NoUniqueRoot)
    else NewtonLoop(f, df, Fill(a, |x0|), Fill(b, |x0|), x0, maxIter, epsilon)
  }

  /** A new array holding v n times, as a times torch.ones_like(x0). */
  method Filled(v: real, n: nat) returns (arr: array<real>)
    ensures fresh(arr) && arr[..] == Fill(v, n)
  {
    arr := new real[n](_ => v);
    assert arr[..] == Fill(v, n);
  }

  /** Newton's method on the batch x0 with the bracket [a, b]. */
  method Newton(f: Batched, df: Batched, a: real, b: real, x0: seq<real>, maxIter: nat, epsilon: real)
    returns (r: Result<seq<real>>)
    requires 0.0 < epsilon
    ensures r == NewtonResult(f, df, a, b, x0, maxIter, epsilon)
  {
    var n := |x0|;
    if exists i :: 0 <= i < n && f(i, a) * f(i, b) > 0.0 {
      return Err(NoUniqueRoot);
    }
    var xa := Filled(a, n);
    var xb := Filled(b, n);
    var x := x0;
    var it := 0;
    ghost var goal := NewtonResult(f, df, a, b, x0, maxIter, epsilon);
    ghost var lo, hi := xa[..], xb[..];
    while it < maxIter
      invariant 0 <= it <= maxIter && |x| == n && xa.Length == n && xb.Length == n
      invariant xa[..] == lo && xb[..] == hi
      invariant NewtonLoop(f, df, lo, hi, x, maxIter - it, epsilon) == goal
    {
      var done, res, next := NewtonRound(f, df, xa, xb, x, maxIter - it, epsilon);
      if done {
        return res;
      }
      x := next;
      it := it + 1;
      lo, hi := xa[..], xb[..];
    }
    return Ok(x);
  }

  /** One pass of the loop of newton: the derivative test, the safeguarded step, the
      convergence test and the bracket update. It either finishes the iteration with res or
      hands the next iterate on. */
  method NewtonRound(f: Batched, df: Batched, xa: array<real>, xb: array<real>, x: seq<real>, k: nat, epsilon: real)
    returns (done: bool, res: Result<seq<real>>, next: seq<real>)
    requires xa.Length == |x| && xb.Length == |x| && xa != xb && 0 < k && 0.0 < epsilon
    modifies xa, xb
    ensures done ==> res == NewtonLoop(f, df, old(xa[..]), old(xb[..]), x, k, epsilon)
    ensures !done ==> |next| == |x| && NewtonLoop(f, df, xa[..], xb[..], next, k - 1, epsilon)
                                        == NewtonLoop(f, df, old(xa[..]), old(xb[..]), x, k, epsilon)
  {
    next := x;
    if exists i :: 0 <= i < |x| && df(i, x[i]) < epsilon {
      return true, Err(DerivativeTooSmall), next;
    }
    var lo, hi := xa[..], xb[..];
    next := NewtonStep(f, df, lo, hi, x);
    if AllClose(x, next) {
      return true, Ok(next), next;
    }
    AdjustBrackets(f, xa, xb, next);
    return false, Ok(next), next;
  }

  /** One safeguarded Newton step for the whole batch: the raw step, then the two masked
      writes, both masks taken from the raw step. */
  method NewtonStep(f: Batched, df: Batched, lo: seq<real>, hi: seq<real>, x: seq<real>) returns (next: seq<real>)
    requires |lo| == |x| && |hi| == |x|
    requires forall i :: 0 <= i < |x| ==> df(i, x[i]) != 0.0
    ensures next == NewtonIterate(f, df, lo, hi, x)
  {
    var n := |x|;
    var x1 := new real[n](i requires 0 <= i < n => x[i] - f(i, x[i]) / df(i, x[i]));
    var raw := x1[..];
    var higher := seq(n, i requires 0 <= i < n => raw[i] > hi[i]);
    var lower := seq(n, i requires 0 <= i < n => raw[i] < lo[i]);
    forall i | 0 <= i < n && higher[i] {
      x1[i] := (hi[i] + x[i]) / 2.0;
    }
    forall i | 0 <= i < n && lower[i] {
      x1[i] := (lo[i] + x[i]) / 2.0;
    }
    next := x1[..];
  }

  /** The masked bracket update: where f(x1) f(xa) > 0 the iterate becomes the lower end,
      elsewhere the upper end. */
  method AdjustBrackets(f: Batched, xa: array<real>, xb: array<real>, next: seq<real>)
    requires xa.Length == |next| && xb.Length == |next| && xa != xb
    modifies xa, xb
    ensures xa[..] == NewtonLower(f, old(xa[..]), next)
    ensures xb[..] == NewtonUpper(f, old(xa[..]), old(xb[..]), next)
  {
    var n := |next|;
    var lo := xa[..];
    var low := seq(n, i requires 0 <= i < n => f(i, next[i]) * f(i, lo[i]) > 0.0);
    forall i | 0 <= i < n && low[i] {
      xa[i] := next[i];
    }
    forall i | 0 <= i < n && !low[i] {
      xb[i] := next[i];
    }
  }

  /** The iteration itself never reports a missing root. */
  lemma {:induction false} NewtonLoopKeepsBracketError(f: Batched, df: Batched, lo: seq<real>, hi: seq<real>, x: seq<real>, k: nat, epsilon: real)
    requires |lo| == |x| && |hi| == |x| && 0.0 < epsilon
    ensures NewtonLoop(f, df, lo, hi, x, k, epsilon) != Err(NoUniqueRoot)
    decreases k
  {
    if k > 0 && !(exists i :: 0 <= i < |x| && df(i, x[i]) < epsilon) {
      var next := NewtonIterate(f, df, lo, hi, x);
      if !AllClose(x, next) {
        NewtonLoopKeepsBracketError(f, df, NewtonLower(f, lo, next), NewtonUpper(f, lo, hi, next), next, k - 1, epsilon);
      }
    }
  }

  /** newton raises "no unique root" exactly when some event has f of the same strict sign at
      a and at b. */
  lemma NewtonBracketError(f: Batched, df: Batched, a: real, b: real, x0: seq<real>, maxIter: nat, epsilon: real)
    requires 0.0 < epsilon
    ensures NewtonResult(f, df, a, b, x0, maxIter, epsilon) == Err(NoUniqueRoot) <==> BracketFails(f, a, b, |x0|)
  {
    NewtonLoopKeepsBracketError(f, df, Fill(a, |x0|), Fill(b, |x0|), x0, maxIter, epsilon);
  }

  /** The loop tests the derivative at y: either y is the current iterate x with passes left,
      or x passed the derivative test, its step did not converge, and a later pass tests y. */
  predicate NewtonTests(f: Batched, df: Batched, lo: seq<real>, hi: seq<real>, x: seq<real>, k: nat, epsilon: real, y: seq<real>)
    requires |lo| == |x| && |hi| == |x| && 0.0 < epsilon
    decreases k
  {
    && 0 < k
    && (|| y == x
        || (&& !(exists i :: 0 <= i < |x| && df(i, x[i]) < epsilon)
            && var next := NewtonIterate(f, df, lo, hi, x);
               && !AllClose(x, next)
               && NewtonTests(f, df, NewtonLower(f, lo, next), NewtonUpper(f, lo, hi, next), next, k - 1, epsilon, y)))
  }

  /** At any pass of the loop, whatever the brackets, a derivative below epsilon for some event
      at the current iterate stops the iteration with an error before any step. */
  lemma NewtonLoopFlatDerivative(f: Batched, df: Batched, lo: seq<real>, hi: seq<real>, x: seq<real>, k: nat, epsilon: real, i: int)
    requires |lo| == |x| && |hi| == |x| && 0.0 < epsilon && 0 < k
    requires 0 <= i < |x| && df(i, x[i]) < epsilon
    ensures NewtonLoop(f, df, lo, hi, x, k, epsilon) == Err(DerivativeTooSmall)
  {}

  /** The loop raises "derivative too small" exactly when some iterate it tests has a derivative
      below epsilon for some event. */
  lemma {:induction false} NewtonDerivativeError(f: Batched, df: Batched, lo: seq<real>, hi: seq<real>, x: seq<real>, k: nat, epsilon: real)
    requires |lo| == |x| && |hi| == |x| && 0.0 < epsilon
    ensures NewtonLoop(f, df, lo, hi, x, k, epsilon) == Err(DerivativeTooSmall)
            <==> exists y: seq<real>, i: int ::
                   NewtonTests(f, df, lo, hi, x, k, epsilon, y) && 0 <= i < |y| && df(i, y[i]) < epsilon
    decreases k
  {
    if k > 0 {
      if exists i :: 0 <= i < |x| && df(i, x[i]) < epsilon {
        var i :| 0 <= i < |x| && df(i, x[i]) < epsilon;
        NewtonLoopFlatDerivative(f, df, lo, hi, x, k, epsilon, i);
        assert NewtonTests(f, df, lo, hi, x, k, epsilon, x);
      } else {
        var next := NewtonIterate(f, df, lo, hi, x);
        var lo', hi' := NewtonLower(f, lo, next), NewtonUpper(f, lo, hi, next);
        if AllClose(x, next) {
          forall y: seq<real>, i: int | NewtonTests(f, df, lo, hi, x, k, epsilon, y) && 0 <= i < |y|
            ensures epsilon <= df(i, y[i])
          {
            assert y == x;
          }
        } else {
          NewtonDerivativeError(f, df, lo', hi', next, k - 1, epsilon);
          forall y: seq<real> | NewtonTests(f, df, lo, hi, x, k, epsilon, y) && y != x
            ensures NewtonTests(f, df, lo', hi', next, k - 1, epsilon, y)
          {}
          forall y: seq<real> | NewtonTests(f, df, lo', hi', next, k - 1, epsilon, y)
            ensures NewtonTests(f, df, lo, hi, x, k, epsilon, y)
          {}
        }
      }
    }
  }

  /** A derivative below epsilon for some event at the start iterate raises "derivative too
      small" before any step, once the bracket test has passed. */
  lemma NewtonFlatDerivative(f: Batched, df: Batched, a: real, b: real, x0: seq<real>, maxIter: nat, epsilon: real, i: int)
    requires 0.0 < epsilon && 0 < maxIter && !BracketFails(f, a, b, |x0|)
    requires 0 <= i < |x0| && df(i, x0[i]) < epsilon
    ensures NewtonResult(f, df, a, b, x0, maxIter, epsilon) == Err(DerivativeTooSmall)
  {
    NewtonLoopFlatDerivative(f, df, Fill(a, |x0|), Fill(b, |x0|), x0, maxIter, epsilon, i);
  }

  /** newton raises "derivative too small" exactly when the bracket test passes and some
      iterate of its loop has a derivative below epsilon for some event. */
  lemma NewtonResultDerivativeError(f: Batched, df: Batched, a: real, b: real, x0: seq<real>, maxIter: nat, epsilon: real)
    requires 0.0 < epsilon
    ensures NewtonResult(f, df, a, b, x0, maxIter, epsilon) == Err(DerivativeTooSmall)
            <==> && !BracketFails(f, a, b, |x0|)
                 && exists y: seq<real>, i: int ::
                      && NewtonTests(f, df, Fill(a, |x0|), Fill(b, |x0|), x0, maxIter, epsilon, y)
                      && 0 <= i < |y| && df(i, y[i]) < epsilon
  {
    NewtonDerivativeError(f, df, Fill(a, |x0|), Fill(b, |x0|), x0, maxIter, epsilon);
  }

  /** With a derivative of at least epsilon everywhere the iteration always delivers a batch of
      the input's size. */
  lemma {:induction false} NewtonLoopSteep(f: Batched, df: Batched, lo: seq<real>, hi: seq<real>, x: seq<real>, k: nat, epsilon: real)
    requires |lo| == |x| && |hi| == |x| && 0.0 < epsilon
    requires forall i: int, y: real :: epsilon <= df(i, y)
    ensures NewtonLoop(f, df, lo, hi, x, k, epsilon).Ok?
    ensures |NewtonLoop(f, df, lo, hi, x, k, epsilon).value| == |x|
    decreases k
  {
    if k > 0 {
      forall i | 0 <= i < |x|
        ensures epsilon <= df(i, x[i])
      {
        var y := x[i];
        assert epsilon <= df(i, y);
      }
      var next := NewtonIterate(f, df, lo, hi, x);
      if !AllClose(x, next) {
        NewtonLoopSteep(f, df, NewtonLower(f, lo, next), NewtonUpper(f, lo, hi, next), next, k - 1, epsilon);
      }
    }
  }

  /** newton succeeds whenever the bracket has a sign change for every event and the
      derivative is never below epsilon. */
  lemma NewtonSucceeds(f: Batched, df: Batched, a: real, b: real, x0: seq<real>, maxIter: nat, epsilon: real)
    requires 0.0 < epsilon && !BracketFails(f, a, b, |x0|)
    requires forall i: int, y: real :: epsilon <= df(i, y)
    ensures NewtonResult(f, df, a, b, x0, maxIter, epsilon).Ok?
    ensures |NewtonResult(f, df, a, b, x0, maxIter, epsilon).value| == |x0|
  {
    NewtonLoopSteep(f, df, Fill(a, |x0|), Fill(b, |x0|), x0, maxIter, epsilon);
  }

  /** The bracket update keeps each iterate's bracket nested in the last one. */
  lemma NewtonUpdateNested(f: Batched, a: real, b: real, lo: seq<real>, hi: seq<real>, x: seq<real>)
    requires |lo| == |x| && |hi| == |x| && Nested(a, lo, hi, b) && Inside(lo, x, hi)
    ensures Nested(a, NewtonLower(f, lo, x), NewtonUpper(f, lo, hi, x), b)
    ensures forall i :: 0 <= i < |x| ==> lo[i] <= NewtonLower(f, lo, x)[i] && NewtonUpper(f, lo, hi, x)[i] <= hi[i]
  {}

  /** A product f1 fa > 0 means f1 has the sign of fa, so a sign change fa fb <= 0 carries
      over to f1 fb <= 0. */
  lemma SignCarry(fa: real, fb: real, f1: real)
    requires f1 * fa > 0.0 && fa * fb <= 0.0
    ensures f1 * fb <= 0.0
  {
    if fa > 0.0 {
      if f1 <= 0.0 {
        MulNonNegEq(-f1, fa, -(f1 * fa));
      }
      if fb > 0.0 {
        MulPosEq(fa, fb, fa * fb);
      }
      MulNonNegEq(f1, -fb, -(f1 * fb));
    } else if fa < 0.0 {
      if f1 >= 0.0 {
        MulNonNegEq(f1, -fa, -(f1 * fa));
      }
      if fb < 0.0 {
        MulPosEq(-fa, -fb, fa * fb);
      }
      MulNonNegEq(-f1, fb, -(f1 * fb));
    }
  }

  /** The bracket update keeps a sign change of f across every event's bracket. */
  lemma NewtonUpdateKeepsSignChange(f: Batched, lo: seq<real>, hi: seq<real>, x: seq<real>)
    requires |lo| == |x| && |hi| == |x| && SignChange(f, lo, hi)
    ensures SignChange(f, NewtonLower(f, lo, x), NewtonUpper(f, lo, hi, x))
  {
    var nlo, nhi := NewtonLower(f, lo, x), NewtonUpper(f, lo, hi, x);
    forall i | 0 <= i < |x|
      ensures f(i, nlo[i]) * f(i, nhi[i]) <= 0.0
    {
      if f(i, x[i]) * f(i, lo[i]) > 0.0 {
        SignCarry(f(i, lo[i]), f(i, hi[i]), f(i, x[i]));
      }
    }
  }

  /** Started inside [a, b], every iterate stays in its bracket and the result lies in
      [a, b]. */
  lemma {:induction false} NewtonLoopInside(f: Batched, df: Batched, a: real, b: real, lo: seq<real>, hi: seq<real>, x: seq<real>, k: nat, epsilon: real)
    requires |lo| == |x| && |hi| == |x| && 0.0 < epsilon
    requires Nested(a, lo, hi, b) && Inside(lo, x, hi)
    ensures NewtonLoop(f, df, lo, hi, x, k, epsilon).Ok? ==>
              var y := NewtonLoop(f, df, lo, hi, x, k, epsilon).value;
              |y| == |x| && forall i :: 0 <= i < |y| ==> a <= y[i] <= b
    decreases k
  {
    if k > 0 && !(exists i :: 0 <= i < |x| && df(i, x[i]) < epsilon) {
      var next := NewtonIterate(f, df, lo, hi, x);
      NewtonIterateInside(f, df, lo, hi, x);
      if !AllClose(x, next) {
        NewtonUpdateNested(f, a, b, lo, hi, next);
        var nlo, nhi := NewtonLower(f, lo, next), NewtonUpper(f, lo, hi, next);
        assert Inside(nlo, next, nhi);
        NewtonLoopInside(f, df, a, b, nlo, nhi, next, k - 1, epsilon);
      }
    }
  }

  /** A start inside [a <= b] gives a result inside [a, b]: the safeguard never lets an
      iterate leave the bracket. */
  lemma NewtonStaysInBracket(f: Batched, df: Batched, a: real, b: real, x0: seq<real>, maxIter: nat, epsilon: real)
    requires 0.0 < epsilon && a <= b && forall i :: 0 <= i < |x0| ==> a <= x0[i] <= b
    ensures NewtonResult(f, df, a, b, x0, maxIter, epsilon).Ok? ==>
              var y := NewtonResult(f, df, a, b, x0, maxIter, epsilon).value;
              |y| == |x0| && forall i :: 0 <= i < |y| ==> a <= y[i] <= b
  {
    if !BracketFails(f, a, b, |x0|) {
      NewtonLoopInside(f, df, a, b, Fill(a, |x0|), Fill(b, |x0|), x0, maxIter, epsilon);
    }
  }

  // ---------------------------------------------------------------------------------------
  // Bisection

  /** The brackets of every event. */
  datatype Bracket = Bracket(lo: seq<real>, hi: seq<real>)

  /** Every event's bracket midpoint. */
  function Midpoint(br: Bracket): (m: seq<real>)
    requires |br.lo| == |br.hi|
    ensures |m| == |br.lo|
    ensures forall i :: 0 <= i < |m| ==> m[i] - br.lo[i] == br.hi[i] - m[i]
  {
    seq(|br.lo|, i requires 0 <= i < |br.lo| => (br.lo[i] + br.hi[i]) / 2.0)
  }

  /** One bisection step: the midpoint becomes the upper end where f is positive there and the
      lower end everywhere else. */
  function BisectStep(f: Batched, br: Bracket): (nb: Bracket)
    requires |br.lo| == |br.hi|
    ensures |nb.lo| == |br.lo| && |nb.hi| == |br.lo|
  {
    var m := Midpoint(br);
    Bracket(seq(|m|, i requires 0 <= i < |m| => if f(i, m[i]) > 0.0 then br.lo[i] else m[i]),
            seq(|m|, i requires 0 <= i < |m| => if f(i, m[i]) > 0.0 then m[i] else br.hi[i]))
  }

  /** The brackets after j bisection steps. */
  function BisectState(f: Batched, br: Bracket, j: nat): (nb: Bracket)
    requires |br.lo| == |br.hi|
    ensures |nb.lo| == |br.lo| && |nb.hi| == |br.lo|
    decreases j
  {
    if j == 0 then br else BisectState(f, BisectStep(f, br), j - 1)
  }

  /** Bisection with k iterations left from the brackets br; x is the last midpoint. */
  function BisectLoop(f: Batched, br: Bracket, x: seq<real>, k: nat): (r: Result<seq<real>>)
    requires |br.lo| == |br.hi| && |x| == |br.lo|
    ensures r.Ok? && |r.value| == |x|
    decreases k
  {
    if k == 0 then Ok(x)
    else
      var m := Midpoint(br);
      var nb := BisectStep(f, br);
      if AllClose(nb.lo, nb.hi) then Ok(m) else BisectLoop(f, nb, m, k - 1)
  }

  /** What bisect(f, df, a, b, x0, maxIter) returns or raises; df is not used. */
  function BisectResult(f: Batched, a: real, b: real, x0: seq<real>, maxIter: nat): Result<seq<real>> {
    if BracketFails(f, a, b, |x0|) then Err(NoUniqueRoot)
    else BisectLoop(f, Bracket(Fill(a, |x0|), Fill(b, |x0|)), x0, maxIter)
  }

  /** Bisection on the batch x0 with the bracket [a, b]. */
  method Bisect(f: Batched, a: real, b: real, x0: seq<real>, maxIter: nat) returns (r: Result<seq<real>>)
    ensures r == BisectResult(f, a, b, x0, maxIter)
  {
    var n := |x0|;
    if exists i :: 0 <= i < n && f(i, a) * f(i, b) > 0.0 {
      return Err(NoUniqueRoot);
    }
    var xa := Filled(a, n);
    var xb := Filled(b, n);
    var x := x0;
    var it := 0;
    ghost var goal := BisectResult(f, a, b, x0, maxIter);
    ghost var br := Bracket(xa[..], xb[..]);
    while it < maxIter
      invariant 0 <= it <= maxIter && |x| == n && xa.Length == n && xb.Length == n
      invariant br == Bracket(xa[..], xb[..])
      invariant BisectLoop(f, br, x, maxIter - it) == goal
    {
      var done, x1 := BisectRound(f, xa, xb);
      if done {
        return Ok(x1);
      }
      x := x1;
      it := it + 1;
      br := Bracket(xa[..], xb[..]);
    }
    return Ok(x);
  }

  /** One pass of the loop of bisect: the midpoint, the two masked bracket writes and the
      convergence test of the new brackets. */
  method BisectRound(f: Batched, xa: array<real>, xb: array<real>) returns (done: bool, x1: seq<real>)
    requires xa.Length == xb.Length && xa != xb
    modifies xa, xb
    ensures x1 == Midpoint(Bracket(old(xa[..]), old(xb[..])))
    ensures Bracket(xa[..], xb[..]) == BisectStep(f, Bracket(old(xa[..]), old(xb[..])))
    ensures done <==> AllClose(xa[..], xb[..])
  {
    var n := xa.Length;
    var br := Bracket(xa[..], xb[..]);
    x1 := Midpoint(br);
    var higher := seq(n, i requires 0 <= i < n => f(i, x1[i]) > 0.0);
    forall i | 0 <= i < n && !higher[i] {
      xa[i] := x1[i];
    }
    forall i | 0 <= i < n && higher[i] {
      xb[i] := x1[i];
    }
    assert Bracket(xa[..], xb[..]) == BisectStep(f, br);
    done := AllClose(xa[..], xb[..]);
  }

  /** bisect raises "no unique root" exactly when some event has f of the same strict sign at
      a and at b, and returns a batch of the input's size otherwise. */
  lemma BisectBracketError(f: Batched, a: real, b: real, x0: seq<real>, maxIter: nat)
    ensures BisectResult(f, a, b, x0, maxIter) == Err(NoUniqueRoot) <==> BracketFails(f, a, b, |x0|)
    ensures !BracketFails(f, a, b, |x0|) ==> BisectResult(f, a, b, x0, maxIter).Ok? && |BisectResult(f, a, b, x0, maxIter).value| == |x0|
  {}

  /** One step halves every event's bracket and keeps the new one inside the old. */
  lemma BisectStepHalves(f: Batched, br: Bracket)
    requires |br.lo| == |br.hi|
    ensures forall i :: 0 <= i < |br.lo| ==>
              BisectStep(f, br).hi[i] - BisectStep(f, br).lo[i] == (br.hi[i] - br.lo[i]) / 2.0
    ensures forall i :: 0 <= i < |br.lo| && br.lo[i] <= br.hi[i] ==>
              br.lo[i] <= BisectStep(f, br).lo[i] <= BisectStep(f, br).hi[i] <= br.hi[i]
  {}

  /** 2^j as a real. */
  function Pow2(j: nat): (p: real)
    ensures 1.0 <= p
  {
    if j == 0 then 1.0 else 2.0 * Pow2(j - 1)
  }

  /** After j steps every event's bracket is 2^-j times as wide as at the start. */
  lemma {:induction false} BisectWidth(f: Batched, br: Bracket, j: nat)
    requires |br.lo| == |br.hi|
    ensures forall i :: 0 <= i < |br.lo| ==>
              Pow2(j) * (BisectState(f, br, j).hi[i] - BisectState(f, br, j).lo[i]) == br.hi[i] - br.lo[i]
    decreases j
  {
    if j > 0 {
      var nb := BisectStep(f, br);
      BisectStepHalves(f, br);
      BisectWidth(f, nb, j - 1);
      var s := BisectState(f, br, j);
      assert s == BisectState(f, nb, j - 1);
      forall i | 0 <= i < |br.lo|
        ensures Pow2(j) * (s.hi[i] - s.lo[i]) == br.hi[i] - br.lo[i]
      {
        var p, w, w1 := Pow2(j - 1), s.hi[i] - s.lo[i], nb.hi[i] - nb.lo[i];
        assert p * w == w1;
        assert w1 == (br.hi[i] - br.lo[i]) / 2.0;
        assert Pow2(j) * w == 2.0 * (p * w);
      }
    }
  }

  /** The bracket stays nested: after any number of steps every event's bracket lies within
      the starting one. */
  lemma {:induction false} BisectNested(f: Batched, a: real, b: real, br: Bracket, j: nat)
    requires |br.lo| == |br.hi| && Nested(a, br.lo, br.hi, b)
    ensures Nested(a, BisectState(f, br, j).lo, BisectState(f, br, j).hi, b)
    decreases j
  {
    if j > 0 {
      BisectStepHalves(f, br);
      BisectNested(f, a, b, BisectStep(f, br), j - 1);
    }
  }

  /** Ends that moved carry the sign bisection gave them: a lower end other than a has
      f <= 0 there, an upper end other than b has f > 0 there. */
  predicate EndSigns(f: Batched, a: real, b: real, br: Bracket)
    requires |br.lo| == |br.hi|
  {
    forall i :: 0 <= i < |br.lo| ==>
      (br.lo[i] == a || f(i, br.lo[i]) <= 0.0) && (br.hi[i] == b || f(i, br.hi[i]) > 0.0)
  }

  /** The lower end only ever moves to points where f <= 0, the upper end only to points
      where f > 0. */
  lemma {:induction false} BisectEndSigns(f: Batched, a: real, b: real, br: Bracket, j: nat)
    requires |br.lo| == |br.hi| && EndSigns(f, a, b, br)
    ensures EndSigns(f, a, b, BisectState(f, br, j))
    decreases j
  {
    if j > 0 {
      var nb := BisectStep(f, br);
      assert EndSigns(f, a, b, nb);
      BisectEndSigns(f, a, b, nb, j - 1);
    }
  }

  /** With at least one iteration, bisect returns the midpoint of the brackets after some
      j < k steps. */
  lemma {:induction false} BisectReturnsMidpoint(f: Batched, br: Bracket, x: seq<real>, k: nat)
    requires |br.lo| == |br.hi| && |x| == |br.lo| && 0 < k
    ensures exists j :: 0 <= j < k && BisectLoop(f, br, x, k) == Ok(Midpoint(BisectState(f, br, j)))
    decreases k
  {
    var nb := BisectStep(f, br);
    if AllClose(nb.lo, nb.hi) || k == 1 {
      assert BisectLoop(f, br, x, k) == Ok(Midpoint(BisectState(f, br, 0)));
    } else {
      BisectReturnsMidpoint(f, nb, Midpoint(br), k - 1);
      var j :| 0 <= j < k - 1 && BisectLoop(f, nb, Midpoint(br), k - 1) == Ok(Midpoint(BisectState(f, nb, j)));
      assert BisectState(f, br, j + 1) == BisectState(f, nb, j);
    }
  }

  /** Once the brackets after m + 1 steps pass the convergence test, with m < k, bisection has
      stopped at the midpoint of the brackets after some j <= m steps. */
  lemma {:induction false} BisectStopsByStep(f: Batched, br: Bracket, x: seq<real>, k: nat, m: nat)
    requires |br.lo| == |br.hi| && |x| == |br.lo| && m < k
    requires AllClose(BisectState(f, br, m + 1).lo, BisectState(f, br, m + 1).hi)
    ensures exists j :: 0 <= j <= m && BisectLoop(f, br, x, k) == Ok(Midpoint(BisectState(f, br, j)))
    decreases m
  {
    var nb := BisectStep(f, br);
    if AllClose(nb.lo, nb.hi) {
      assert BisectLoop(f, br, x, k) == Ok(Midpoint(BisectState(f, br, 0)));
    } else {
      assert BisectState(f, br, m + 1) == BisectState(f, nb, m);
      assert m > 0;
      BisectStopsByStep(f, nb, Midpoint(br), k - 1, m - 1);
      var j :| 0 <= j <= m - 1 && BisectLoop(f, nb, Midpoint(br), k - 1) == Ok(Midpoint(BisectState(f, nb, j)));
      assert BisectState(f, br, j + 1) == BisectState(f, nb, j);
    }
  }

  lemma PositiveFactorBound(p: real, w: real, w0: real, t: real)
    requires 0.0 < p && p * w == w0 && 0.0 <= w0 <= t * p
    ensures 0.0 <= w <= t
  {
    if w > t {
      MulPosEq(p, w - t, p * w - p * t);
    }
    if w < 0.0 {
      MulPosEq(p, -w, -w0);
    }
  }

  /** Bisection converges in time: when every starting width is at most XTOL 2^(m+1) and
      m < k, it returns the midpoint of the brackets after at most m steps. */
  lemma BisectConverges(f: Batched, br: Bracket, x: seq<real>, k: nat, m: nat)
    requires |br.lo| == |br.hi| && |x| == |br.lo| && m < k
    requires forall i :: 0 <= i < |br.lo| ==> br.lo[i] <= br.hi[i] <= br.lo[i] + XTOL * Pow2(m + 1)
    ensures exists j :: 0 <= j <= m && BisectLoop(f, br, x, k) == Ok(Midpoint(BisectState(f, br, j)))
  {
    var s := BisectState(f, br, m + 1);
    BisectWidth(f, br, m + 1);
    forall i | 0 <= i < |br.lo|
      ensures Abs(s.lo[i] - s.hi[i]) <= XTOL + RTOL * Abs(s.hi[i])
    {
      PositiveFactorBound(Pow2(m + 1), s.hi[i] - s.lo[i], br.hi[i] - br.lo[i], XTOL);
    }
    BisectStopsByStep(f, br, x, k, m);
  }
}
