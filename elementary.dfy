/** The elementary transcendental functions the phase-space code takes from torch and from
    Python's math module, as a record of function values. Nothing is known about them except
    the laws collected in Lawful, so every result proved from them holds for the exact
    mathematical functions. */
module Elementary {

  datatype Elementary = Elementary(
    pi: real,
    sqrt: real -> real,
    cos: real -> real,
    sin: real -> real,
    cosh: real -> real,
    sinh: real -> real,
    log: real -> real,
    atan2: (real, real) -> real)

  /** The laws the proofs use: the principal square root, the Pythagorean identity, the
      hyperbolic identity, the sign of the logarithm on (0, 1) and a bracket on pi. */
  ghost predicate Lawful(el: Elementary) {
    && 3.14159 < el.pi < 3.1416
    && (forall x :: 0.0 <= x ==> 0.0 <= el.sqrt(x) && el.sqrt(x) * el.sqrt(x) == x)
    && (forall x :: el.cos(x) * el.cos(x) + el.sin(x) * el.sin(x) == 1.0)
    && (forall x :: el.cosh(x) * el.cosh(x) - el.sinh(x) * el.sinh(x) == 1.0)
    && (forall x :: 0.0 < x < 1.0 ==> el.log(x) < 0.0)
  }

  /** The laws of the two-argument arctangent: for a point off the origin it returns an angle
      in (-pi, pi], namely the angle a in that range whose direction (cos a, sin a) the point
      has (parallel to it and on the same side), so that the direction of the angle it
      returns is the point's own, and cos and sin repeat after 2 pi. */
  ghost predicate PolarLaws(el: Elementary) {
    && (forall y, x :: x != 0.0 || y != 0.0 ==> -el.pi < el.atan2(y, x) <= el.pi)
    && (forall y, x {:trigger AzimuthOf(el, y, x)} :: x != 0.0 || y != 0.0 ==>
          && x * el.sin(AzimuthOf(el, y, x)) == y * el.cos(AzimuthOf(el, y, x))
          && 0.0 < x * el.cos(AzimuthOf(el, y, x)) + y * el.sin(AzimuthOf(el, y, x)))
    && (forall y, x, a {:trigger el.atan2(y, x), el.cos(a)} ::
          -el.pi < a <= el.pi && x * el.sin(a) == y * el.cos(a) && 0.0 < x * el.cos(a) + y * el.sin(a)
          ==> el.atan2(y, x) == a)
    && (forall a, b :: b == a + 2.0 * el.pi ==> el.cos(b) == el.cos(a) && el.sin(b) == el.sin(a))
  }

  /** atan2(y, x) as a term of its own: the law that its direction is the point's own is
      stated on this term, so that it comes into play only where a proof names it. */
  function AzimuthOf(el: Elementary, y: real, x: real): real {
    el.atan2(y, x)
  }

  /** A product of two positive numbers is positive. */
  lemma MulPos(a: real, b: real)
    requires 0.0 < a && 0.0 < b
    ensures 0.0 < a * b
  {}

  /** A product of non-negative numbers, named q, is non-negative. */
  lemma MulNonNegEq(a: real, b: real, q: real)
    requires 0.0 <= a && 0.0 <= b && q == a * b
    ensures 0.0 <= q
  {}

  /** A product of positive numbers, named q, is positive (also usable when a and b coincide). */
  lemma MulPosEq(a: real, b: real, q: real)
    requires 0.0 < a && 0.0 < b && q == a * b
    ensures 0.0 < q
  {}

  /** A non-zero number divided by itself is one. */
  lemma SelfQuotient(x: real)
    requires x != 0.0
    ensures x / x == 1.0
  {}

  /** Two non-negative numbers with equal squares are equal. */
  lemma SquareInjective(r: real, x: real)
    requires 0.0 <= r && 0.0 <= x && r * r == x * x
    ensures r == x
  {
    if r < x {
      assert (x - r) * (x + r) == x * x - r * r;
      MulPos(x - r, x + r);
    } else if x < r {
      assert (r - x) * (r + x) == r * r - x * x;
      MulPos(r - x, r + x);
    }
  }

  /** The square root of a square of a non-negative number is that number. */
  lemma SqrtOfSquare(el: Elementary, x: real)
    requires Lawful(el)
    requires 0.0 <= x
    ensures el.sqrt(x * x) == x
  {
    var r := el.sqrt(x * x);
    assert 0.0 <= r && r * r == x * x;
    SquareInjective(r, x);
  }

  /** The square root of a positive number is positive. */
  lemma SqrtPositive(el: Elementary, x: real)
    requires Lawful(el)
    requires 0.0 < x
    ensures 0.0 < el.sqrt(x)
  {
    assert el.sqrt(x) * el.sqrt(x) == x;
  }

  /** The square root is determined by its square: a non-negative r with r * r == x is sqrt(x). */
  lemma SqrtUnique(el: Elementary, x: real, r: real)
    requires Lawful(el)
    requires 0.0 <= r && r * r == x
    ensures el.sqrt(x) == r
  {
    SqrtOfSquare(el, r);
  }

  /** A unit pair (c, s) parallel to (x, y) and on its side
      is (x, y) divided by its length rho. */
  lemma DirectionFromPair(rho: real, c: real, s: real, x: real, y: real)
    requires c * c + s * s == 1.0 && 0.0 <= rho && rho * rho == x * x + y * y
    requires x * s == y * c && 0.0 < x * c + y * s
    ensures rho * c == x && rho * s == y
  {
    var u := x * c + y * s;
    assert u * u + (x * s - y * c) * (x * s - y * c) == (x * x + y * y) * (c * c + s * s);
    SquareInjective(u, rho);
    assert u * c == x * (c * c) + s * (y * c);
    assert u * s == y * (s * s) + c * (x * s);
  }

  /** The angle atan2 returns for (x, y) points along (x, y): with rho the length of (x, y),
      rho (cos a, sin a) is (x, y) again, also at the origin, where rho = 0. */
  lemma AtanDirection(el: Elementary, rho: real, x: real, y: real)
    requires Lawful(el) && PolarLaws(el) && 0.0 <= rho && rho * rho == x * x + y * y
    ensures rho * el.cos(el.atan2(y, x)) == x && rho * el.sin(el.atan2(y, x)) == y
  {
    if x == 0.0 && y == 0.0 {
      SquareInjective(rho, 0.0);
    } else {
      AtanDirectionOffOrigin(el, rho, x, y);
    }
  }

  lemma AtanDirectionOffOrigin(el: Elementary, rho: real, x: real, y: real)
    requires Lawful(el) && PolarLaws(el) && 0.0 <= rho && rho * rho == x * x + y * y
    requires x != 0.0 || y != 0.0
    ensures rho * el.cos(el.atan2(y, x)) == x && rho * el.sin(el.atan2(y, x)) == y
  {
    AtanPair(el, x, y);
    DirectionFromPair(rho, el.cos(el.atan2(y, x)), el.sin(el.atan2(y, x)), x, y);
  }

  /** The unit pair of the angle atan2 returns, parallel to (x, y) and on its side. */
  lemma AtanPair(el: Elementary, x: real, y: real)
    requires Lawful(el) && PolarLaws(el) && (x != 0.0 || y != 0.0)
    ensures el.cos(el.atan2(y, x)) * el.cos(el.atan2(y, x)) + el.sin(el.atan2(y, x)) * el.sin(el.atan2(y, x)) == 1.0
    ensures x * el.sin(el.atan2(y, x)) == y * el.cos(el.atan2(y, x))
    ensures 0.0 < x * el.cos(el.atan2(y, x)) + y * el.sin(el.atan2(y, x))
  {
    assert AzimuthOf(el, y, x) == el.atan2(y, x);
  }
}
