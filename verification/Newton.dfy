/** Integer facts behind the two Newton loops of the StableSwap curve.

    Everything here is about plain integers: one floored Newton step on the quadratic
    y*y + (b - d)*y - c, and one on the cubic z*z*z + q*a*z - k whose step also floors
    the cube d*d*d / q. */
module Newton {

  function Pow(base: nat, e: nat): nat {
    if e == 0 then 1 else base * Pow(base, e - 1)
  }

  lemma {:induction false} PowAdd(base: nat, m: nat, n: nat)
    ensures Pow(base, m + n) == Pow(base, m) * Pow(base, n)
  {
    if m != 0 {
      PowAdd(base, m - 1, n);
      assert base * (Pow(base, m - 1) * Pow(base, n)) == (base * Pow(base, m - 1)) * Pow(base, n);
    }
  }

  lemma {:induction false} PowPositive(base: nat, e: nat)
    requires 0 < base
    ensures 0 < Pow(base, e)
  {
    if e != 0 { PowPositive(base, e - 1); }
  }

  // (3/2)^12 exceeds 2^7, so (3/2)^(12*n) exceeds 2^(7*n).
  lemma {:induction false} ThreeHalves(n: nat)
    ensures Pow(2, 19 * n) <= Pow(3, 12 * n)
  {
    if n != 0 {
      ThreeHalves(n - 1);
      PowAdd(2, 19, 19 * (n - 1));
      PowAdd(3, 12, 12 * (n - 1));
      assert Pow(2, 19) == 524288 by {
        PowAdd(2, 10, 9); PowAdd(2, 5, 5); PowAdd(2, 5, 4);
        assert Pow(2, 4) == 16 && Pow(2, 5) == 32;
      }
      assert Pow(3, 12) == 531441 by {
        PowAdd(3, 6, 6); PowAdd(3, 3, 3);
        assert Pow(3, 3) == 27;
      }
      var t, h := Pow(2, 19 * (n - 1)), Pow(3, 12 * (n - 1));
      assert 524288 * t <= 531441 * h;
    }
  }

  // A floored quotient by a positive divisor, in multiplied-out form.
  lemma DivBounds(n: int, d: int)
    requires 0 < d
    ensures (n / d) * d <= n < (n / d + 1) * d
  {
  }

  lemma MulLe(a: int, b: int, k: int)
    requires a <= b && 0 <= k
    ensures a * k <= b * k
  {
  }

  lemma CancelLt(a: int, b: int, k: int)
    requires 0 < k && a * k < b * k
    ensures a < b
  {
  }

  // ------------------------------------------------------------------ quadratic

  function Quad(b: int, c: int, d: int, y: int): int {
    y * y + (b - d) * y - c
  }

  function QuadDen(b: int, d: int, y: int): int {
    2 * y + b - d
  }

  function QuadStep(b: int, c: int, d: int, y: int): int
    requires 0 < QuadDen(b, d, y)
  {
    (y * y + c) / QuadDen(b, d, y)
  }

  // The quadratic at z, expanded around the iterate y.
  lemma QuadAround(b: int, c: int, d: int, y: int, z: int)
    ensures Quad(b, c, d, z) == (z - y) * (z - y) + z * QuadDen(b, d, y) - (y * y + c)
  {
  }

  // One unit above a step the quadratic is positive, whatever the step started from.
  lemma QuadStepAbove(b: int, c: int, d: int, y: int)
    requires 0 < QuadDen(b, d, y)
    ensures 1 <= Quad(b, c, d, QuadStep(b, c, d, y) + 1)
  {
    DivBounds(y * y + c, QuadDen(b, d, y));
    QuadAbove(b, c, d, y, QuadStep(b, c, d, y) + 1);
  }

  lemma QuadAbove(b: int, c: int, d: int, y: int, z: int)
    requires y * y + c < z * QuadDen(b, d, y)
    ensures 1 <= Quad(b, c, d, z)
  {
    QuadAround(b, c, d, y, z);
    SquareNonNegative(z - y);
  }

  lemma SquareNonNegative(t: int)
    ensures 0 <= t * t
  {
  }

  // A step of at most one unit lands on a point where the quadratic is at most one.
  lemma QuadStepSettled(b: int, c: int, d: int, y: int)
    requires 0 < QuadDen(b, d, y)
    requires -1 <= QuadStep(b, c, d, y) - y <= 1
    ensures Quad(b, c, d, QuadStep(b, c, d, y)) <= 1
  {
    var z := QuadStep(b, c, d, y);
    DivBounds(y * y + c, QuadDen(b, d, y));
    QuadAround(b, c, d, y, z);
    SquareOfUnit(z - y);
  }

  lemma SquareOfUnit(t: int)
    requires -1 <= t <= 1
    ensures t * t <= 1
  {
    if t == 0 { } else if t == 1 { } else { assert t == -1; }
  }

  // u is the least positive point of the quadratic.
  ghost predicate QuadRoot(b: int, c: int, d: int, u: int) {
    1 <= u && 1 <= Quad(b, c, d, u) && Quad(b, c, d, u - 1) <= 0
  }

  // Searching downwards from any positive point finds the root.
  ghost function QuadRootBelow(b: int, c: nat, d: int, n: nat): (u: nat)
    requires 1 <= Quad(b, c, d, n)
    ensures u <= n && QuadRoot(b, c, d, u)
  {
    if Quad(b, c, d, n - 1) <= 0 then n else QuadRootBelow(b, c, d, n - 1)
  }

  // Between 0 and the root the quadratic is not positive; from the root on it is,
  // and it is increasing.
  lemma QuadSign(b: int, c: nat, d: int, u: int, z: nat)
    requires QuadRoot(b, c, d, u)
    ensures z < u ==> Quad(b, c, d, z) <= 0
    ensures u <= z ==> 1 <= Quad(b, c, d, z) && 0 < z + b - d
  {
    QuadFactored(b, c, d, u);
    QuadFactored(b, c, d, u - 1);
    QuadFactored(b, c, d, z);
    CancelLt(0, u + b - d, u);
    if u <= z {
      ProductLe(u, z, u + b - d, z + b - d);
    } else if z + b - d <= 0 {
      MulLe(z + b - d, 0, z);
    } else {
      ProductLe(z, u - 1, z + b - d, u - 1 + b - d);
    }
  }

  lemma QuadFactored(b: int, c: int, d: int, y: int)
    ensures Quad(b, c, d, y) == y * (y + b - d) - c
  {
    assert y * (y + b - d) == y * y + y * (b - d);
  }

  lemma ProductLe(a: nat, b: nat, m: nat, n: nat)
    requires a <= b && m <= n
    ensures a * m <= b * n
  {
    MulLe(a, b, m);
    MulLe(m, n, b);
  }

  // From at or above the root a step at least halves the distance to it.
  lemma QuadHalves(b: int, c: nat, d: int, u: int, y: nat)
    requires QuadRoot(b, c, d, u) && u <= y
    ensures 0 < QuadDen(b, d, y)
    ensures 2 * (QuadStep(b, c, d, y) - u) <= y - u
  {
    QuadSign(b, c, d, u, y);
    QuadSign(b, c, d, u, u);
    var den := QuadDen(b, d, y);
    var z := QuadStep(b, c, d, y);
    DivBounds(y * y + c, den);
    QuadAround(b, c, d, y, u);
    HalfDistance(z - u, y - u, den);
  }

  lemma HalfDistance(w: int, e: nat, den: int)
    requires 0 < den && 2 * e <= den && w * den <= e * e
    ensures 2 * w <= e
  {
    MulLe(2 * e, den, e);
    assert 2 * (e * e) <= den * e;
    if w > 0 { CancelLe(2 * w, e, den); }
  }

  lemma CancelLe(a: int, b: int, k: int)
    requires 0 < k && a * k <= b * k
    ensures a <= b
  {
  }

  // A step never falls below the unit before the root.
  lemma QuadFloor(b: int, c: nat, d: int, u: int, y: nat)
    requires QuadRoot(b, c, d, u) && 0 < QuadDen(b, d, y)
    ensures u - 1 <= QuadStep(b, c, d, y) && 0 <= QuadStep(b, c, d, y)
  {
    QuadStepAbove(b, c, d, y);
    var z := QuadStep(b, c, d, y);
    DivBounds(y * y + c, QuadDen(b, d, y));
    CancelLt(0, z + 1, QuadDen(b, d, y));
    QuadSign(b, c, d, u, z + 1);
  }

  // From the unit before the root a step moves up by at most one.
  lemma QuadLastStep(b: int, c: nat, d: int, u: int)
    requires QuadRoot(b, c, d, u) && 0 < QuadDen(b, d, u - 1)
    ensures u - 1 <= QuadStep(b, c, d, u - 1) <= u
  {
    QuadFloor(b, c, d, u, u - 1);
    var y := u - 1;
    var den := QuadDen(b, d, y);
    var z := QuadStep(b, c, d, y);
    DivBounds(y * y + c, den);
    QuadAround(b, c, d, y, u);
    assert (u - y) * (u - y) == 1;
    assert y * y + c <= u * den;
    CancelLe(z, u, den);
  }

  // A zero denominator could only be met at 0, one unit below the previous iterate.
  lemma QuadStuck(b: int, c: nat, d: int, y: nat, z: nat)
    requires 0 < QuadDen(b, d, y) && z == QuadStep(b, c, d, y)
    requires Quad(b, c, d, z) <= 0 && 0 <= QuadDen(b, d, z)
    requires 1 <= Quad(b, c, d, z + 1)
    requires !(-1 <= z - y <= 1)
    ensures 0 < QuadDen(b, d, z)
  {
    if b - d == -2 * z {
      assert Quad(b, c, d, z + 1) == 1 - z * z - c;
      DivBounds(y * y + c, QuadDen(b, d, y));
      assert z * z + c <= 0;
      SquareZero(z);
      CancelLt(y, 2, y);
      assert false;
    }
  }

  lemma SquareZero(z: int)
    requires z * z <= 0
    ensures z == 0
  {
  }

  // An iterate reached by a step of more than one unit has a positive denominator.
  lemma QuadDenPositive(b: int, c: nat, d: int, u: int, y: nat)
    requires QuadRoot(b, c, d, u) && 0 < QuadDen(b, d, y)
    requires !(-1 <= QuadStep(b, c, d, y) - y <= 1)
    ensures 0 < QuadDen(b, d, QuadStep(b, c, d, y))
  {
    QuadFloor(b, c, d, u, y);
    var z := QuadStep(b, c, d, y);
    if u <= z {
      QuadSign(b, c, d, u, z);
    } else {
      assert z == u - 1;
      assert Quad(b, c, d, u) - Quad(b, c, d, z) == QuadDen(b, d, z) + 1;
      QuadStuck(b, c, d, y, z);
    }
  }
}
