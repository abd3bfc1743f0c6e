/** StableSwap solvers of a pool opened with curve "stable": the invariant D of two
    normalized reserves, the reserve that keeps D, and the floor a swap is held to.

    The curve of two reserves x, y with amplification A (Ann = 2*A) is
        Ann*(x + y) + D = Ann*D + D^3 / (4*x*y).
    Multiplying by 4*x*y turns "D is on the curve" into Invariant(x, y, amp, D) == 0;
    Invariant increases with D, so its sign says on which side of the exact D a
    number lies. */
module StableSwap {
  import opened Newton
  import Cubic

  const MAX_ITERATIONS: nat := 255
  const MAX_AMP := 10000
  const PRECISION_DECIMALS: nat := 18

  // The source answers the last two with one error value.
  datatype Error = InvalidInput | NotSettled | BadDenominator
  datatype Result = Ok(value: int) | Err(error: Error)

  predicate ValidAmp(amp: int) {
    1 <= amp <= MAX_AMP
  }

  function Invariant(x: int, y: int, amp: int, d: int): int {
    d * d * d + 4 * x * y * (2 * amp - 1) * d - 4 * x * y * (2 * amp) * (x + y)
  }

  // ------------------------------------------------------------------ the solver for D

  function DLoop(q: int, a: int, annS: int, d: int, i: nat): Result
    requires 0 < q
    decreases i
  {
    if i == 0 then Err(NotSettled)
    else if Cubic.Den(q, a, d) <= 0 then Err(BadDenominator)
    else
      var next := Cubic.Step(q, a, annS, d);
      if -1 <= next - d <= 1 then Ok(next) else DLoop(q, a, annS, next, i - 1)
  }

  function GetD(x: int, y: int, amp: int): Result {
    if x <= 0 || y <= 0 || !ValidAmp(amp) then Err(InvalidInput)
    else ReserveFacts(x, y); DLoop(4 * x * y, 2 * amp - 1, 2 * amp * (x + y), x + y, MAX_ITERATIONS)
  }

  // What every iterate satisfies: it never exceeds the sum of the reserves, and one
  // unit above it the invariant is already positive.
  ghost predicate DIterate(x: int, y: int, amp: int, d: int) {
    0 < d <= x + y && 0 < Invariant(x, y, amp, d + 1)
  }

  lemma ReserveFacts(x: int, y: int)
    requires 0 < x && 0 < y
    ensures 4 <= 4 * x * y <= (x + y) * (x + y) && 4 * x * y % 4 == 0
  {
    SquareNonNegative(x - y);
    assert (x + y) * (x + y) - 4 * x * y == (x - y) * (x - y);
    MulLe(1, x, y);
    var m := x * y;
    assert 4 * x * y == 4 * m;
  }

  lemma InvariantIsCubic(x: int, y: int, amp: int, d: int)
    ensures Invariant(x, y, amp, d) == Cubic.G(4 * x * y, 2 * amp - 1, 4 * x * y * (2 * amp * (x + y)), d)
  {
  }

  lemma InvariantIncreasing(x: int, y: int, amp: int, m: int, n: int)
    requires 0 < x && 0 < y && 0 < amp && 0 <= m <= n
    ensures Invariant(x, y, amp, m) <= Invariant(x, y, amp, n)
    ensures m < n ==> Invariant(x, y, amp, m) < Invariant(x, y, amp, n)
  {
    ReserveFacts(x, y);
    InvariantIsCubic(x, y, amp, m);
    InvariantIsCubic(x, y, amp, n);
    Cubic.Increasing(4 * x * y, 2 * amp - 1, 4 * x * y * (2 * amp * (x + y)), m, n);
  }

  // The exact D lies between twice the geometric mean and the sum of the reserves.
  lemma PositiveIsAboveMean(x: int, y: int, amp: int, n: int)
    requires 0 < x && 0 < y && 0 < amp && 0 <= n && 0 < Invariant(x, y, amp, n)
    ensures 4 * x * y < n * n
  {
    ReserveFacts(x, y);
    var q, s, ann := 4 * x * y, x + y, 2 * amp;
    if n * n <= q {
      RootBelow(n, s);
      assert n * n * n <= q * n by { MulLe(n * n, q, n); }
      MeanIdentity(q, ann, n, s);
      MulLe(n, s, q * ann);
      assert false;
    }
  }

  lemma RootBelow(n: int, s: int)
    requires 0 <= n && 0 < s && n * n <= s * s
    ensures n <= s
  {
    if s < n { ProductLe(s + 1, n, s + 1, n); assert false; }
  }

  lemma MeanIdentity(q: int, ann: int, n: int, s: int)
    ensures q * n + q * (ann - 1) * n - q * ann * s == n * (q * ann) - s * (q * ann)
  {
  }

  lemma SumIsIterate(x: int, y: int, amp: int)
    requires 0 < x && 0 < y && 0 < amp
    ensures DIterate(x, y, amp, x + y)
  {
    ReserveFacts(x, y);
    var q, s := 4 * x * y, x + y;
    assert Invariant(x, y, amp, s) == s * (s * s) - s * q by { SumIdentity(q, 2 * amp, s); }
    MulLe(q, s * s, s);
    InvariantIncreasing(x, y, amp, s, s + 1);
  }

  lemma SumIdentity(q: int, ann: int, s: int)
    ensures s * s * s + q * (ann - 1) * s - q * ann * s == s * (s * s) - s * q
  {
  }

  // One step of the loop: it keeps the iterate invariant, moves up by at most one, and
  // when it moves by at most one the result is exact to one unit.
  lemma DStep(x: int, y: int, amp: int, d: int)
    requires 0 < x && 0 < y && 0 < amp && DIterate(x, y, amp, d)
    ensures 0 < Cubic.Den(4 * x * y, 2 * amp - 1, d)
    ensures var z := Cubic.Step(4 * x * y, 2 * amp - 1, 2 * amp * (x + y), d);
      && DIterate(x, y, amp, z)
      && z <= d + 1
      && (-1 <= z - d <= 1 || z < d)
      && (d - 1 <= z ==> Invariant(x, y, amp, z - 1) <= 0)
      && (forall u :: 0 < u <= d && 0 < Invariant(x, y, amp, u) ==> 3 * (z - u) <= 2 * (d - u) + 3)
  {
    ReserveFacts(x, y);
    var q, a, s := 4 * x * y, 2 * amp - 1, x + y;
    var annS := 2 * amp * s;
    var k := q * annS;
    var z, r := Cubic.StepScaled(q, a, annS, d);
    assert a * d <= annS by { ProductLe(a, 2 * amp, d, s); }
    Cubic.StepAbove(q, a, annS, d, r, z);
    InvariantIsCubic(x, y, amp, z + 1);
    InvariantIsCubic(x, y, amp, d + 1);
    PositiveIsAboveMean(x, y, amp, d + 1);
    if d < 4 { Cubic.UpSmall(q, d); }
    Cubic.UpByOne(q, a, k, d, r, z);
    if d == s { Cubic.TopStep(q, a, k, d, r, z); }
    PositiveIsAboveMean(x, y, amp, z + 1);
    SquareAboveFour(z);
    if d - 1 <= z {
      InvariantIsCubic(x, y, amp, z - 1);
      Cubic.SettledBelow(q, a, k, d, r, z);
    }
    forall u | 0 < u <= d && 0 < Invariant(x, y, amp, u)
      ensures 3 * (z - u) <= 2 * (d - u) + 3
    {
      InvariantIsCubic(x, y, amp, u);
      Cubic.TwoThirdsStep(q, a, k, d, r, u, z);
    }
  }

  lemma SquareAboveFour(z: int)
    requires -1 < z + 1 && 4 < (z + 1) * (z + 1)
    ensures 0 < z
  {
    if z <= 0 { ProductLe(z + 1, 1, z + 1, 1); assert false; }
  }

  lemma {:induction false} DLoopExact(x: int, y: int, amp: int, d: int, i: nat)
    requires 0 < x && 0 < y && 0 < amp && DIterate(x, y, amp, d) && 0 < 4 * x * y
    ensures var r := DLoop(4 * x * y, 2 * amp - 1, 2 * amp * (x + y), d, i);
      && r != Err(BadDenominator) && r != Err(InvalidInput)
      && (r.Ok? ==> DIterate(x, y, amp, r.value) && Invariant(x, y, amp, r.value - 1) <= 0)
    decreases i
  {
    if i != 0 {
      DStep(x, y, amp, d);
      var z := Cubic.Step(4 * x * y, 2 * amp - 1, 2 * amp * (x + y), d);
      if !(-1 <= z - d <= 1) { DLoopExact(x, y, amp, z, i - 1); }
    }
  }

  // The least number at which the invariant is positive.
  ghost predicate DRoot(x: int, y: int, amp: int, u: int) {
    0 < u && 0 < Invariant(x, y, amp, u) && Invariant(x, y, amp, u - 1) <= 0
  }

  ghost function DRootBelow(x: int, y: int, amp: int, n: nat): (u: nat)
    requires 0 < x && 0 < y && 0 < amp && 0 < Invariant(x, y, amp, n)
    ensures u <= n && DRoot(x, y, amp, u)
  {
    InvariantAtZero(x, y, amp);
    if Invariant(x, y, amp, n - 1) <= 0 then n else DRootBelow(x, y, amp, n - 1)
  }

  lemma InvariantAtZero(x: int, y: int, amp: int)
    requires 0 < x && 0 < y && 0 < amp
    ensures Invariant(x, y, amp, 0) <= 0
  {
    ReserveFacts(x, y);
    assert 0 <= 4 * x * y * (2 * amp);
    MulLe(0, 4 * x * y * (2 * amp), x + y);
  }

  lemma IterateAboveRoot(x: int, y: int, amp: int, u: int, d: int)
    requires 0 < x && 0 < y && 0 < amp && DRoot(x, y, amp, u) && DIterate(x, y, amp, d)
    ensures u - 1 <= d
  {
    if d + 1 <= u - 1 {
      InvariantIncreasing(x, y, amp, d + 1, u - 1);
      assert false;
    }
  }

  // Within three units of the root the loop has at most three steps left.
  lemma {:induction false} DLoopEnds(x: int, y: int, amp: int, u: int, d: int, i: nat)
    requires 0 < x && 0 < y && 0 < amp && 0 < 4 * x * y
    requires DRoot(x, y, amp, u) && DIterate(x, y, amp, d)
    requires d - u <= 3 && 1 <= i && d - u + 2 <= 2 * i
    ensures DLoop(4 * x * y, 2 * amp - 1, 2 * amp * (x + y), d, i).Ok?
    decreases i
  {
    DStep(x, y, amp, d);
    var z := Cubic.Step(4 * x * y, 2 * amp - 1, 2 * amp * (x + y), d);
    IterateAboveRoot(x, y, amp, u, z);
    if !(-1 <= z - d <= 1) { DLoopEnds(x, y, amp, u, z, i - 1); }
  }

  // Each step keeps two thirds of the distance to the root, so k + 3 steps are enough
  // from a distance below (3/2)^k.
  lemma {:induction false} DLoopConverges(x: int, y: int, amp: int, u: int, d: int, k: nat, i: nat)
    requires 0 < x && 0 < y && 0 < amp && 0 < 4 * x * y
    requires DRoot(x, y, amp, u) && DIterate(x, y, amp, d)
    requires (d - u - 3) * Pow(2, k) < Pow(3, k) && k + 3 <= i
    ensures DLoop(4 * x * y, 2 * amp - 1, 2 * amp * (x + y), d, i).Ok?
    decreases i
  {
    if d - u <= 3 {
      DLoopEnds(x, y, amp, u, d, i);
    } else {
      DStep(x, y, amp, d);
      var z := Cubic.Step(4 * x * y, 2 * amp - 1, 2 * amp * (x + y), d);
      if !(-1 <= z - d <= 1) {
        ShrinkPower(d - u - 3, z - u - 3, k);
        DLoopConverges(x, y, amp, u, z, k - 1, i - 1);
      }
    }
  }

  lemma ShrinkPower(t: int, t': int, k: nat)
    requires 0 < t && 3 * t' <= 2 * t && t * Pow(2, k) < Pow(3, k)
    ensures 0 < k && t' * Pow(2, k - 1) < Pow(3, k - 1)
  {
    if k == 0 {
      assert false;
    } else {
      PowPositive(2, k - 1);
      MulLe(3 * t', 2 * t, Pow(2, k - 1));
      assert t * Pow(2, k) == 2 * t * Pow(2, k - 1);
    }
  }

  // StableGetD is exact to one unit, for all reserves, and lies between twice the
  // geometric mean and the sum of the reserves.
  lemma GetDExact(x: int, y: int, amp: int)
    ensures GetD(x, y, amp) == Err(InvalidInput) <==> x <= 0 || y <= 0 || !ValidAmp(amp)
    ensures GetD(x, y, amp) != Err(BadDenominator)
    ensures GetD(x, y, amp).Ok? ==>
      var d := GetD(x, y, amp).value;
      && Invariant(x, y, amp, d - 1) <= 0 < Invariant(x, y, amp, d + 1)
      && 0 < d <= x + y && 4 * x * y < (d + 1) * (d + 1)
  {
    if 0 < x && 0 < y && ValidAmp(amp) {
      ReserveFacts(x, y);
      SumIsIterate(x, y, amp);
      DLoopExact(x, y, amp, x + y, MAX_ITERATIONS);
      var r := GetD(x, y, amp);
      if r.Ok? { PositiveIsAboveMean(x, y, amp, r.value + 1); }
    }
  }

  // The cap is never reached while the reserves add up to at most 2^147.
  lemma GetDConverges(x: int, y: int, amp: int)
    requires 0 < x && 0 < y && ValidAmp(amp) && x + y <= Pow(2, 147)
    ensures GetD(x, y, amp).Ok?
  {
    ReserveFacts(x, y);
    SumIsIterate(x, y, amp);
    var s := x + y;
    var u := DRootBelow(x, y, amp, s + 1);
    ThreeHalves(21);
    PowAdd(2, 147, 252);
    PowPositive(2, 252);
    MulLe(s - u - 2, Pow(2, 147), Pow(2, 252));
    assert (s - u - 3) * Pow(2, 252) == (s - u - 2) * Pow(2, 252) - Pow(2, 252);
    DLoopConverges(x, y, amp, u, s, 252, MAX_ITERATIONS);
  }

  // ------------------------------------------------------------------ the solver for y

  function CoefB(xNew: int, d: int, amp: int): int
    requires 0 < amp
  {
    xNew + d / (2 * amp)
  }

  function CoefC(xNew: int, d: int, amp: int): int
    requires 0 < amp && 0 < xNew
  {
    CDivisorPositive(xNew, amp);
    d * d * d / (4 * xNew * (2 * amp))
  }

  lemma CDivisorPositive(xNew: int, amp: int)
    requires 0 < amp && 0 < xNew
    ensures 8 <= 4 * xNew * (2 * amp)
  {
    ProductLe(1, xNew, 1, amp);
    assert 4 * xNew * (2 * amp) == 8 * (xNew * amp);
  }

  function YLoop(b: int, c: int, d: int, y: int, i: nat): Result
    decreases i
  {
    if i == 0 then Err(NotSettled)
    else if QuadDen(b, d, y) <= 0 then Err(BadDenominator)
    else
      var next := QuadStep(b, c, d, y);
      if -1 <= next - y <= 1 then Ok(next) else YLoop(b, c, d, next, i - 1)
  }

  function GetY(xNew: int, d: int, amp: int): Result {
    if xNew <= 0 || d <= 0 || !ValidAmp(amp) then Err(InvalidInput)
    else YLoop(CoefB(xNew, d, amp), CoefC(xNew, d, amp), d, d, MAX_ITERATIONS)
  }

  lemma CoefFacts(xNew: int, d: int, amp: int)
    requires 0 < xNew && 0 < d && 0 < amp
    ensures 0 < CoefB(xNew, d, amp)
    ensures 0 <= 8 * CoefC(xNew, d, amp) <= d * d * d
  {
    CDivisorPositive(xNew, amp);
    CubeNonNegative(d);
    EighthAtMost(d * d * d, 4 * xNew * (2 * amp));
  }

  lemma CubeNonNegative(d: int)
    requires 0 < d
    ensures 0 <= d * d * d
  {
  }

  lemma EighthAtMost(n: nat, m: int)
    requires 8 <= m
    ensures 0 <= 8 * (n / m) <= n
  {
    DivBounds(n, m);
    EighthOf(n, m, n / m);
  }

  lemma EighthOf(n: nat, m: int, c: int)
    requires 8 <= m && c * m <= n < (c + 1) * m
    ensures 0 <= 8 * c <= n
  {
    CancelLt(0, c + 1, m);
    MulLe(8, m, c);
  }

  // Some point is positive, so the quadratic has a root.
  ghost function YRoot(b: int, c: nat, d: int): (u: nat)
    requires 0 < b && 0 < d
    ensures QuadRoot(b, c, d, u)
  {
    var n := d + c + 1;
    QuadFactored(b, c, d, n);
    ProductLe(n, n, 1, n + b - d);
    QuadRootBelow(b, c, d, n)
  }

  // Whatever the cap, the loop never meets a denominator of zero or less, and a result
  // lies within one unit of the root of the floored quadratic.
  lemma {:induction false} YLoopExact(b: int, c: nat, d: int, u: int, y: nat, i: nat)
    requires QuadRoot(b, c, d, u) && 0 < QuadDen(b, d, y)
    ensures var r := YLoop(b, c, d, y, i);
      && r != Err(BadDenominator) && r != Err(InvalidInput)
      && (r.Ok? ==> 0 <= r.value && Quad(b, c, d, r.value) <= 1 <= Quad(b, c, d, r.value + 1))
    decreases i
  {
    if i != 0 {
      QuadStepAbove(b, c, d, y);
      QuadFloor(b, c, d, u, y);
      var z := QuadStep(b, c, d, y);
      if -1 <= z - y <= 1 {
        QuadStepSettled(b, c, d, y);
      } else {
        QuadDenPositive(b, c, d, u, y);
        YLoopExact(b, c, d, u, z, i - 1);
      }
    }
  }

  // After the first step the iterates fall until the stop test holds.
  lemma YDescends(b: int, c: nat, d: int, u: int, y: nat)
    requires QuadRoot(b, c, d, u) && u - 1 <= y && 0 < QuadDen(b, d, y)
    ensures u - 1 <= QuadStep(b, c, d, y) <= y + 1
    ensures u <= y ==> QuadStep(b, c, d, y) - u <= (y - u) / 2
  {
    QuadFloor(b, c, d, u, y);
    if y == u - 1 {
      QuadLastStep(b, c, d, u);
    } else {
      QuadHalves(b, c, d, u, y);
    }
  }

  lemma {:induction false} YLoopConverges(b: int, c: nat, d: int, u: int, y: nat, k: nat, i: nat)
    requires QuadRoot(b, c, d, u) && 0 < QuadDen(b, d, y)
    requires u - 1 <= y && y - u < Pow(2, k) && k + 1 <= i
    ensures YLoop(b, c, d, y, i).Ok?
    decreases i
  {
    YDescends(b, c, d, u, y);
    var z := QuadStep(b, c, d, y);
    if !(-1 <= z - y <= 1) {
      QuadDenPositive(b, c, d, u, y);
      assert k != 0;
      YLoopConverges(b, c, d, u, z, k - 1, i - 1);
    }
  }

  // y is the root of the floored quadratic, to one unit.
  ghost predicate YExact(xNew: int, d: int, amp: int, y: int)
    requires 0 < xNew && 0 < amp
  {
    var b, c := CoefB(xNew, d, amp), CoefC(xNew, d, amp);
    0 <= y && Quad(b, c, d, y) <= 1 <= Quad(b, c, d, y + 1)
  }

  // StableGetY is exact to one unit for the coefficients the code computes.
  lemma GetYExact(xNew: int, d: int, amp: int)
    ensures GetY(xNew, d, amp) == Err(InvalidInput) <==> xNew <= 0 || d <= 0 || !ValidAmp(amp)
    ensures GetY(xNew, d, amp) != Err(BadDenominator)
    ensures GetY(xNew, d, amp).Ok? ==> YExact(xNew, d, amp, GetY(xNew, d, amp).value)
  {
    if 0 < xNew && 0 < d && ValidAmp(amp) {
      CoefFacts(xNew, d, amp);
      var b, c := CoefB(xNew, d, amp), CoefC(xNew, d, amp);
      YLoopExact(b, c, d, YRoot(b, c, d), d, MAX_ITERATIONS);
    }
  }

  // The cap is never reached for D below 2^128.
  lemma GetYConverges(xNew: int, d: int, amp: int)
    requires 0 < xNew && 0 < d < Pow(2, 128) && ValidAmp(amp)
    ensures GetY(xNew, d, amp).Ok?
  {
    CoefFacts(xNew, d, amp);
    var b, c := CoefB(xNew, d, amp), CoefC(xNew, d, amp);
    var u := YRoot(b, c, d);
    PowGrows(2, 128, 252);
    if u - 1 <= d {
      YLoopConverges(b, c, d, u, d, 252, MAX_ITERATIONS);
    } else {
      QuadFloor(b, c, d, u, d);
      var z := QuadStep(b, c, d, d);
      FirstRise(b, c, d, z);
      PowAdd(2, 128, 128);
      PowAdd(2, 3, 253);
      assert Pow(2, 3) == 8;
      ProductLe(d, Pow(2, 128), d, Pow(2, 128));
      if !(-1 <= z - d <= 1) {
        QuadDenPositive(b, c, d, u, d);
        YLoopConverges(b, c, d, u, z, 253, MAX_ITERATIONS - 1);
      }
    }
  }

  lemma {:induction false} PowGrows(base: nat, m: nat, n: nat)
    requires 0 < base && m <= n
    ensures Pow(base, m) <= Pow(base, n)
  {
    PowAdd(base, m, n - m);
    PowPositive(base, m);
    PowPositive(base, n - m);
    MulLe(1, Pow(base, n - m), Pow(base, m));
  }

  // A first step from below the root rises by at most d*d/8.
  lemma FirstRise(b: int, c: nat, d: int, z: int)
    requires 0 < b && 0 < d && 8 * c <= d * d * d && z == QuadStep(b, c, d, d)
    ensures 8 * (z - d) <= d * d
  {
    assert QuadDen(b, d, d) == d + b;
    DivBounds(d * d + c, d + b);
    RiseBound(b, c, d, z);
  }

  lemma RiseBound(b: int, c: nat, d: int, z: int)
    requires 0 < b && 0 < d && 8 * c <= d * d * d && z * (d + b) <= d * d + c
    ensures 8 * (z - d) <= d * d
  {
    assert (8 * (z - d)) * (d + b) == 8 * (z * (d + b)) - 8 * (d * d) - 8 * (d * b);
    MulLe(d, d + b, d * d);
    MulLe(0, b, d);
    CancelLe(8 * (z - d), d * d, d + b);
  }

  // ------------------------------------------------------------------ the swap floor

  // 10^(18 - decimals), the multiplier to the normalized unit.
  function Rate(decimals: nat): Result {
    if decimals > PRECISION_DECIMALS then Err(InvalidInput) else Ok(Pow(10, PRECISION_DECIMALS - decimals))
  }

  function FloorY(storedX: int, x: int, y: int, rateX: int, rateY: int, amp: int): Result {
    if rateX <= 0 || rateY <= 0 then Err(InvalidInput)
    else
      var d0 := GetD(x * rateX, y * rateY, amp);
      if d0.Err? then d0 else GetY(storedX * rateX, d0.value, amp)
  }

  // The invariant against the floored quadratic, with the two remainders that the
  // coefficients dropped.
  lemma InvariantFromQuad(x: int, z: int, amp: int, d: int) returns (m: nat, f: int, v: nat, rb: nat, rc: nat)
    requires 0 < x && 0 < amp && 0 < d && 0 <= z
    ensures f == Quad(CoefB(x, d, amp), CoefC(x, d, amp), d, z)
    ensures rb < 2 * amp && rc < m && m * z == v * (2 * amp)
    ensures Invariant(x, z, amp, d) == rc - m * f - v * rb
  {
    CDivisorPositive(x, amp);
    var ann := 2 * amp;
    m := 4 * x * ann;
    MulLe(0, z, 4 * x);
    v := 4 * x * z;
    f := Quad(CoefB(x, d, amp), CoefC(x, d, amp), d, z);
    rb, rc := d % ann, d * d * d % m;
    DivRemainder(d, ann);
    DivRemainder(d * d * d, m);
    QuadIdentity(x, z, ann, d, CoefB(x, d, amp), CoefC(x, d, amp), rb, rc);
    Reorder(4 * x, ann, z);
  }

  lemma Reorder(a: int, b: int, c: int)
    ensures a * b * c == a * c * b
  {
  }

  lemma DivRemainder(n: int, d: int)
    requires 0 < d
    ensures n == d * (n / d) + n % d && 0 <= n % d < d
  {
  }

  lemma QuadIdentity(x: int, z: int, ann: int, d: int, b: int, c: int, rb: int, rc: int)
    requires d == ann * (b - x) + rb && d * d * d == 4 * x * ann * c + rc
    ensures d * d * d + 4 * x * z * (ann - 1) * d - 4 * x * z * ann * (x + z)
         == rc - 4 * x * ann * Quad(b, c, d, z) - 4 * x * z * rb
  {
    var v := 4 * x * z;
    SplitTerms(v, ann, d, b, x, z, rb);
    assert 4 * x * ann * Quad(b, c, d, z) == v * ann * (z + b - d) - 4 * x * ann * c;
  }

  lemma SplitTerms(v: int, ann: int, d: int, b: int, x: int, z: int, rb: int)
    requires d == ann * (b - x) + rb
    ensures v * (ann - 1) * d - v * ann * (x + z) == -(v * ann * (z + b - d)) - v * rb
  {
    assert v * (ann - 1) * d == v * ann * d - v * d;
    assert v * d == v * ann * (b - x) + v * rb;
  }

  lemma QuadPositiveMeansBelow(x: int, z: int, amp: int, d: int)
    requires 0 < x && 0 < amp && 0 < d && 0 <= z
    requires 1 <= Quad(CoefB(x, d, amp), CoefC(x, d, amp), d, z)
    ensures Invariant(x, z, amp, d) < 0
  {
    var m, f, v, rb, rc := InvariantFromQuad(x, z, amp, d);
    PositiveGap(m, f, v, rb, rc);
  }

  lemma PositiveGap(m: nat, f: int, v: nat, rb: nat, rc: nat)
    requires 1 <= f && rc < m
    ensures rc - m * f - v * rb < 0
  {
    MulLe(1, f, m);
  }

  lemma QuadNegativeMeansAbove(x: int, z: int, amp: int, d: int)
    requires 0 < x && 0 < amp && 0 < d && 0 <= z
    requires Quad(CoefB(x, d, amp), CoefC(x, d, amp), d, z) + z <= 0
    ensures 0 <= Invariant(x, z, amp, d)
  {
    var m, f, v, rb, rc := InvariantFromQuad(x, z, amp, d);
    NegativeGap(m, f, z, v, rb, 2 * amp);
  }

  lemma NegativeGap(m: nat, f: int, z: nat, v: nat, rb: nat, ann: nat)
    requires m * z == v * ann && rb <= ann && f + z <= 0
    ensures 0 <= -(m * f) - v * rb
  {
    MulLe(z, -f, m);
    MulLe(rb, ann, v);
  }

  // Below a point where the quadratic is at most one, it stays below minus the argument.
  lemma QuadBelowResult(b: int, c: nat, d: int, w: nat, z: nat)
    requires Quad(b, c, d, w) <= 1 && z < w
    ensures Quad(b, c, d, z) + z <= 0
  {
    QuadFactored(b, c, d, w);
    QuadFactored(b, c, d, z);
    var p, m := w + b - d, w - z;
    assert z + b - d == p - m;
    assert Quad(b, c, d, z) + z == z * (p - m + 1) - c;
    if p - m + 1 <= 0 {
      MulLe(p - m + 1, 0, z);
    } else {
      assert w * p <= c + 1;
      assert z * (p - m + 1) == w * p - m * p - z * (m - 1);
      MulLe(0, z, m - 1);
      ProductLe(1, m, 1, p);
    }
  }

  lemma QuadAboveResult(b: int, c: nat, d: int, w: nat, z: nat)
    requires 1 <= Quad(b, c, d, w) && w <= z
    ensures 1 <= Quad(b, c, d, z)
  {
    QuadFactored(b, c, d, w);
    QuadFactored(b, c, d, z);
    if w + b - d <= 0 {
      MulLe(w + b - d, 0, w);
      assert false;
    }
    ProductLe(w, z, w + b - d, z + b - d);
  }

  // The reserve StableGetY answers is the exact boundary of the curve, to one unit:
  // a reserve strictly above the curve is never below it, and one unit above it a
  // reserve is strictly above the curve.
  lemma GetYIsBoundary(x: int, d: int, amp: int, y: nat)
    requires GetY(x, d, amp).Ok?
    ensures Invariant(x, y, amp, d) < 0 ==> GetY(x, d, amp).value <= y
    ensures GetY(x, d, amp).value <= y ==> Invariant(x, y + 1, amp, d) < 0
  {
    GetYExact(x, d, amp);
    CoefFacts(x, d, amp);
    var w, b, c := GetY(x, d, amp).value, CoefB(x, d, amp), CoefC(x, d, amp);
    if y < w {
      QuadBelowResult(b, c, d, w, y);
      QuadNegativeMeansAbove(x, y, amp, d);
    } else {
      QuadAboveResult(b, c, d, w + 1, y + 1);
      QuadPositiveMeansBelow(x, y + 1, amp, d);
    }
  }

  // A negative invariant at d0 means the reserves' own D is at least d0.
  lemma BelowMeansLargerD(x: int, y: int, amp: int, d0: nat)
    requires Invariant(x, y, amp, d0) < 0 && GetD(x, y, amp).Ok?
    ensures d0 <= GetD(x, y, amp).value
  {
    GetDExact(x, y, amp);
    var d1 := GetD(x, y, amp).value;
    if d1 + 1 <= d0 {
      InvariantIncreasing(x, y, amp, d1 + 1, d0);
      assert false;
    }
  }

  // The swap check, as a statement about the exact curve. d0 is the D of the reserves
  // before the swap; storedX and storedY are the reserves after it. A stored output
  // reserve strictly above the old curve always passes; one that passes is strictly
  // above it after adding one normalized unit, so that its own D is at least d0.
  lemma FloorYIsExact(storedX: int, x: int, y: int, rateX: int, rateY: int, amp: int, newY: nat)
    requires FloorY(storedX, x, y, rateX, rateY, amp).Ok?
    ensures GetD(x * rateX, y * rateY, amp).Ok?
    ensures var d0 := GetD(x * rateX, y * rateY, amp).value;
      var floor := FloorY(storedX, x, y, rateX, rateY, amp).value;
      && (Invariant(storedX * rateX, newY, amp, d0) < 0 ==> floor <= newY)
      && (floor <= newY ==>
            && Invariant(storedX * rateX, newY + 1, amp, d0) < 0
            && (var d1 := GetD(storedX * rateX, newY + 1, amp); d1.Ok? ==> d0 <= d1.value))
  {
    var d0 := GetD(x * rateX, y * rateY, amp).value;
    GetDExact(x * rateX, y * rateY, amp);
    GetYExact(storedX * rateX, d0, amp);
    GetYIsBoundary(storedX * rateX, d0, amp, newY);
    if FloorY(storedX, x, y, rateX, rateY, amp).value <= newY && GetD(storedX * rateX, newY + 1, amp).Ok? {
      BelowMeansLargerD(storedX * rateX, newY + 1, amp, d0);
    }
  }

  // Reserves x, y against the curve of d and a floor for y: strictly above the curve means at
  // or above the floor, and that means strictly above the curve with one more unit.
  ghost predicate OnOrAbove(x: int, y: nat, amp: int, d: int, floor: int) {
    && (Invariant(x, y, amp, d) < 0 ==> floor <= y)
    && (floor <= y ==> Invariant(x, y + 1, amp, d) < 0)
  }

  // The check is never refused for want of convergence while the normalized reserves
  // add up to less than 2^128.
  lemma FloorYConverges(storedX: int, x: int, y: int, rateX: int, rateY: int, amp: int)
    requires 0 < rateX && 0 < rateY && 0 < storedX && 0 < x && 0 < y && ValidAmp(amp)
    requires x * rateX + y * rateY < Pow(2, 128)
    ensures FloorY(storedX, x, y, rateX, rateY, amp).Ok?
  {
    MulLe(1, x, rateX);
    MulLe(1, y, rateY);
    MulLe(1, storedX, rateX);
    PowGrows(2, 128, 147);
    GetDConverges(x * rateX, y * rateY, amp);
    GetDExact(x * rateX, y * rateY, amp);
    GetYConverges(storedX * rateX, GetD(x * rateX, y * rateY, amp).value, amp);
  }

  // ------------------------------------------------------------------ the loops themselves

  method StableGetD(x: int, y: int, amp: int) returns (r: Result)
    ensures r == GetD(x, y, amp)
    ensures r == Err(InvalidInput) <==> x <= 0 || y <= 0 || !ValidAmp(amp)
    ensures r.Ok? ==> Invariant(x, y, amp, r.value - 1) <= 0 < Invariant(x, y, amp, r.value + 1)
  {
    if x <= 0 || y <= 0 || !ValidAmp(amp) { return Err(InvalidInput); }
    GetDExact(x, y, amp);
    ReserveFacts(x, y);
    SumIsIterate(x, y, amp);
    var ann := 2 * amp;
    var s := x + y;
    var d := s;
    var annS := ann * s;
    var annMinusOne := ann - 1;
    var fourXY := 4 * x * y;
    var i := 0;
    while i < MAX_ITERATIONS
      invariant 0 <= i <= MAX_ITERATIONS
      invariant DIterate(x, y, amp, d)
      invariant GetD(x, y, amp) == DLoop(fourXY, annMinusOne, annS, d, MAX_ITERATIONS - i)
    {
      var dp := d * d * d / fourXY;
      var prev := d;
      var num := (annS + 2 * dp) * d;
      var den := annMinusOne * d + 3 * dp;
      DTurn(x, y, amp, d, MAX_ITERATIONS - i);
      // den is positive, so the source's refusal of a non-positive one is never taken
      d := num / den;
      if -1 <= d - prev <= 1 { return Ok(d); }
      i := i + 1;
    }
    return Err(NotSettled);
  }

  // One turn of the loop body, in the source's own terms.
  lemma DTurn(x: int, y: int, amp: int, d: int, i: nat)
    requires 0 < x && 0 < y && 0 < amp && DIterate(x, y, amp, d) && 0 < i && 0 < 4 * x * y
    ensures var q, a, annS := 4 * x * y, 2 * amp - 1, 2 * amp * (x + y);
      var dp := d * d * d / q;
      var den := a * d + 3 * dp;
      && 0 < den
      && var next := (annS + 2 * dp) * d / den;
         && DIterate(x, y, amp, next)
         && DLoop(q, a, annS, d, i) == if -1 <= next - d <= 1 then Ok(next) else DLoop(q, a, annS, next, i - 1)
  {
    DStep(x, y, amp, d);
  }

  method StableGetY(xNew: int, d: int, amp: int) returns (r: Result)
    ensures r == GetY(xNew, d, amp)
    ensures r == Err(InvalidInput) <==> xNew <= 0 || d <= 0 || !ValidAmp(amp)
    ensures r.Ok? ==> YExact(xNew, d, amp, r.value)
  {
    GetYExact(xNew, d, amp);
    if xNew <= 0 || d <= 0 || !ValidAmp(amp) { return Err(InvalidInput); }
    CoefFacts(xNew, d, amp);
    var c := CoefC(xNew, d, amp);
    var b := CoefB(xNew, d, amp);
    ghost var u := YRoot(b, c, d);
    var y := d;
    var i := 0;
    while i < MAX_ITERATIONS
      invariant 0 <= i <= MAX_ITERATIONS && 0 <= y && 0 < QuadDen(b, d, y)
      invariant GetY(xNew, d, amp) == YLoop(b, c, d, y, MAX_ITERATIONS - i)
    {
      var prev := y;
      var num := y * y + c;
      var den := 2 * y + b - d;
      YTurn(b, c, d, u, y, MAX_ITERATIONS - i);
      // den is positive, so the source's refusal of a non-positive one is never taken
      y := num / den;
      if -1 <= y - prev <= 1 { return Ok(y); }
      i := i + 1;
    }
    return Err(NotSettled);
  }

  lemma YTurn(b: int, c: nat, d: int, u: int, y: nat, i: nat)
    requires QuadRoot(b, c, d, u) && 0 < QuadDen(b, d, y) && 0 < i
    ensures var next := (y * y + c) / (2 * y + b - d);
      && 0 <= next
      && YLoop(b, c, d, y, i) == (if -1 <= next - y <= 1 then Ok(next) else YLoop(b, c, d, next, i - 1))
      && (-1 <= next - y <= 1 || 0 < QuadDen(b, d, next))
  {
    QuadFloor(b, c, d, u, y);
    if !(-1 <= QuadStep(b, c, d, y) - y <= 1) { QuadDenPositive(b, c, d, u, y); }
  }

  method StableFloorY(storedX: int, x: int, y: int, rateX: int, rateY: int, amp: int) returns (r: Result)
    ensures r == FloorY(storedX, x, y, rateX, rateY, amp)
    ensures r.Ok? ==> GetD(x * rateX, y * rateY, amp).Ok?
    ensures r.Ok? ==> forall newY: nat ::
      OnOrAbove(storedX * rateX, newY, amp, GetD(x * rateX, y * rateY, amp).value, r.value)
  {
    if FloorY(storedX, x, y, rateX, rateY, amp).Ok? {
      forall newY: nat
        ensures OnOrAbove(storedX * rateX, newY, amp, GetD(x * rateX, y * rateY, amp).value,
                          FloorY(storedX, x, y, rateX, rateY, amp).value)
      {
        FloorYIsExact(storedX, x, y, rateX, rateY, amp, newY);
      }
    }
    hide OnOrAbove, GetD, GetY;
    if rateX <= 0 || rateY <= 0 { return Err(InvalidInput); }
    var d0 := StableGetD(x * rateX, y * rateY, amp);
    if d0.Err? { return d0; }
    r := StableGetY(storedX * rateX, d0.value, amp);
  }
}
