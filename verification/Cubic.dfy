/** The floored Newton step of StableGetD, as facts about the cubic
    G(z) = z*z*z + q*a*z - k, with k = q * annS.

    The step floors twice: p = d*d*d / q first, then the quotient
    (annS + 2*p)*d / (a*d + 3*p). The lost remainder is r = d*d*d % q. */
module Cubic {
  import opened Newton

  function G(q: int, a: int, k: int, z: int): int {
    z * z * z + q * a * z - k
  }

  function Den(q: int, a: int, d: int): int
    requires 0 < q
  {
    a * d + 3 * (d * d * d / q)
  }

  function Step(q: int, a: int, annS: int, d: int): int
    requires 0 < q && 0 < Den(q, a, d)
  {
    (annS + 2 * (d * d * d / q)) * d / Den(q, a, d)
  }

  lemma DenPositive(q: int, a: int, d: int)
    requires 0 < q && 0 < a && 0 < d
    ensures 0 < Den(q, a, d)
  {
    assert 0 <= d * d * d;
    assert 0 <= d * d * d / q;
    assert 0 < a * d;
  }

  // The quotient of the step, cleared of both floors.
  lemma StepScaled(q: int, a: int, annS: int, d: int) returns (z: int, r: int)
    requires 0 < q && 0 < a && 0 < d
    ensures 0 < Den(q, a, d) && z == Step(q, a, annS, d)
    ensures r == d * d * d % q && 0 <= r < q && r <= d * d * d
    ensures 0 < d * (3 * d * d + q * a) - 3 * r
    ensures z * (d * (3 * d * d + q * a) - 3 * r) <= d * (2 * d * d * d + q * annS - 2 * r)
    ensures d * (2 * d * d * d + q * annS - 2 * r) < (z + 1) * (d * (3 * d * d + q * a) - 3 * r)
  {
    DenPositive(q, a, d);
    var p := d * d * d / q;
    r := d * d * d % q;
    CubeSplit(q, d);
    var den := Den(q, a, d);
    var num := (annS + 2 * p) * d;
    z := num / den;
    DivBounds(num, den);
    ScaledDen(q, a, d, p, r);
    ScaledNum(q, annS, d, p, r);
    ScaleBounds(z, num, den, q);
  }

  lemma CubeSplit(q: int, d: int)
    requires 0 < q && 0 < d
    ensures var p, r := d * d * d / q, d * d * d % q;
      d * d * d == q * p + r && 0 <= r < q && 0 <= p && r <= d * d * d
  {
    var c := d * d * d;
    assert 0 <= c;
    assert c == q * (c / q) + c % q;
    assert 0 <= q * (c / q);
  }

  lemma ScaledDen(q: int, a: int, d: int, p: int, r: int)
    requires d * d * d == q * p + r
    ensures q * (a * d + 3 * p) == d * (3 * d * d + q * a) - 3 * r
  {
    assert q * (a * d + 3 * p) == d * (q * a) + 3 * (q * p);
    assert d * (3 * d * d + q * a) == 3 * (d * d * d) + d * (q * a);
  }

  lemma ScaledNum(q: int, annS: int, d: int, p: int, r: int)
    requires d * d * d == q * p + r
    ensures q * ((annS + 2 * p) * d) == d * (2 * d * d * d + q * annS - 2 * r)
  {
    assert q * ((annS + 2 * p) * d) == d * (q * annS) + 2 * (d * (q * p));
    assert d * (2 * d * d * d + q * annS - 2 * r) == d * (q * annS) + 2 * (d * (d * d * d - r));
  }

  lemma ScaleBounds(z: int, num: int, den: int, q: int)
    requires 0 < q && 0 < den && z * den <= num < (z + 1) * den
    ensures 0 < q * den
    ensures z * (q * den) <= q * num < (z + 1) * (q * den)
  {
    MulLe(z * den, num, q);
    assert z * (q * den) == (z * den) * q;
    assert (z + 1) * (q * den) == ((z + 1) * den) * q;
    MulLe(num + 1, (z + 1) * den, q);
  }

  // The cubic at z, expanded around the iterate d.
  lemma Around(q: int, a: int, k: int, d: int, z: int)
    ensures G(q, a, k, z) == (z - d) * (z - d) * (z + 2 * d) + z * (3 * d * d + q * a) - (2 * d * d * d + k)
  {
    var e := z - d;
    assert z == d + e;
    assert z * z * z == d * d * d + 3 * d * d * e + 3 * d * e * e + e * e * e;
    assert (z - d) * (z - d) * (z + 2 * d) == e * e * e + 3 * d * e * e;
    assert z * (3 * d * d + q * a) == 3 * d * d * d + 3 * d * d * e + q * a * z;
  }

  lemma Increasing(q: int, a: int, k: int, m: int, n: int)
    requires 0 < q && 0 < a && 0 <= m <= n
    ensures G(q, a, k, m) <= G(q, a, k, n)
    ensures m < n ==> G(q, a, k, m) < G(q, a, k, n)
  {
    ProductLe(m, n, m, n);
    ProductLe(m * m, n * n, m, n);
    assert 0 < q * a;
    MulLe(m, n, q * a);
  }

  lemma BelowBound(q: int, a: int, k: int, d: int, r: int, z: int)
    requires z * (d * (3 * d * d + q * a) - 3 * r) <= d * (2 * d * d * d + k - 2 * r)
    ensures d * G(q, a, k, z - 1)
         <= d * ((z - 1 - d) * (z - 1 - d) * (z - 1 + 2 * d)) - d * (3 * d * d + q * a) + r * (3 * z - 2 * d)
  {
    BoundIdentity(q, a, k, d, r, z - 1);
    var m, t := 3 * d * d + q * a, 2 * d * d * d + k;
    ShiftOne(z, d * m - 3 * r, d, m, r);
  }

  lemma ShiftOne(z: int, l: int, d: int, m: int, r: int)
    requires l == d * m - 3 * r
    ensures (z - 1) * l == z * l - d * m + 3 * r
  {
  }

  // d*G(z) in terms of the step's own remainder.
  lemma BoundIdentity(q: int, a: int, k: int, d: int, r: int, z: int)
    ensures d * G(q, a, k, z)
         == d * ((z - d) * (z - d) * (z + 2 * d)) + r * (3 * z - 2 * d)
            + z * (d * (3 * d * d + q * a) - 3 * r) - d * (2 * d * d * d + k - 2 * r)
  {
    Around(q, a, k, d, z);
    var m, t := 3 * d * d + q * a, 2 * d * d * d + k;
    Distribute(d, (z - d) * (z - d) * (z + 2 * d), z, m, t, r);
  }

  lemma Distribute(d: int, s: int, z: int, m: int, t: int, r: int)
    ensures d * (s + z * m - t) == d * s + r * (3 * z - 2 * d) + z * (d * m - 3 * r) - d * (t - 2 * r)
  {
  }

  lemma AboveBound(q: int, a: int, k: int, d: int, r: int, z: int)
    requires d * (2 * d * d * d + k - 2 * r) < (z + 1) * (d * (3 * d * d + q * a) - 3 * r)
    ensures d * G(q, a, k, z + 1)
          > d * ((z + 1 - d) * (z + 1 - d) * (z + 1 + 2 * d)) + r * (3 * (z + 1) - 2 * d)
  {
    BoundIdentity(q, a, k, d, r, z + 1);
  }

  // A step of at most one unit ends within one unit of the root.
  lemma SettledBelow(q: int, a: int, k: int, d: int, r: int, z: int)
    requires 4 <= q && 0 < a && 0 < d && 0 <= r < q && r <= d * d * d
    requires z * (d * (3 * d * d + q * a) - 3 * r) <= d * (2 * d * d * d + k - 2 * r)
    requires d - 1 <= z <= d + 1
    ensures G(q, a, k, z - 1) <= 0
  {
    BelowBound(q, a, k, d, r, z);
    var g := G(q, a, k, z - 1);
    SettledGap(q, a, d, r, z);
    CancelLe(g, 0, d);
  }

  lemma SettledGap(q: int, a: int, d: int, r: int, z: int)
    requires 4 <= q && 0 < a && 0 < d && 0 <= r < q && r <= d * d * d
    requires d - 1 <= z <= d + 1
    ensures d * ((z - 1 - d) * (z - 1 - d) * (z - 1 + 2 * d)) - d * (3 * d * d + q * a) + r * (3 * z - 2 * d) <= 0
  {
    MulLe(1, a, q);
    assert d * (3 * d * d + q * a) == 3 * (d * d * d) + q * a * d;
    var w := z - 1 + 2 * d;
    SquareWeighted(z - 1 - d, w);
    if z == d + 1 {
      SettledUp(q * a, d, r);
    } else if z == d {
      SettledSame(q * a, d, r);
    } else {
      SettledDown(q * a, d, r);
    }
  }

  lemma SquareWeighted(e: int, w: int)
    requires -2 <= e <= 0
    ensures e * e * w == if e == 0 then 0 else if e == -1 then w else 4 * w
  {
  }

  lemma SettledUp(qa: int, d: int, r: int)
    requires 0 < d && 0 <= r < qa && r <= d * d * d
    ensures -3 * (d * d * d) - qa * d + r * (d + 3) <= 0
  {
    MulLe(r, qa, d);
    assert r * (d + 3) == r * d + 3 * r;
  }

  lemma SettledSame(qa: int, d: int, r: int)
    requires 0 < d && 0 <= r < qa
    ensures d * (3 * d - 1) - 3 * (d * d * d) - qa * d + r * d <= 0
  {
    MulLe(r, qa, d);
    MulLe(1, d, d * d);
  }

  lemma SettledDown(qa: int, d: int, r: int)
    requires 0 < d && 4 <= qa && 0 <= r < qa
    ensures d * (4 * (3 * d - 2)) - 3 * (d * d * d) - qa * d + r * (d - 3) <= 0
  {
    if d >= 3 {
      MulLe(r + 1, qa, d);
      assert r * (d - 3) == r * d - 3 * r;
      SmallCubes(d);
    } else if d == 2 {
    } else {
      assert d == 1;
    }
  }

  lemma SmallCubes(d: int)
    requires 3 <= d
    ensures d * (4 * (3 * d - 2)) - 3 * (d * d * d) <= d
  {
    if d >= 4 { MulLe(4, d, d * d); }
  }

  // One unit above a step the cubic is positive, as long as a*d <= annS.
  lemma StepAbove(q: int, a: int, annS: int, d: int, r: int, z: int)
    requires 4 <= q && 0 < a && 0 < d && 0 <= r < q && r <= d * d * d
    requires a * d <= annS
    requires 0 < d * (3 * d * d + q * a) - 3 * r
    requires d * (2 * d * d * d + q * annS - 2 * r) < (z + 1) * (d * (3 * d * d + q * a) - 3 * r)
    ensures 0 < G(q, a, q * annS, z + 1) && 2 * d < 3 * (z + 1)
  {
    var k := q * annS;
    var l := d * (3 * d * d + q * a) - 3 * r;
    var t := d * (2 * d * d * d + k - 2 * r);
    TwoThirds(q, a, annS, d, r);
    TripleLt(t, z + 1, l, d);
    AboveBound(q, a, k, d, r, z);
    var g := G(q, a, k, z + 1);
    NonNegativeTail(d, r, z);
    CancelLt(0, g, d);
  }

  lemma TripleLt(t: int, n: int, l: int, d: int)
    requires 0 < l && t < n * l && 2 * (d * l) <= 3 * t
    ensures 2 * d < 3 * n
  {
    assert 3 * (n * l) == (3 * n) * l;
    assert 2 * (d * l) == (2 * d) * l;
    CancelLt(2 * d, 3 * n, l);
  }

  lemma NonNegativeTail(d: int, r: int, z: int)
    requires 0 < d && 0 <= r && 2 * d < 3 * (z + 1)
    ensures 0 <= d * ((z + 1 - d) * (z + 1 - d) * (z + 1 + 2 * d)) + r * (3 * (z + 1) - 2 * d)
  {
    var w := (z + 1 - d) * (z + 1 - d);
    assert 0 <= w;
    MulLe(0, w, z + 1 + 2 * d);
    MulLe(0, w * (z + 1 + 2 * d), d);
    MulLe(0, 3 * (z + 1) - 2 * d, r);
  }

  lemma TwoThirds(q: int, a: int, annS: int, d: int, r: int)
    requires 0 < q && 0 < a && 0 < d && a * d <= annS
    ensures 2 * (d * (d * (3 * d * d + q * a) - 3 * r)) <= 3 * (d * (2 * d * d * d + q * annS - 2 * r))
  {
    var k := q * annS;
    var ddd := d * d * d;
    var x := d * (3 * d * d + q * a) - 3 * r;
    assert x == 3 * ddd + q * (a * d) - 3 * r;
    MulLe(a * d, annS, q);
    assert q * (a * d) <= k;
    assert 0 < a * d;
    assert 0 <= k;
    MulLe(2 * x, 3 * (2 * ddd + k - 2 * r), d);
  }

  // A step moves up by at most one unit once the cubic is positive one unit above.
  lemma UpByOne(q: int, a: int, k: int, d: int, r: int, z: int)
    requires 4 <= q && 0 < a && 0 < d && 0 <= r < q
    requires d < 4 ==> 1 < d && r == if d == 2 then 0 else 3
    requires 0 < d * (3 * d * d + q * a) - 3 * r
    requires z * (d * (3 * d * d + q * a) - 3 * r) <= d * (2 * d * d * d + k - 2 * r)
    requires 0 < G(q, a, k, d + 1) && q < (d + 1) * (d + 1)
    ensures z <= d + 1
  {
    var l := d * (3 * d * d + q * a) - 3 * r;
    var t := d * (2 * d * d * d + k - 2 * r);
    MulLe(1, a, q);
    UpGap(q, q * a, d, r);
    UpExpand(q * a, k, d, r);
    Between(z, d + 2, l, t);
  }

  lemma UpExpand(qa: int, k: int, d: int, r: int)
    requires 0 < d && k + 1 <= (d + 1) * (d + 1) * (d + 1) + qa * (d + 1)
    ensures (d + 2) * (d * (3 * d * d + qa) - 3 * r) - d * (2 * d * d * d + k - 2 * r)
         >= 3 * (d * d * d) - 3 * (d * d) + qa * d - r * d - 6 * r
  {
    UpIdentity(qa, k, d, r);
    UpCube(qa, d);
    MulLe(k, (d + 1) * (d + 1) * (d + 1) + qa * (d + 1) - 1, d);
  }

  lemma UpIdentity(qa: int, k: int, d: int, r: int)
    ensures (d + 2) * (d * (3 * d * d + qa) - 3 * r) - d * (2 * d * d * d + k - 2 * r)
         == d * d * d * d + 6 * (d * d * d) + qa * (d * d) + 2 * (qa * d) - r * d - 6 * r - k * d
  {
  }

  lemma UpCube(qa: int, d: int)
    ensures ((d + 1) * (d + 1) * (d + 1) + qa * (d + 1) - 1) * d
         == d * d * d * d + 3 * (d * d * d) + 3 * (d * d) + qa * (d * d) + qa * d
  {
  }

  lemma UpGap(q: int, qa: int, d: int, r: int)
    requires 4 <= q <= qa && 0 < d && 0 <= r < q < (d + 1) * (d + 1)
    requires d < 4 ==> 1 < d && r == if d == 2 then 0 else 3
    ensures 0 < 3 * (d * d * d) - 3 * (d * d) + qa * d - r * d - 6 * r
  {
    MulLe(r + 1, qa, d);
    if d >= 4 {
      UpLarge(q, d, r);
    } else if d == 3 {
      assert 3 * (d * d * d) - 3 * (d * d) == 54;
    } else {
      assert 3 * (d * d * d) - 3 * (d * d) == 12;
    }
  }

  // Below four the remainder of the cube is at most three.
  lemma UpSmall(q: int, d: int)
    requires 4 <= q && q % 4 == 0 && 0 < d < 4 && q < (d + 1) * (d + 1)
    ensures 1 < d && d * d * d % q == if d == 2 then 0 else 3
  {
    if d == 3 {
      assert q == 4 || q == 8 || q == 12;
    } else if d == 2 {
      assert q == 4 || q == 8;
    }
  }

  lemma UpLarge(q: int, d: int, r: int)
    requires 4 <= d && 0 <= r < q < (d + 1) * (d + 1)
    ensures 0 < 3 * (d * d * d) - 3 * (d * d) + d - 6 * r
  {
    assert (d + 1) * (d + 1) == d * d + 2 * d + 1;
    MulLe(4, d, d * d);
    MulLe(4, d, d);
  }

  // From at or above the root u, a step leaves at most two thirds of the distance, plus one.
  lemma TwoThirdsStep(q: int, a: int, k: int, d: int, r: int, u: int, z: int)
    requires 4 <= q && 0 < a && 0 < u <= d && 0 <= r < q && r <= d * d * d
    requires 0 < d * (3 * d * d + q * a) - 3 * r
    requires z * (d * (3 * d * d + q * a) - 3 * r) <= d * (2 * d * d * d + k - 2 * r)
    requires 0 < G(q, a, k, u)
    ensures 3 * (z - u) <= 2 * (d - u) + 3
  {
    var l := d * (3 * d * d + q * a) - 3 * r;
    var t := d * (2 * d * d * d + k - 2 * r);
    MulLe(1, a, q);
    ThirdsExpand(q * a, k, d, r, u);
    ThirdsGap(q * a, d, r, u);
    TripleCancel(z, u + 2 * d + 4, l, t);
  }

  lemma TripleCancel(z: int, n: int, l: int, t: int)
    requires 0 < l && z * l <= t && 3 * t < n * l
    ensures 3 * z < n
  {
    assert 3 * (z * l) == (3 * z) * l;
    CancelLt(3 * z, n, l);
  }

  lemma ThirdsExpand(qa: int, k: int, d: int, r: int, u: int)
    requires 0 < d && k + 1 <= u * u * u + qa * u
    ensures (u + 2 * d + 4) * (d * (3 * d * d + qa) - 3 * r) - 3 * (d * (2 * d * d * d + k - 2 * r))
         >= 3 * (u * d * (d * d - u * u)) + 12 * (d * d * d) + 2 * (qa * d * (d - u)) + 4 * (qa * d)
            - 3 * (r * u) - 12 * r + 3 * d
  {
    ThirdsIdentity(qa, k, d, r, u);
    MulLe(1, u * u * u + qa * u - k, d);
  }

  lemma ThirdsIdentity(qa: int, k: int, d: int, r: int, u: int)
    ensures (u + 2 * d + 4) * (d * (3 * d * d + qa) - 3 * r) - 3 * (d * (2 * d * d * d + k - 2 * r))
         == 3 * (u * d * (d * d - u * u)) + 12 * (d * d * d) + 2 * (qa * d * (d - u)) + 4 * (qa * d)
            - 3 * (r * u) - 12 * r + 3 * ((u * u * u + qa * u - k) * d)
  {
  }

  lemma ThirdsGap(qa: int, d: int, r: int, u: int)
    requires 4 <= qa && 0 < u <= d && 0 <= r < qa && r <= d * d * d
    ensures 0 < 3 * (u * d * (d * d - u * u)) + 12 * (d * d * d) + 2 * (qa * d * (d - u)) + 4 * (qa * d)
            - 3 * (r * u) - 12 * r + 3 * d
  {
    ThirdsTail(qa, d, r, u);
    ProductSign(u, d);
    ProductSign2(qa, d, u);
  }

  lemma ProductSign(u: int, d: int)
    requires 0 < u <= d
    ensures 0 <= u * d * (d * d - u * u)
  {
    ProductLe(u, d, u, d);
    MulLe(0, d * d - u * u, u * d);
  }

  lemma ProductSign2(qa: int, d: int, u: int)
    requires 0 <= qa && 0 < u <= d
    ensures 0 <= qa * d * (d - u)
  {
    MulLe(0, d - u, qa * d);
  }

  lemma ThirdsTail(qa: int, d: int, r: int, u: int)
    requires 4 <= qa && 0 < u <= d && 0 <= r < qa && r <= d * d * d
    ensures 0 < 12 * (d * d * d) + 4 * (qa * d) - 3 * (r * u) - 12 * r + 3 * d
  {
    ProductLe(r, qa, u, d);
  }

  // From the sum of the reserves the first step never moves up.
  lemma TopStep(q: int, a: int, k: int, d: int, r: int, z: int)
    requires 4 <= q <= d * d && 0 < a && 0 < d && 0 <= r < q
    requires 0 < d * (3 * d * d + q * a) - 3 * r
    requires z * (d * (3 * d * d + q * a) - 3 * r) <= d * (2 * d * d * d + k - 2 * r)
    requires k == q * ((a + 1) * d)
    ensures z <= d
  {
    MulLe(1, a, q);
    TopSum(q, a, d);
    TopGap(q, q * a, k, d, r);
    Between(z, d + 1, d * (3 * d * d + q * a) - 3 * r, d * (2 * d * d * d + k - 2 * r));
  }

  lemma Between(z: int, n: int, l: int, t: int)
    requires 0 < l && z * l <= t < n * l
    ensures z < n
  {
    CancelLt(z, n, l);
  }

  lemma TopSum(q: int, a: int, d: int)
    ensures q * ((a + 1) * d) == q * a * d + q * d
  {
  }

  lemma TopGap(q: int, qa: int, k: int, d: int, r: int)
    requires 4 <= q <= d * d && q <= qa && 0 < d && 0 <= r < q
    requires k == qa * d + q * d
    ensures d * (2 * d * d * d + k - 2 * r) < (d + 1) * (d * (3 * d * d + qa) - 3 * r)
  {
    TopIdentity(q, qa, d, r);
    MulLe(q, d * d, d * d);
    MulLe(r, qa, d);
    MulLe(1, d, d * d);
  }

  lemma TopIdentity(q: int, qa: int, d: int, r: int)
    ensures (d + 1) * (d * (3 * d * d + qa) - 3 * r) - d * (2 * d * d * d + (qa * d + q * d) - 2 * r)
         == d * d * (d * d) + 3 * (d * d * d) + qa * d - q * (d * d) - r * d - 3 * r
  {
  }
}
