/** What an LP share is worth on the stable curve. D measures a pool whose reserves may differ;
    over deposits and withdrawals D per share never falls. */
module StableShares {
  import opened Newton
  import opened Pool
  import opened StableSwap
  import opened Liquidity

  // Scaling both reserves and D by c scales the curve equation by its third power.
  lemma Homogeneous(x: int, y: int, amp: int, d: int, c: int)
    ensures Invariant(c * x, c * y, amp, c * d) == c * c * c * Invariant(x, y, amp, d)
  {
    var w := Margin(x, y, amp, d);
    Factored(x, y, amp, d);
    Factored(c * x, c * y, amp, c * d);
    LinearTerm(x, y, amp, d, c);
    ThirdPower(d, d, d, c);
    ThirdPower(x, y, w, c);
    FourTimes((c * x) * (c * y), c * w);
    FourTimes(x * y, w);
    Distribute(c * c * c, d * d * d, 4 * (x * y * w));
    SlideFour(c * c * c, x * y * w);
    hide Invariant, Margin;
  }

  lemma ThirdPower(u: int, v: int, w: int, c: int)
    ensures (c * u) * (c * v) * (c * w) == c * c * c * (u * v * w)
  {
    assert (c * u) * (c * v) == (c * c) * (u * v);
    assert ((c * c) * (u * v)) * (c * w) == ((c * c) * c) * ((u * v) * w);
  }

  lemma LinearTerm(x: int, y: int, amp: int, d: int, c: int)
    ensures Margin(c * x, c * y, amp, c * d) == c * Margin(x, y, amp, d)
  {
    assert (2 * amp - 1) * (c * d) == c * ((2 * amp - 1) * d);
    assert 2 * amp * (c * x + c * y) == c * (2 * amp * (x + y));
    assert c * Margin(x, y, amp, d) == c * (2 * amp * (x + y)) - c * ((2 * amp - 1) * d);
  }

  lemma FourTimes(v: int, w: int)
    ensures 4 * v * w == 4 * (v * w)
  {
  }

  lemma Distribute(k: int, u: int, v: int)
    ensures k * (u - v) == k * u - k * v
  {
  }

  lemma SlideFour(k: int, v: int)
    ensures k * (4 * v) == 4 * (k * v)
  {
  }

  // How far Ann times the sum of the reserves exceeds Ann - 1 times d.
  function Margin(x: int, y: int, amp: int, d: int): int {
    2 * amp * (x + y) - (2 * amp - 1) * d
  }

  lemma Factored(x: int, y: int, amp: int, d: int)
    ensures Invariant(x, y, amp, d) == d * d * d - 4 * (x * y) * Margin(x, y, amp, d)
  {
    var q := 4 * x * y;
    assert q == 4 * (x * y);
    assert q * (2 * amp - 1) * d == q * ((2 * amp - 1) * d);
    assert q * (2 * amp) * (x + y) == q * (2 * amp * (x + y));
    assert q * Margin(x, y, amp, d) == q * (2 * amp * (x + y)) - q * ((2 * amp - 1) * d);
  }

  // Larger reserves stay on or above the curve of d.
  lemma LargerReserves(x: nat, y: nat, x': nat, y': nat, amp: int, d: nat)
    requires x <= x' && y <= y' && 0 < amp && Invariant(x, y, amp, d) <= 0
    ensures Invariant(x', y', amp, d) <= 0
  {
    hide Invariant, Margin;
    Factored(x, y, amp, d);
    Factored(x', y', amp, d);
    MarginGrows(x, y, x', y', amp, d);
    ProductLe(x, x', y, y');
    CurveTerm(x * y, x' * y', d, Margin(x, y, amp, d), Margin(x', y', amp, d));
  }

  lemma MarginGrows(x: nat, y: nat, x': nat, y': nat, amp: int, d: nat)
    requires x <= x' && y <= y' && 0 < amp
    ensures Margin(x, y, amp, d) <= Margin(x', y', amp, d)
    ensures d == 0 ==> 0 <= Margin(x, y, amp, d)
  {
    MulLe(x + y, x' + y', 2 * amp);
    MulLe(0, x + y, 2 * amp);
  }

  lemma CurveTerm(v: nat, v': nat, d: nat, g: int, g': int)
    requires v <= v' && g <= g' && d * d * d - 4 * v * g <= 0 && (d == 0 ==> 0 <= g)
    ensures d * d * d - 4 * v' * g' <= 0
  {
    assert 0 < d ==> 0 < d * d * d;
    if g < 0 {
      MulLe(g, 0, 4 * v);
      assert false;
    }
    ProductLe(v, v', g, g');
    assert 4 * v * g == 4 * (v * g) && 4 * v' * g' == 4 * (v' * g');
  }

  // p' gives every share at least what p gives it, so reserves of p' on or above the curve of
  // d per share of p: with supplies T and T', T times the new reserves reach the curve of
  // T' times d.
  lemma SharesKeepCurve(p: Pool, p': Pool, amp: int, rate0: nat, rate1: nat, d: nat)
    requires SharesGrow(p, p') && 0 < amp && Invariant(p.r0 * rate0, p.r1 * rate1, amp, d) <= 0
    ensures Invariant(p.totalLp * (p'.r0 * rate0), p.totalLp * (p'.r1 * rate1), amp, p'.totalLp * d) <= 0
  {
    var t, t', x, y := p.totalLp, p'.totalLp, p.r0 * rate0, p.r1 * rate1;
    Homogeneous(x, y, amp, d, t');
    MulLe(Invariant(x, y, amp, d), 0, t' * t' * t');
    Scaled(p.r0, p'.r0, t, t', rate0);
    Scaled(p.r1, p'.r1, t, t', rate1);
    LargerReserves(t' * x, t' * y, t * (p'.r0 * rate0), t * (p'.r1 * rate1), amp, t' * d);
  }

  lemma Scaled(r: nat, r': nat, t: nat, t': nat, rate: nat)
    requires r * t' <= r' * t
    ensures t' * (r * rate) <= t * (r' * rate)
  {
    MulLe(r * t', r' * t, rate);
    assert (r * t') * rate == t' * (r * rate) && (r' * t) * rate == t * (r' * rate);
  }

  // Along any run of deposits and withdrawals that never empties the pool, the D a share
  // stands for never falls.
  lemma FlowsKeepCurve(p: Pool, fs: seq<Flow>, amp: int, rate0: nat, rate1: nat, d: nat)
    requires SharesAddUp(p) && SupplyStays(p, fs) && 0 < amp
    requires Invariant(p.r0 * rate0, p.r1 * rate1, amp, d) <= 0
    ensures var p' := RunFlows(p, fs);
      Invariant(p.totalLp * (p'.r0 * rate0), p.totalLp * (p'.r1 * rate1), amp, p'.totalLp * d) <= 0
  {
    FlowsGrowShares(p, fs);
    SharesKeepCurve(p, RunFlows(p, fs), amp, rate0, rate1, d);
  }

  // The same for the D the contract solves, which is exact to one unit.
  lemma SharesKeepSolvedD(p: Pool, p': Pool, amp: int, rate0: nat, rate1: nat, d: nat, d': nat)
    requires SharesGrow(p, p') && GetD(p.r0 * rate0, p.r1 * rate1, amp) == Ok(d)
    requires GetD(p.totalLp * (p'.r0 * rate0), p.totalLp * (p'.r1 * rate1), amp) == Ok(d')
    ensures p'.totalLp * (d - 1) <= d'
  {
    GetDExact(p.r0 * rate0, p.r1 * rate1, amp);
    SharesKeepCurve(p, p', amp, rate0, rate1, d - 1);
    AtMostSolved(p.totalLp * (p'.r0 * rate0), p.totalLp * (p'.r1 * rate1), amp, p'.totalLp * (d - 1));
  }

  lemma AtMostSolved(x: int, y: int, amp: int, d: nat)
    requires Invariant(x, y, amp, d) <= 0 && GetD(x, y, amp).Ok?
    ensures d <= GetD(x, y, amp).value
  {
    GetDExact(x, y, amp);
    if GetD(x, y, amp).value < d { InvariantIncreasing(x, y, amp, GetD(x, y, amp).value + 1, d); }
  }
}
