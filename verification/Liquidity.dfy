/** LP shares: what deposits, withdrawals and honest swaps keep, and what leaving pays. */
module Liquidity {
  import opened Text
  import opened Newton
  import opened Pool
  import opened SwapProperties

  // ------------------------------------------------------------------ sums over holders

  ghost function Total(m: map<string, nat>): nat {
    if m == map[] then 0 else var k :| k in m; m[k] + Total(m - {k})
  }

  lemma {:induction false} TotalSplit(m: map<string, nat>, k: string)
    requires k in m
    ensures Total(m) == m[k] + Total(m - {k})
  {
    var j :| j in m && Total(m) == m[j] + Total(m - {j});
    if j != k {
      TotalSplit(m - {j}, k);
      TotalSplit(m - {k}, j);
      assert m - {j} - {k} == m - {k} - {j};
    }
  }

  lemma TotalUpdate(m: map<string, nat>, k: string, v: nat)
    ensures Total(m[k := v]) == Total(m) - (if k in m then m[k] else 0) + v
  {
    TotalSplit(m[k := v], k);
    assert m[k := v] - {k} == m - {k};
    if k in m { TotalSplit(m, k); } else { assert m - {k} == m; }
  }

  lemma {:induction false} TotalZero(m: map<string, nat>)
    requires forall k :: k in m ==> m[k] == 0
    ensures Total(m) == 0
  {
    if m != map[] {
      var k :| k in m;
      TotalSplit(m, k);
      TotalZero(m - {k});
    }
  }

  // ------------------------------------------------------------------ invariants of one pool

  // Holds after every call, whatever the host answers.
  ghost predicate SharesAddUp(p: Pool) {
    && Total(p.lp) == p.totalLp
    && (p.totalLp == 0 ==> p.r0 == 0 && p.r1 == 0)
  }

  // The supply never exceeds the geometric mean of the reserves.
  predicate Backed(p: Pool) {
    p.totalLp * p.totalLp <= p.r0 * p.r1
  }

  // Neither reserve per share is smaller in p' than in p.
  predicate SharesGrow(p: Pool, p': Pool) {
    p.r0 * p'.totalLp <= p'.r0 * p.totalLp && p.r1 * p'.totalLp <= p'.r1 * p.totalLp
  }

  lemma AddKeeps(p: Pool, amt0: nat, amt1: nat, who: string)
    requires SharesAddUp(p) && Minted(p, amt0, amt1).Some? && 0 < Minted(p, amt0, amt1).value
    ensures var p' := WithAdd(p, amt0, amt1, who, Minted(p, amt0, amt1).value);
      SharesAddUp(p') && SharesGrow(p, p') && (Backed(p) ==> Backed(p'))
  {
    var m := Minted(p, amt0, amt1).value;
    TotalUpdate(p.lp, who, Lp(p, who) + m);
    if p.totalLp != 0 {
      MintBound(amt0, p.totalLp, p.r0, m);
      MintBound(amt1, p.totalLp, p.r1, m);
      if Backed(p) { BackedAdd(p.r0, p.r1, amt0, amt1, p.totalLp, m); }
    }
  }

  lemma MintBound(amt: nat, total: nat, r: nat, m: nat)
    requires 0 < r && m <= amt * total / r
    ensures m * r <= amt * total
    ensures r * (total + m) <= (r + amt) * total
  {
    DivBounds(amt * total, r);
    MulLe(m, amt * total / r, r);
    assert r * (total + m) == r * total + m * r;
    assert (r + amt) * total == r * total + amt * total;
  }

  // What a deposit mints is the most that either invariant allows: for the first deposit the
  // rounded-down geometric mean, later the largest number in proportion to both reserves.
  lemma MintExact(p: Pool, amt0: nat, amt1: nat)
    requires Minted(p, amt0, amt1).Some?
    ensures var m := Minted(p, amt0, amt1).value;
      && (p.totalLp == 0 ==> m * m <= amt0 * amt1 < (m + 1) * (m + 1))
      && (p.totalLp != 0 ==>
            && m * p.r0 <= amt0 * p.totalLp && m * p.r1 <= amt1 * p.totalLp
            && (amt0 * p.totalLp < (m + 1) * p.r0 || amt1 * p.totalLp < (m + 1) * p.r1))
  {
    if p.totalLp != 0 {
      DivBounds(amt0 * p.totalLp, p.r0);
      DivBounds(amt1 * p.totalLp, p.r1);
      var m := Minted(p, amt0, amt1).value;
      MintBound(amt0, p.totalLp, p.r0, m);
      MintBound(amt1, p.totalLp, p.r1, m);
    }
  }

  lemma BackedAdd(r0: nat, r1: nat, a0: nat, a1: nat, t: nat, m: nat)
    requires 0 < t && t * t <= r0 * r1
    requires r0 * (t + m) <= (r0 + a0) * t && r1 * (t + m) <= (r1 + a1) * t
    ensures (t + m) * (t + m) <= (r0 + a0) * (r1 + a1)
  {
    CrossBacked(r0, r1, r0 + a0, r1 + a1, t, t + m);
  }

  // If both reserves grow at least in proportion to the supply, the supply stays backed.
  lemma CrossBacked(r0: nat, r1: nat, s0: nat, s1: nat, t: nat, n: nat)
    requires 0 < t && t * t <= r0 * r1
    requires r0 * n <= s0 * t && r1 * n <= s1 * t
    ensures n * n <= s0 * s1
  {
    ProductLe(r0 * n, s0 * t, r1 * n, s1 * t);
    assert (r0 * n) * (r1 * n) == (r0 * r1) * (n * n);
    assert (s0 * t) * (s1 * t) == (s0 * s1) * (t * t);
    MulLe(t * t, r0 * r1, n * n);
    assert 0 < t * t;
    CancelLe(n * n, s0 * s1, t * t);
  }

  lemma RemoveKeeps(p: Pool, who: string, lp: nat)
    requires SharesAddUp(p) && 0 < lp <= p.totalLp && lp <= Lp(p, who)
    ensures var p' := WithRemove(p, who, lp);
      SharesAddUp(p') && SharesGrow(p, p') && (Backed(p) ==> Backed(p'))
  {
    var p' := WithRemove(p, who, lp);
    TotalUpdate(p.lp, who, Lp(p, who) - lp);
    ShareBound(p.r0, lp, p.totalLp);
    ShareBound(p.r1, lp, p.totalLp);
    ShareLeft(p.r0, lp, p.totalLp);
    ShareLeft(p.r1, lp, p.totalLp);
    if Backed(p) { CrossBacked(p.r0, p.r1, p'.r0, p'.r1, p.totalLp, p'.totalLp); }
  }

  lemma ShareLeft(r: nat, lp: nat, t: nat)
    requires 0 < t && lp <= t
    ensures r * (t - lp) <= (r - Share(r, lp, t)) * t
  {
    DivBounds(r * lp, t);
    assert r * (t - lp) == r * t - r * lp;
    assert (r - Share(r, lp, t)) * t == r * t - Share(r, lp, t) * t;
  }

  // ------------------------------------------------------------------ deposits undone

  // Depositing and withdrawing the shares minted never returns more than was put in.
  lemma AddThenRemove(p: Pool, amt0: nat, amt1: nat, who: string)
    requires SharesAddUp(p) && Minted(p, amt0, amt1).Some? && 0 < Minted(p, amt0, amt1).value
    ensures var m := Minted(p, amt0, amt1).value;
      var p' := WithAdd(p, amt0, amt1, who, m);
      && Share(p'.r0, m, p'.totalLp) <= amt0
      && Share(p'.r1, m, p'.totalLp) <= amt1
  {
    var m := Minted(p, amt0, amt1).value;
    if p.totalLp == 0 {
      ShareBound(amt0, m, m);
      ShareBound(amt1, m, m);
    } else {
      MintBound(amt0, p.totalLp, p.r0, m);
      MintBound(amt1, p.totalLp, p.r1, m);
      ReturnBound(p.r0, amt0, p.totalLp, m);
      ReturnBound(p.r1, amt1, p.totalLp, m);
    }
  }

  lemma ReturnBound(r: nat, amt: nat, t: nat, m: nat)
    requires 0 < t && 0 < m && m * r <= amt * t
    ensures Share(r + amt, m, t + m) <= amt
  {
    assert (r + amt) * m == m * r + amt * m;
    assert amt * (t + m) == amt * t + amt * m;
    CeilFloor((r + amt) * m, t + m, amt);
  }

  // ------------------------------------------------------------------ runs of deposits and withdrawals

  datatype Flow = Deposit(who: string, amt0: nat, amt1: nat) | Withdrawal(who: string, lp: nat)

  function ApplyFlow(p: Pool, f: Flow): Option<Pool> {
    match f
    case Deposit(who, amt0, amt1) =>
      var m := Minted(p, amt0, amt1);
      if m.None? || m.value == 0 then None else Some(WithAdd(p, amt0, amt1, who, m.value))
    case Withdrawal(who, lp) =>
      if 0 < lp <= p.totalLp && lp <= Lp(p, who) then Some(WithRemove(p, who, lp)) else None
  }

  // The pool after a run; a refused call changes nothing.
  function RunFlows(p: Pool, fs: seq<Flow>): Pool
    decreases fs
  {
    if fs == [] then p
    else
      var q := ApplyFlow(p, fs[0]);
      RunFlows(if q.Some? then q.value else p, fs[1..])
  }

  // The supply after every call of the run.
  ghost predicate SupplyStays(p: Pool, fs: seq<Flow>)
    decreases fs
  {
    0 < p.totalLp &&
    (fs != [] ==> var q := ApplyFlow(p, fs[0]); SupplyStays(if q.Some? then q.value else p, fs[1..]))
  }

  lemma GrowTransitive(a: nat, s: nat, b: nat, t: nat, c: nat, u: nat)
    requires 0 < t && a * t <= b * s && b * u <= c * t
    ensures a * u <= c * s
  {
    MulLe(a * t, b * s, u);
    MulLe(b * u, c * t, s);
    assert (a * t) * u == (a * u) * t;
    assert (b * s) * u == (b * u) * s;
    assert (c * t) * s == (c * s) * t;
    CancelLe(a * u, c * s, t);
  }

  // Along any run that never empties the pool, no reserve per share falls.
  lemma {:induction false} FlowsGrowShares(p: Pool, fs: seq<Flow>)
    requires SharesAddUp(p) && SupplyStays(p, fs)
    ensures SharesAddUp(RunFlows(p, fs)) && SharesGrow(p, RunFlows(p, fs))
    ensures Backed(p) ==> Backed(RunFlows(p, fs))
    decreases fs
  {
    if fs != [] {
      var q := ApplyFlow(p, fs[0]);
      if q.Some? {
        match fs[0] {
          case Deposit(who, amt0, amt1) => AddKeeps(p, amt0, amt1, who);
          case Withdrawal(who, lp) => RemoveKeeps(p, who, lp);
        }
        var n := RunFlows(q.value, fs[1..]);
        FlowsGrowShares(q.value, fs[1..]);
        GrowTransitive(p.r0, p.totalLp, q.value.r0, q.value.totalLp, n.r0, n.totalLp);
        GrowTransitive(p.r1, p.totalLp, q.value.r1, q.value.totalLp, n.r1, n.totalLp);
      } else {
        FlowsGrowShares(p, fs[1..]);
      }
    }
  }

  // ------------------------------------------------------------------ everybody leaves

  // One holder withdraws everything.
  function Leave(p: Pool, who: string): Pool {
    if 0 < Lp(p, who) <= p.totalLp then WithRemove(p, who, Lp(p, who)) else p
  }

  function Payout0(p: Pool, who: string): nat {
    if 0 < Lp(p, who) <= p.totalLp then Share(p.r0, Lp(p, who), p.totalLp) else 0
  }

  function Payout1(p: Pool, who: string): nat {
    if 0 < Lp(p, who) <= p.totalLp then Share(p.r1, Lp(p, who), p.totalLp) else 0
  }

  function LeaveAll(p: Pool, order: seq<string>): Pool
    decreases order
  {
    if order == [] then p else LeaveAll(Leave(p, order[0]), order[1..])
  }

  function Payouts(p: Pool, order: seq<string>): seq<(nat, nat)>
    decreases order
  {
    if order == [] then []
    else [(Payout0(p, order[0]), Payout1(p, order[0]))] + Payouts(Leave(p, order[0]), order[1..])
  }

  function Sum0(ps: seq<(nat, nat)>): nat { if ps == [] then 0 else ps[0].0 + Sum0(ps[1..]) }

  function Sum1(ps: seq<(nat, nat)>): nat { if ps == [] then 0 else ps[0].1 + Sum1(ps[1..]) }

  lemma HolderWithinTotal(p: Pool, who: string)
    requires SharesAddUp(p)
    ensures Lp(p, who) <= p.totalLp
  {
    if who in p.lp { TotalSplit(p.lp, who); }
  }

  // A share of reserves that grew per share is at least the old share.
  lemma ShareMonotone(r: nat, t: nat, r': nat, t': nat, lp: nat)
    requires 0 < t && 0 < t' && r * t' <= r' * t
    ensures Share(r, lp, t) <= Share(r', lp, t')
  {
    var s, s' := Share(r, lp, t), Share(r', lp, t');
    DivBounds(r * lp, t);
    DivBounds(r' * lp, t');
    MulLe(s * t, r * lp, t');
    MulLe(r * t', r' * t, lp);
    assert (s * t') * t <= (r' * lp) * t by {
      assert (s * t) * t' == (s * t') * t;
      assert (r * lp) * t' == (r * t') * lp;
      assert (r' * t) * lp == (r' * lp) * t;
    }
    CancelLe(s * t', r' * lp, t);
    CancelLt(s, s' + 1, t');
  }

  // Leaving in any order, each holder gets at least the share held at the start.
  lemma {:induction false} EveryoneGetsTheirShare(start: Pool, p: Pool, order: seq<string>, i: nat)
    requires SharesAddUp(start) && SharesAddUp(p) && 0 < start.totalLp && SharesGrow(start, p)
    requires forall j, k :: 0 <= j < k < |order| ==> order[j] != order[k]
    requires forall j :: 0 <= j < |order| ==> Lp(p, order[j]) == Lp(start, order[j])
    requires i < |order|
    ensures |Payouts(p, order)| == |order|
    ensures var pay := Payouts(p, order)[i];
      && Share(start.r0, Lp(start, order[i]), start.totalLp) <= pay.0
      && Share(start.r1, Lp(start, order[i]), start.totalLp) <= pay.1
    decreases i
  {
    var who := order[0];
    var q := Leave(p, who);
    PayoutsLength(p, order);
    HolderWithinTotal(p, who);
    if i == 0 {
      if 0 < Lp(p, who) {
        ShareMonotone(start.r0, start.totalLp, p.r0, p.totalLp, Lp(p, who));
        ShareMonotone(start.r1, start.totalLp, p.r1, p.totalLp, Lp(p, who));
      }
    } else {
      if 0 < Lp(p, who) {
        RemoveKeeps(p, who, Lp(p, who));
        GrowTransitive(start.r0, start.totalLp, p.r0, p.totalLp, q.r0, q.totalLp);
        GrowTransitive(start.r1, start.totalLp, p.r1, p.totalLp, q.r1, q.totalLp);
      }
      EveryoneGetsTheirShare(start, q, order[1..], i - 1);
    }
  }

  lemma {:induction false} PayoutsLength(p: Pool, order: seq<string>)
    ensures |Payouts(p, order)| == |order|
    decreases order
  {
    if order != [] { PayoutsLength(Leave(p, order[0]), order[1..]); }
  }

  // When every holder has left, the payouts are exactly the reserves and the pool is empty.
  lemma {:induction false} LeavingEmptiesThePool(p: Pool, order: seq<string>)
    requires SharesAddUp(p)
    requires forall who :: 0 < Lp(p, who) ==> who in order
    ensures var q := LeaveAll(p, order);
      && SharesAddUp(q) && q.totalLp == 0 && q.r0 == 0 && q.r1 == 0
      && Sum0(Payouts(p, order)) == p.r0 && Sum1(Payouts(p, order)) == p.r1
    decreases order
  {
    if order == [] {
      forall k | k in p.lp ensures p.lp[k] == 0 { assert Lp(p, k) == p.lp[k]; }
      TotalZero(p.lp);
    } else {
      var who := order[0];
      HolderWithinTotal(p, who);
      if 0 < Lp(p, who) {
        RemoveKeeps(p, who, Lp(p, who));
        ShareBound(p.r0, Lp(p, who), p.totalLp);
        ShareBound(p.r1, Lp(p, who), p.totalLp);
      }
      var q := Leave(p, who);
      forall w | 0 < Lp(q, w) ensures w in order[1..] {
        assert 0 < Lp(p, w);
        assert w != who;
      }
      LeavingEmptiesThePool(q, order[1..]);
      var rest := Payouts(q, order[1..]);
      assert Payouts(p, order)[1..] == rest;
    }
  }

  // Everybody leaves a pool, in any order: nobody gets less than the share held at the
  // start, and together they get everything.
  lemma EverybodyLeaves(p: Pool, order: seq<string>)
    requires SharesAddUp(p) && 0 < p.totalLp
    requires forall j, k :: 0 <= j < k < |order| ==> order[j] != order[k]
    requires forall who :: 0 < Lp(p, who) ==> who in order
    ensures |Payouts(p, order)| == |order|
    ensures forall i :: 0 <= i < |order| ==>
      && p.r0 * Lp(p, order[i]) / p.totalLp <= Payouts(p, order)[i].0
      && p.r1 * Lp(p, order[i]) / p.totalLp <= Payouts(p, order)[i].1
    ensures Sum0(Payouts(p, order)) == p.r0 && Sum1(Payouts(p, order)) == p.r1
    ensures var q := LeaveAll(p, order); q.totalLp == 0 && q.r0 == 0 && q.r1 == 0
  {
    PayoutsLength(p, order);
    LeavingEmptiesThePool(p, order);
    forall i | 0 <= i < |order|
      ensures Share(p.r0, Lp(p, order[i]), p.totalLp) <= Payouts(p, order)[i].0
      ensures Share(p.r1, Lp(p, order[i]), p.totalLp) <= Payouts(p, order)[i].1
    {
      EveryoneGetsTheirShare(p, p, order, i);
    }
  }
}
