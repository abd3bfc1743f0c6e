/** What one accepted swap guarantees: from the pool's own checks, whatever the host
    answers, and from an honest host on a constant-product pool. */
module SwapProperties {
  import opened Text
  import opened Newton
  import opened StableSwap
  import opened Pool

  // ------------------------------------------------------------------ any host

  // Nothing leaves the output side twice: what is stored, credited and paid never exceeds
  // the old reserve, and is the whole of it exactly when the host's new reserve is the
  // old one less its user output. The dust fee, the referral and the credit cancel out.
  lemma OutputConserved(pricing: Pricing, rIn: nat, rOut: nat, a: int, reply: Reply, bps: Option<nat>)
    requires Settle(pricing, rIn, rOut, a, reply, bps).Some?
    ensures var s := Settle(pricing, rIn, rOut, a, reply, bps).value;
      && s.newOut + s.credit + s.referral + s.user <= rOut
      && (s.newOut + s.credit + s.referral + s.user == rOut <==> reply.user.value == rOut - reply.newY.value)
      && s.newIn == reply.newX.value && rIn <= s.newIn
  {
  }

  // The referral is the basis-point share of what is paid out, rounded down.
  lemma ReferralExact(pricing: Pricing, rIn: nat, rOut: nat, a: int, reply: Reply, bps: Option<nat>)
    requires Settle(pricing, rIn, rOut, a, reply, bps).Some?
    ensures var s := Settle(pricing, rIn, rOut, a, reply, bps).value;
      var rate := if bps.Some? then bps.value else 0;
      10000 * s.referral <= rate * (s.referral + s.user) < 10000 * (s.referral + 1)
  {
    hide OnCurve, ReplyAccepted;
    var s := Settle(pricing, rIn, rOut, a, reply, bps).value;
    DivBounds((s.referral + s.user) * (if bps.Some? then bps.value else 0), 10000);
  }

  // The dust unit is taken exactly when the host reports no share and no credit for an output
  // of more than one unit. It comes out of the user's part, never out of the reserve.
  lemma DustExact(pricing: Pricing, rIn: nat, rOut: nat, a: int, reply: Reply, bps: Option<nat>)
    requires Settle(pricing, rIn, rOut, a, reply, bps).Some?
    ensures var s := Settle(pricing, rIn, rOut, a, reply, bps).value;
      var taken := reply.lpShare == Some(0) && reply.nodeShare == Some(0) && reply.credit == Some(0)
        && 1 < reply.user.value;
      && s.credit == reply.credit.value + (if taken then 1 else 0)
      && s.user + s.referral == reply.user.value - (if taken then 1 else 0)
      && s.newOut == reply.newY.value - reply.credit.value
      && s.newOut + s.credit + s.referral + s.user == reply.newY.value + reply.user.value
  {
    hide OnCurve;
  }

  // What a constant-product swap pays out, whatever the host answers: never more than the
  // constant product's output rounded up, and strictly less than the exact output when the
  // dust unit is taken. Whether less than the rounded-down output is paid, so that a fee is
  // left with the pool or the nodes, depends on the host's user output alone.
  lemma PaidAgainstGross(rIn: nat, rOut: nat, a: int, reply: Reply, bps: Option<nat>)
    requires Settle(OnProduct, rIn, rOut, a, reply, bps).Some?
    ensures var paid := Paid(Settle(OnProduct, rIn, rOut, a, reply, bps).value); var gross := a * rOut / (rIn + a);
      && (paid - 1) * (rIn + a) < a * rOut
      && (Dust(reply) ==> paid * (rIn + a) < a * rOut)
      && (paid < gross <==> reply.user.value < gross || (reply.user.value == gross && Dust(reply)))
  {
    var u := reply.user.value;
    DivBounds(rIn * rOut, rIn + a);
    assert u <= rOut - rIn * rOut / (rIn + a);
    CeilingPaid(rIn, rOut, a, u, rIn * rOut / (rIn + a));
    DivBounds(a * rOut, rIn + a);
    CancelLt(u - 1, a * rOut / (rIn + a) + 1, rIn + a);
    hide ReplyAccepted, Cut;
  }

  function Paid(s: Settlement): nat {
    s.user + s.referral
  }

  lemma CeilingPaid(rIn: nat, rOut: nat, a: int, u: int, floor: int)
    requires 0 < a && rIn * rOut < (floor + 1) * (rIn + a) && u <= rOut - floor
    ensures (u - 1) * (rIn + a) < a * rOut
  {
    MulLe(u - 1, rOut - (floor + 1), rIn + a);
    assert (rOut - (floor + 1)) * (rIn + a) == rIn * rOut + a * rOut - (floor + 1) * (rIn + a);
  }

  // The host's own word is all there is about fees: this answer is accepted on a pool of
  // 1000 to 1000, pays the whole gross output of an input of 10, and leaves no fee.
  lemma FeelessAnswer()
    ensures var reply := Reply(Some(9), Some(1010), Some(991), Some(0), Some(-1), Some(0), false, 0);
      Settle(OnProduct, 1000, 1000, 10, reply, None) == Some(Settlement(1010, 991, 0, 0, 9))
        && 10 * 1000 / (1000 + 10) == 9
  {
    assert 0 * 9 / 10000 == 0;
  }

  // The stored output reserve of a constant-product pool: the host's new reserve meets the
  // constant product before the credit is taken off, so only reserve and credit together do.
  lemma StoredOutput(rIn: nat, rOut: nat, a: int, reply: Reply, bps: Option<nat>)
    requires Settle(OnProduct, rIn, rOut, a, reply, bps).Some?
    ensures var s := Settle(OnProduct, rIn, rOut, a, reply, bps).value;
      && rIn * rOut / (rIn + a) <= s.newOut + s.credit
      && (0 < s.newOut <==> reply.credit.value < reply.newY.value)
  {
  }

  // A credit of the whole output reserve is accepted and leaves that reserve empty.
  lemma EmptyingCredit()
    ensures var reply := Reply(Some(1), Some(1000), Some(991), Some(991), Some(0), Some(0), false, 0);
      Settle(OnProduct, 1000, 1000, 10, reply, None) == Some(Settlement(1000, 0, 991, 0, 1))
  {
    assert 1 * 0 / 10000 == 0;
  }

  // On the constant product user and referral together never take more than a third of
  // the output reserve, rounded up.
  lemma PayoutBound(rIn: nat, rOut: nat, a: int, reply: Reply, bps: Option<nat>)
    requires Settle(OnProduct, rIn, rOut, a, reply, bps).Some?
    ensures var s := Settle(OnProduct, rIn, rOut, a, reply, bps).value;
      s.user + s.referral <= rOut - 2 * rOut / 3
  {
    FloorOfCap(rIn, rOut, a);
  }

  // The input cap of half the reserve keeps the floor at two thirds of the output reserve.
  lemma FloorOfCap(rIn: nat, rOut: nat, a: int)
    requires 0 < a <= rIn / 2
    ensures 2 * rOut / 3 <= rIn * rOut / (rIn + a)
  {
    var f, g := rIn * rOut / (rIn + a), 2 * rOut / 3;
    DivBounds(rIn * rOut, rIn + a);
    MulLe(2 * (rIn + a), 3 * rIn, rOut);
    CapStep(f, g, rIn, rOut, a);
  }

  lemma CapStep(f: int, g: int, rIn: nat, rOut: nat, a: int)
    requires 0 < a && rIn * rOut < (f + 1) * (rIn + a) && 3 * g <= 2 * rOut && 2 * (rIn + a) <= 3 * rIn
    ensures g <= f
  {
    MulLe(3 * g, 2 * rOut, rIn + a);
    MulLe(2 * (rIn + a), 3 * rIn, rOut);
    assert 3 * (g * (rIn + a)) <= 3 * (rIn * rOut) by {
      assert (3 * g) * (rIn + a) == 3 * (g * (rIn + a));
      assert (2 * rOut) * (rIn + a) == (2 * (rIn + a)) * rOut;
      assert (3 * rIn) * rOut == 3 * (rIn * rOut);
    }
    CancelLt(g, f + 1, rIn + a);
  }

  // The stable check in terms of the exact curve: the reserves an accepted swap stores lie,
  // but for one normalized output unit, strictly above the curve of the old reserves, and
  // the D solved for them with that unit is at least the old D.
  lemma StableSwapKeepsCurve(amp: int, rateIn: int, rateOut: int, rIn: nat, rOut: nat, a: int, reply: Reply,
                             bps: Option<nat>)
    requires Settle(OnStable(amp, rateIn, rateOut), rIn, rOut, a, reply, bps).Some?
    ensures GetD(rIn * rateIn, rOut * rateOut, amp).Ok?
    ensures var s := Settle(OnStable(amp, rateIn, rateOut), rIn, rOut, a, reply, bps).value;
      var d0 := GetD(rIn * rateIn, rOut * rateOut, amp).value;
      && Invariant(s.newIn * rateIn, s.newOut * rateOut + 1, amp, d0) < 0
      && (var d1 := GetD(s.newIn * rateIn, s.newOut * rateOut + 1, amp); d1.Ok? ==> d0 <= d1.value)
  {
    var s := Settle(OnStable(amp, rateIn, rateOut), rIn, rOut, a, reply, bps).value;
    assert 0 < rateOut;
    MulLe(0, s.newOut, rateOut);
    FloorYIsExact(s.newIn, rIn, rOut, rateIn, rateOut, amp, s.newOut * rateOut);
  }

  // The converse: on a pool of workable size the check refuses no reserves that are
  // strictly above the curve of the old ones.
  lemma StableFloorAdmits(amp: int, rateIn: int, rateOut: int, rIn: nat, rOut: nat, newIn: nat, newOut: nat)
    requires 0 < rateIn && 0 < rateOut && 0 < rIn && 0 < rOut && 0 < newIn && ValidAmp(amp)
    requires rIn * rateIn + rOut * rateOut < Pow(2, 128)
    requires GetD(rIn * rateIn, rOut * rateOut, amp).Ok? ==>
      Invariant(newIn * rateIn, newOut * rateOut, amp, GetD(rIn * rateIn, rOut * rateOut, amp).value) < 0
    ensures OnCurve(OnStable(amp, rateIn, rateOut), rIn, rOut, newIn, newOut)
  {
    FloorYConverges(newIn, rIn, rOut, rateIn, rateOut, amp);
    MulLe(0, newOut, rateOut);
    FloorYIsExact(newIn, rIn, rOut, rateIn, rateOut, amp, newOut * rateOut);
  }

  // ------------------------------------------------------------------ the honest host

  // How an honest host accounts for the swap, on either curve. With HBD out the node share
  // leaves the output reserve; otherwise it is sold back for nodeMove HBD, which leaves
  // the input reserve. Either way nodeMove is what leaves the pool's account.
  ghost predicate Accounted(rIn: nat, rOut: nat, a: int, hbdOut: bool, reply: Reply) {
    && Parsed(reply)
    && 0 <= reply.user.value && 0 <= reply.lpShare.value && 0 <= reply.nodeShare.value && 0 <= reply.credit.value
    && (if hbdOut then
          && reply.newX.value == rIn + a
          && reply.newY.value == rOut - reply.user.value - reply.nodeShare.value
          && reply.nodeMove == reply.nodeShare.value
        else
          && reply.newX.value == rIn + a - reply.nodeMove
          && reply.newY.value == rOut - reply.user.value)
  }

  // An honest host on the constant product: the gross output is shared out in full, and
  // what the node share is sold back for is at most the constant product's price.
  ghost predicate Honest(rIn: nat, rOut: nat, a: int, hbdOut: bool, reply: Reply)
    requires 0 < rIn + a
  {
    && Accounted(rIn, rOut, a, hbdOut, reply)
    && reply.user.value + reply.lpShare.value + reply.nodeShare.value + reply.credit.value == a * rOut / (rIn + a)
    && (hbdOut || (rIn + a) * (reply.newY.value - reply.nodeShare.value) <= reply.newX.value * reply.newY.value)
  }

  // With an honest host the pool refuses nothing: every check passes, the stored output
  // reserve stays positive and the product of the reserves does not fall.
  lemma HonestSwapAccepted(rIn: nat, rOut: nat, a: int, hbdOut: bool, reply: Reply, bps: Option<nat>)
    requires 0 < rIn && 0 < rOut && 0 < a <= rIn / 2 && (bps.Some? ==> bps.value <= 10000)
    requires Honest(rIn, rOut, a, hbdOut, reply) && 0 < reply.user.value
    ensures Settle(OnProduct, rIn, rOut, a, reply, bps).Some?
    ensures var s := Settle(OnProduct, rIn, rOut, a, reply, bps).value;
      0 < s.newOut && rIn * rOut <= s.newIn * s.newOut
  {
    HonestAmounts(rIn, rOut, a, hbdOut, reply);
    assert ReplyAccepted(OnProduct, rIn, rOut, a, reply);
  }

  // With an honest host no swap that pays out more than one unit is free: user and referral
  // together get strictly less than the gross output.
  lemma NoFreeSwap(rIn: nat, rOut: nat, a: int, hbdOut: bool, reply: Reply, bps: Option<nat>)
    requires Settle(OnProduct, rIn, rOut, a, reply, bps).Some? && Honest(rIn, rOut, a, hbdOut, reply)
    requires 1 < reply.user.value
    ensures Paid(Settle(OnProduct, rIn, rOut, a, reply, bps).value) < a * rOut / (rIn + a)
  {
    hide OnCurve, Cut;
  }

  lemma HonestAmounts(rIn: nat, rOut: nat, a: int, hbdOut: bool, reply: Reply)
    requires 0 < rIn && 0 < rOut && 0 < a
    requires Honest(rIn, rOut, a, hbdOut, reply) && 0 < reply.user.value
    ensures var newX, newY, left := reply.newX.value, reply.newY.value, reply.newY.value - reply.credit.value;
      && rIn <= newX && 0 < left
      && rIn * rOut / (rIn + a) <= newY
      && rIn * rOut <= newX * left
  {
    var user, ns, nc := reply.user.value, reply.nodeShare.value, reply.credit.value;
    var x0, gross := rIn + a, a * rOut / (rIn + a);
    GrossBounds(rIn, rOut, a);
    if hbdOut {
      ProductLe(rOut - gross, reply.newY.value - nc, x0, x0);
    } else {
      SoldBack(rIn, rOut, x0, gross, user, ns, nc, reply.newX.value);
    }
  }

  lemma GrossBounds(rIn: nat, rOut: nat, a: int)
    requires 0 < rIn && 0 < rOut && 0 < a
    ensures var gross := a * rOut / (rIn + a);
      && 0 <= gross < rOut
      && rIn * rOut <= (rOut - gross) * (rIn + a)
      && rIn * rOut / (rIn + a) <= rOut - gross
  {
    DivBounds(a * rOut, rIn + a);
    GrossPart(rIn, rOut, a, a * rOut / (rIn + a));
    CeilFloor(rIn * rOut, rIn + a, rOut - a * rOut / (rIn + a));
  }

  lemma GrossPart(rIn: nat, rOut: nat, a: int, gross: int)
    requires 0 < rIn && 0 < rOut && 0 < a
    requires gross * (rIn + a) <= a * rOut < (gross + 1) * (rIn + a)
    ensures 0 <= gross < rOut
    ensures rIn * rOut <= (rOut - gross) * (rIn + a)
  {
    var x0 := rIn + a;
    assert 0 < a * rOut && 0 < rIn * rOut;
    assert x0 * rOut == rIn * rOut + a * rOut;
    CancelLt(0, gross + 1, x0);
    CancelLt(gross, rOut, x0);
    assert (rOut - gross) * x0 == x0 * rOut - gross * x0;
  }

  lemma CeilFloor(n: int, d: int, m: int)
    requires 0 < d && n <= m * d
    ensures n / d <= m
  {
    DivBounds(n, d);
    CancelLe(n / d, m, d);
  }

  // Selling the node share back leaves the input reserve at least as large as it was and
  // the product, less the network credit, no smaller.
  lemma SoldBack(rIn: nat, rOut: nat, x0: int, gross: int, user: int, ns: int, nc: int, newX: int)
    requires 0 < rIn < x0 && 0 < rOut && 0 <= gross < rOut && rIn * rOut <= (rOut - gross) * x0
    requires 0 < user && 0 <= ns && 0 <= nc && user + ns + nc <= gross
    requires x0 * (rOut - user - ns) <= newX * (rOut - user) && newX <= x0
    ensures rIn <= newX && 0 < rOut - user - nc
    ensures rIn * rOut <= newX * (rOut - user - nc)
  {
    var y := rOut - user;
    ProductLe(rOut - gross, y - ns - nc, x0, x0);
    assert newX * (y - nc) == newX * y - newX * nc;
    assert x0 * (y - ns - nc) == x0 * (y - ns) - x0 * nc;
    MulLe(newX, x0, nc);
    assert rIn * rOut <= newX * (y - nc);
    MulLe(0, user + nc, rIn);
    assert rIn * (y - nc) == rIn * rOut - (user + nc) * rIn;
    CancelLe(rIn, newX, y - nc);
  }
}
