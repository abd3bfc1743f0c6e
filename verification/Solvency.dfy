/** A pool's ledger balances against its reserves and fee buckets, call by call.

    The slack of one side is the balance of the pool's account in that asset less the
    reserve and the fee bucket of the side. A solvent pool has no negative slack. */
module Solvency {
  import opened Text
  import opened Bank
  import opened P = Pool
  import opened PoolCalls
  import opened SwapProperties

  function SideAsset(p: P.Pool, side0: bool): Option<AssetId> {
    if side0 then Asset0(p) else Asset1(p)
  }

  function Owed(p: P.Pool, side0: bool): nat {
    if side0 then p.r0 + p.fee0 else p.r1 + p.fee1
  }

  // Only of use when both assets are readable.
  function Slack(p: P.Pool, l: Ledger, id: string, side0: bool): int {
    if SideAsset(p, side0).None? then 0 else Bal(l, Acct(id), SideAsset(p, side0).value) - Owed(p, side0)
  }

  predicate Readable(p: P.Pool) {
    Asset0(p).Some? && Asset1(p).Some? && Asset0(p).value != Asset1(p).value
  }

  predicate SameAssets(p: P.Pool, p': P.Pool) {
    Asset0(p) == Asset0(p') && Asset1(p) == Asset1(p')
  }

  // An honest host's answer to a swap on p: HBD is one of the two assets, the amounts are
  // accounted for, and on the constant product they are priced by it.
  ghost predicate HonestReply(p: P.Pool, env: Env, q: SwapParams, reply: Reply) {
    var plan := MakePlan(p, env, q);
    plan.Some? && 0 < plan.value.a ==>
      var v := plan.value;
      && (v.inA == Native(HBD) || v.outA == Native(HBD))
      && Accounted(v.rIn, v.rOut, v.a, v.outA == Native(HBD), reply)
      && (p.curve.Product? ==> Honest(v.rIn, v.rOut, v.a, v.outA == Native(HBD), reply))
  }

  // What a swap pays into an account: the referral and the user's part.
  function SwapGift(who: string, b: AssetId, q: SwapParams, outA: AssetId, s: Settlement): nat {
    (if q.beneficiary.Some? then At(who, b, q.beneficiary.value, outA, s.referral) else 0)
      + At(who, b, q.to, outA, s.user)
  }

  lemma PayBalances(l: Ledger, from: string, to: string, a: AssetId, n: nat)
    ensures var r := Pay(l, from, to, a, n);
      r.Some? ==> forall who, b ::
        Bal(r.value, who, b) == Bal(l, who, b) - At(who, b, from, a, n) + At(who, b, to, a, n)
  {
    MoveBalances(l, from, to, a, n);
  }

  // Every balance after a swap's movements.
  lemma SwapLedgerBalances(l: Ledger, env: Env, q: SwapParams, inA: AssetId, outA: AssetId, nodeMove: nat, a: nat,
                           s: Settlement)
    requires SwapLedger(l, env, q, inA, outA, nodeMove, a, s).Some? && (q.beneficiary.None? ==> s.referral == 0)
    ensures var l' := SwapLedger(l, env, q, inA, outA, nodeMove, a, s).value;
      var me := Acct(env.self);
      forall who, b :: Bal(l', who, b) == Bal(l, who, b)
        - At(who, b, me, Native(HBD), nodeMove) + At(who, b, NODES, Native(HBD), nodeMove)
        - (if q.preDeposited then 0 else At(who, b, q.from, inA, a))
        + (if q.preDeposited then 0 else At(who, b, me, inA, a))
        - At(who, b, me, outA, s.referral) - At(who, b, me, outA, s.user) + SwapGift(who, b, q, outA, s)
  {
    hide Move, Bal, Acct;
    var me := Acct(env.self);
    MoveBalances(l, me, NODES, Native(HBD), nodeMove);
    var l1 := Move(l, me, NODES, Native(HBD), nodeMove).value;
    MoveBalances(l1, q.from, me, inA, a);
    var l2 := if q.preDeposited then l1 else Move(l1, q.from, me, inA, a).value;
    if q.beneficiary.Some? { PayBalances(l2, me, q.beneficiary.value, outA, s.referral); }
    var l3 := if q.beneficiary.Some? then Pay(l2, me, q.beneficiary.value, outA, s.referral).value else l2;
    MoveBalances(l3, me, q.to, outA, s.user);
  }

  // ------------------------------------------------------------------ one call

  // Accounts a call may pay.
  function Payees(c: Call): set<string> {
    match c
    case SwapCall(_, q, _) => {q.to} + (if q.beneficiary.Some? then {q.beneficiary.value} else {})
    case AddCall(_, _) => {}
    case RemoveCall(_, q) => {q.recipient}
    case ClaimCall(env) => if env.owner.Some? then {env.owner.value} else {}
  }

  // Whether a call takes anything from its caller.
  predicate Draws(c: Call) {
    match c
    case SwapCall(_, q, _) => !q.preDeposited
    case AddCall(_, q) => !q.pre0 || !q.pre1
    case _ => false
  }

  // What a call counts as already brought in by the router.
  function Brought(p: P.Pool, c: Call, side0: bool): int {
    match c
    case SwapCall(env, q, _) =>
      if !q.preDeposited || q.amountIn.None? then 0
      else if Direction(p, Lower(q.assetIn), Lower(q.assetOut)) == Some(side0) then q.amountIn.value
      else 0
    case AddCall(_, q) =>
      if side0 then if q.pre0 && q.amt0.Some? then q.amt0.value else 0
      else if q.pre1 && q.amt1.Some? then q.amt1.value
      else 0
    case _ => 0
  }

  ghost predicate HonestCall(p: P.Pool, c: Call) {
    c.SwapCall? ==> HonestReply(p, c.env, c.swap, c.reply)
  }

  // The pool's own account after a call: no side loses slack beyond what the router brought,
  // and none gains any unless the pool pays itself.
  ghost predicate OwnSlackKept(p: P.Pool, l: Ledger, c: Call, d: Done) {
    forall side0 ::
      var before := Slack(p, l, c.env.self, side0) - Brought(p, c, side0);
      var after := Slack(d.pool, d.ledger, c.env.self, side0);
      before <= after && (Acct(c.env.self) !in Payees(c) ==> before == after)
  }

  // What the node runners get out of a swap; they get nothing out of any other call.
  function NodeGain(c: Call, who: string, b: AssetId): nat {
    if c.SwapCall? then At(who, b, NODES, Native(HBD), c.reply.nodeMove) else 0
  }

  // Every other account: only the caller is drawn from, and only payees receive, besides what
  // a swap brings the node runners.
  ghost predicate OthersKept(l: Ledger, c: Call, d: Done) {
    forall who, b {:trigger Bal(d.ledger, who, b)} ::
      who != Acct(c.env.self) && (Draws(c) ==> who != c.env.caller) ==>
        var before := Bal(l, who, b) + NodeGain(c, who, b);
        before <= Bal(d.ledger, who, b) && (who !in Payees(c) ==> before == Bal(d.ledger, who, b))
  }

  ghost predicate CallKept(p: P.Pool, l: Ledger, c: Call, d: Done) {
    OwnSlackKept(p, l, c, d) && OthersKept(l, c, d) && SameAssets(p, d.pool)
  }

  // The reserves and buckets after an honest swap, side by side.
  lemma HonestSwapOwed(p: P.Pool, env: Env, q: SwapParams, reply: Reply)
    requires MakePlan(p, env, q).Some? && HonestReply(p, env, q, reply) && Readable(p)
    requires PlanSettle(MakePlan(p, env, q).value, q, reply).Some?
    ensures var plan := MakePlan(p, env, q).value; var s := PlanSettle(plan, q, reply).value;
      var p' := WithSwap(p, plan.inIs0, s);
      && Owed(p', plan.inIs0) == Owed(p, plan.inIs0) + plan.a - (if plan.inA == Native(HBD) then reply.nodeMove else 0)
      && Owed(p', !plan.inIs0) == Owed(p, !plan.inIs0) - s.referral - s.user
        - (if plan.outA == Native(HBD) then reply.nodeMove else 0)
  {
    hide OnCurve, Orient, Cut;
    var plan := MakePlan(p, env, q).value;
    assert plan.inA != plan.outA;
    OutputConserved(plan.pricing, plan.rIn, plan.rOut, plan.a, reply, Referral(q));
    SettleSum(plan.pricing, plan.rIn, plan.rOut, plan.a, reply, Referral(q));
  }

  lemma SettleSum(pricing: Pricing, rIn: nat, rOut: nat, a: int, reply: Reply, bps: Option<nat>)
    requires Settle(pricing, rIn, rOut, a, reply, bps).Some?
    ensures var s := Settle(pricing, rIn, rOut, a, reply, bps).value;
      && 0 < a
      && s.newOut + s.credit + s.referral + s.user == reply.newY.value + reply.user.value
      && (bps.None? ==> s.referral == 0)
  {
    hide OnCurve;
  }

  lemma PlanFacts(p: P.Pool, env: Env, q: SwapParams)
    requires MakePlan(p, env, q).Some?
    ensures var plan := MakePlan(p, env, q).value;
      && SideAsset(p, plan.inIs0) == Some(plan.inA) && SideAsset(p, !plan.inIs0) == Some(plan.outA)
      && Direction(p, Lower(q.assetIn), Lower(q.assetOut)) == Some(plan.inIs0)
      && q.amountIn == Some(plan.a)
      && (q.preDeposited || q.from == env.caller)
      && plan.rIn == (if plan.inIs0 then p.r0 else p.r1) && plan.rOut == (if plan.inIs0 then p.r1 else p.r0)
      && Orient(p.curve, plan.inIs0) == Some(plan.pricing)
  {
    hide NewAsset, Orient, Lower;
  }

  lemma SwapAssetsSame(p: P.Pool, inIs0: bool, s: Settlement)
    ensures SameAssets(p, WithSwap(p, inIs0, s))
  {
  }

  // The balances of the pool's own account after a swap, given every balance.
  lemma SwapOwnSlack(p: P.Pool, l: Ledger, l': Ledger, env: Env, q: SwapParams, reply: Reply, plan: Plan, s: Settlement)
    requires plan.inA != plan.outA && (q.preDeposited || q.from == env.caller) && env.caller != Acct(env.self)
    requires (plan.inA == Native(HBD) || plan.outA == Native(HBD)) && 0 <= plan.a
    requires SideAsset(p, plan.inIs0) == Some(plan.inA) && SideAsset(p, !plan.inIs0) == Some(plan.outA)
    requires var me := Acct(env.self);
      forall b :: Bal(l', me, b) == Bal(l, me, b)
        - At(me, b, me, Native(HBD), reply.nodeMove) + At(me, b, NODES, Native(HBD), reply.nodeMove)
        - (if q.preDeposited then 0 else At(me, b, q.from, plan.inA, plan.a))
        + (if q.preDeposited then 0 else At(me, b, me, plan.inA, plan.a))
        - At(me, b, me, plan.outA, s.referral) - At(me, b, me, plan.outA, s.user) + SwapGift(me, b, q, plan.outA, s)
    requires var p' := WithSwap(p, plan.inIs0, s);
      && Owed(p', plan.inIs0) == Owed(p, plan.inIs0) + plan.a - (if plan.inA == Native(HBD) then reply.nodeMove else 0)
      && Owed(p', !plan.inIs0) == Owed(p, !plan.inIs0) - s.referral - s.user
        - (if plan.outA == Native(HBD) then reply.nodeMove else 0)
    ensures var p' := WithSwap(p, plan.inIs0, s);
      && Slack(p', l', env.self, plan.inIs0)
        == Slack(p, l, env.self, plan.inIs0) - (if q.preDeposited then plan.a else 0)
      && Slack(p', l', env.self, !plan.inIs0)
        == Slack(p, l, env.self, !plan.inIs0) + SwapGift(Acct(env.self), plan.outA, q, plan.outA, s)
  {
    hide Bal, Owed, SideAsset, Acct;
    AcctFacts(env.self, env.self);
    SwapAssetsSame(p, plan.inIs0, s);
    SideAssetSame(p, WithSwap(p, plan.inIs0, s));
  }

  lemma SideAssetSame(p: P.Pool, p': P.Pool)
    requires SameAssets(p, p')
    ensures forall side0 :: SideAsset(p, side0) == SideAsset(p', side0)
  {
  }

  lemma SwapOwnKept(p: P.Pool, l: Ledger, env: Env, q: SwapParams, reply: Reply)
    requires Swap(p, l, env, q, reply).Some? && Readable(p) && HonestReply(p, env, q, reply)
    requires env.caller != Acct(env.self)
    ensures OwnSlackKept(p, l, SwapCall(env, q, reply), Swap(p, l, env, q, reply).value)
    ensures SameAssets(p, Swap(p, l, env, q, reply).value.pool)
  {
    hide Move, SwapLedger, Settle, Bal, MakePlan, Slack, SideAsset, Direction, Lower, Owed, Acct, HonestReply,
         WithSwap, SameAssets;
    var plan := MakePlan(p, env, q).value;
    var s := PlanSettle(plan, q, reply).value;
    PlanFacts(p, env, q);
    ReplyFacts(p, env, q, reply);
    SettleSum(plan.pricing, plan.rIn, plan.rOut, plan.a, reply, Referral(q));
    HonestSwapOwed(p, env, q, reply);
    SwapLedgerBalances(l, env, q, plan.inA, plan.outA, reply.nodeMove, plan.a, s);
    SwapOwnSlack(p, l, Swap(p, l, env, q, reply).value.ledger, env, q, reply, plan, s);
    SwapAssetsSame(p, plan.inIs0, s);
  }

  lemma SwapOthersKept(p: P.Pool, l: Ledger, env: Env, q: SwapParams, reply: Reply)
    requires Swap(p, l, env, q, reply).Some?
    ensures OthersKept(l, SwapCall(env, q, reply), Swap(p, l, env, q, reply).value)
  {
    hide Move, SwapLedger, Settle, Bal, MakePlan, SideAsset, Direction, Lower, Acct, WithSwap;
    var plan := MakePlan(p, env, q).value;
    var s := PlanSettle(plan, q, reply).value;
    PlanFacts(p, env, q);
    SettleSum(plan.pricing, plan.rIn, plan.rOut, plan.a, reply, Referral(q));
    SwapLedgerBalances(l, env, q, plan.inA, plan.outA, reply.nodeMove, plan.a, s);
  }

  lemma SwapKept(p: P.Pool, l: Ledger, env: Env, q: SwapParams, reply: Reply)
    requires Swap(p, l, env, q, reply).Some? && Readable(p) && HonestReply(p, env, q, reply)
    requires env.caller != Acct(env.self)
    ensures CallKept(p, l, SwapCall(env, q, reply), Swap(p, l, env, q, reply).value)
  {
    SwapOwnKept(p, l, env, q, reply);
    SwapOthersKept(p, l, env, q, reply);
    hide Swap, OwnSlackKept, OthersKept, SameAssets;
  }

  lemma ReplyFacts(p: P.Pool, env: Env, q: SwapParams, reply: Reply)
    requires MakePlan(p, env, q).Some? && HonestReply(p, env, q, reply) && Readable(p)
    requires PlanSettle(MakePlan(p, env, q).value, q, reply).Some?
    ensures var plan := MakePlan(p, env, q).value;
      0 < plan.a && plan.inA != plan.outA && (plan.inA == Native(HBD) || plan.outA == Native(HBD))
  {
    hide OnCurve, Orient, Accounted, Honest, NewAsset;
  }

  // ------------------------------------------------------------------ the other calls

  lemma DrawBalances(l: Ledger, env: Env, pre: bool, a: AssetId, n: nat)
    ensures var r := Draw(l, env, pre, a, n);
      r.Some? ==> forall who, b ::
        Bal(r.value, who, b) == Bal(l, who, b) - (if pre then 0 else At(who, b, env.caller, a, n))
          + (if pre then 0 else At(who, b, Acct(env.self), a, n))
  {
    MoveBalances(l, env.caller, Acct(env.self), a, n);
  }

  lemma AddFacts(p: P.Pool, l: Ledger, env: Env, q: AddParams)
    requires AddLiquidity(p, l, env, q).Some? && Readable(p)
    ensures q.amt0.Some? && q.amt1.Some? && 0 < q.amt0.value && 0 < q.amt1.value
    ensures var d := AddLiquidity(p, l, env, q).value;
      && SameAssets(p, d.pool)
      && Owed(d.pool, true) == Owed(p, true) + q.amt0.value && Owed(d.pool, false) == Owed(p, false) + q.amt1.value
      && Drawn(l, env, q, d.ledger, Asset0(p).value, Asset1(p).value)
  {
    hide Draw, Bal, Minted, Acct, NewAsset, FromRouter, SlippageOk, At;
    var a0, a1 := Asset0(p).value, Asset1(p).value;
    var l1 := Draw(l, env, q.pre0, a0, q.amt0.value).value;
    DrawBalances(l, env, q.pre0, a0, q.amt0.value);
    DrawBalances(l1, env, q.pre1, a1, q.amt1.value);
  }

  lemma AddKept(p: P.Pool, l: Ledger, env: Env, q: AddParams)
    requires AddLiquidity(p, l, env, q).Some? && Readable(p) && env.caller != Acct(env.self)
    ensures CallKept(p, l, AddCall(env, q), AddLiquidity(p, l, env, q).value)
  {
    hide AddLiquidity, Bal, Acct, NewAsset, Owed, OwnSlackKept, OthersKept;
    var c, d := AddCall(env, q), AddLiquidity(p, l, env, q).value;
    AddFacts(p, l, env, q);
    AddOwn(p, l, env, q, d);
    AddOthers(l, env, q, d, Asset0(p).value, Asset1(p).value);
  }

  // Every balance after a deposit's draws of n0 and n1.
  ghost predicate Drawn(l: Ledger, env: Env, q: AddParams, l': Ledger, a0: AssetId, a1: AssetId)
    requires q.amt0.Some? && q.amt1.Some? && 0 < q.amt0.value && 0 < q.amt1.value
  {
    var me, n0, n1 := Acct(env.self), q.amt0.value, q.amt1.value;
    forall who, b ::
      Bal(l', who, b) == Bal(l, who, b)
      - (if q.pre0 then 0 else At(who, b, env.caller, a0, n0)) + (if q.pre0 then 0 else At(who, b, me, a0, n0))
      - (if q.pre1 then 0 else At(who, b, env.caller, a1, n1)) + (if q.pre1 then 0 else At(who, b, me, a1, n1))
  }

  lemma AddOwn(p: P.Pool, l: Ledger, env: Env, q: AddParams, d: Done)
    requires q.amt0.Some? && q.amt1.Some? && 0 < q.amt0.value && 0 < q.amt1.value
    requires Readable(p) && SameAssets(p, d.pool) && env.caller != Acct(env.self)
    requires Owed(d.pool, true) == Owed(p, true) + q.amt0.value && Owed(d.pool, false) == Owed(p, false) + q.amt1.value
    requires Drawn(l, env, q, d.ledger, Asset0(p).value, Asset1(p).value)
    ensures OwnSlackKept(p, l, AddCall(env, q), d)
  {
    hide Bal, Acct, NewAsset, Owed;
  }

  lemma AddOthers(l: Ledger, env: Env, q: AddParams, d: Done, a0: AssetId, a1: AssetId)
    requires q.amt0.Some? && q.amt1.Some? && 0 < q.amt0.value && 0 < q.amt1.value
    requires Drawn(l, env, q, d.ledger, a0, a1)
    ensures OthersKept(l, AddCall(env, q), d)
  {
    hide Bal, Acct;
  }

  lemma RemoveKept(p: P.Pool, l: Ledger, env: Env, q: RemoveParams)
    requires RemoveLiquidity(p, l, env, q).Some? && Readable(p)
    ensures CallKept(p, l, RemoveCall(env, q), RemoveLiquidity(p, l, env, q).value)
  {
    hide Pay, Bal, Acct, NewAsset, Share;
    var c, d := RemoveCall(env, q), RemoveLiquidity(p, l, env, q).value;
    var lp, me := q.lpAmount.value, Acct(env.self);
    var s0, s1 := Share(p.r0, lp, p.totalLp), Share(p.r1, lp, p.totalLp);
    ShareBound(p.r0, lp, p.totalLp);
    ShareBound(p.r1, lp, p.totalLp);
    var l1 := Pay(l, me, q.recipient, Asset0(p).value, s0).value;
    PayBalances(l, me, q.recipient, Asset0(p).value, s0);
    PayBalances(l1, me, q.recipient, Asset1(p).value, s1);
    assert OthersKept(l, c, d);
    assert OwnSlackKept(p, l, c, d);
  }

  lemma PayFeeBalances(l: Ledger, env: Env, owner: string, a: Option<AssetId>, fee: nat)
    requires a.Some?
    ensures var r := PayFee(l, env, owner, a, fee);
      r.Some? ==> forall who, b ::
        Bal(r.value, who, b) == Bal(l, who, b) - At(who, b, Acct(env.self), a.value, fee)
          + (if a.value.Native? then 0 else At(who, b, owner, a.value, fee))
  {
    MoveBalances(l, Acct(env.self), owner, a.value, fee);
    BurnBalances(l, Acct(env.self), a.value, fee);
  }

  lemma ClaimFacts(p: P.Pool, l: Ledger, env: Env)
    requires ClaimFees(p, l, env).Some? && Readable(p)
    ensures env.owner.Some?
    ensures var d := ClaimFees(p, l, env).value; var me := Acct(env.self);
      var a0, a1 := Asset0(p).value, Asset1(p).value;
      && SameAssets(p, d.pool) && Owed(d.pool, true) == Owed(p, true) - p.fee0
        && Owed(d.pool, false) == Owed(p, false) - p.fee1
      && forall who, b ::
        Bal(d.ledger, who, b) == Bal(l, who, b)
        - At(who, b, me, a0, p.fee0) + (if a0.Native? then 0 else At(who, b, env.owner.value, a0, p.fee0))
        - At(who, b, me, a1, p.fee1) + (if a1.Native? then 0 else At(who, b, env.owner.value, a1, p.fee1))
  {
    hide PayFee, Bal, Acct, NewAsset, At;
    var owner := env.owner.value;
    var l1 := PayFee(l, env, owner, Asset0(p), p.fee0).value;
    PayFeeBalances(l, env, owner, Asset0(p), p.fee0);
    PayFeeBalances(l1, env, owner, Asset1(p), p.fee1);
  }

  lemma ClaimKept(p: P.Pool, l: Ledger, env: Env)
    requires ClaimFees(p, l, env).Some? && Readable(p)
    ensures CallKept(p, l, ClaimCall(env), ClaimFees(p, l, env).value)
  {
    hide ClaimFees, Bal, Acct, NewAsset, Owed;
    var c, d := ClaimCall(env), ClaimFees(p, l, env).value;
    ClaimFacts(p, l, env);
    assert OthersKept(l, c, d);
    assert OwnSlackKept(p, l, c, d);
  }

  // Every call with an honest host keeps every account's claim: the pool stays as solvent as
  // it was, and nobody but the caller, the payees and the node runners is touched.
  lemma StepKept(p: P.Pool, l: Ledger, c: Call)
    requires Step(p, l, c).Some? && Readable(p) && HonestCall(p, c) && c.env.caller != Acct(c.env.self)
    ensures CallKept(p, l, c, Step(p, l, c).value)
  {
    match c
    case SwapCall(env, q, reply) => SwapKept(p, l, env, q, reply);
    case AddCall(env, q) => AddKept(p, l, env, q);
    case RemoveCall(env, q) => RemoveKept(p, l, env, q);
    case ClaimCall(env) => ClaimKept(p, l, env);
  }

  // ------------------------------------------------------------------ payouts are covered

  predicate Solvent(p: P.Pool, l: Ledger, id: string) {
    Readable(p) && 0 <= Slack(p, l, id, true) && 0 <= Slack(p, l, id, false)
  }

  // A solvent pool can always pay a withdrawal: nothing but the request's own conditions
  // decides whether it succeeds.
  lemma RemoveCovered(p: P.Pool, l: Ledger, env: Env, q: RemoveParams)
    requires Solvent(p, l, env.self)
    ensures RemoveLiquidity(p, l, env, q).Some? <==> MayRemove(p, env, q)
  {
    if MayRemove(p, env, q) {
      var lp, me := q.lpAmount.value, Acct(env.self);
      ShareBound(p.r0, lp, p.totalLp);
      ShareBound(p.r1, lp, p.totalLp);
      PayBalances(l, me, q.recipient, Asset0(p).value, Share(p.r0, lp, p.totalLp));
      hide NewAsset, Share, Acct;
    }
  }

  // And it can always pay out its fee buckets.
  lemma ClaimCovered(p: P.Pool, l: Ledger, env: Env)
    requires Solvent(p, l, env.self)
    ensures ClaimFees(p, l, env).Some? <==>
      env.owner.Some? && env.owner.value != "" && env.caller == env.owner.value && env.stamp.Some?
  {
    if env.owner.Some? {
      PayFeeBalances(l, env, env.owner.value, Asset0(p), p.fee0);
      hide NewAsset, Acct;
    }
  }

  // A solvent pool can always pay an honest swap that passed its checks: only a caller
  // without the input can make it fail from here on.
  lemma SwapCovered(p: P.Pool, l: Ledger, env: Env, q: SwapParams, reply: Reply)
    requires Solvent(p, l, env.self) && HonestReply(p, env, q, reply) && MakePlan(p, env, q).Some?
    requires var plan := MakePlan(p, env, q).value;
      && PlanSettle(plan, q, reply).Some? && SlippageOk(q.minOut, PlanSettle(plan, q, reply).value.user)
      && (q.preDeposited || (plan.a <= Bal(l, env.caller, plan.inA) && env.caller != Acct(env.self)))
    ensures Swap(p, l, env, q, reply).Some?
  {
    var plan := MakePlan(p, env, q).value;
    var s := PlanSettle(plan, q, reply).value;
    PlanFacts(p, env, q);
    ReplyFacts(p, env, q, reply);
    SettleSum(plan.pricing, plan.rIn, plan.rOut, plan.a, reply, Referral(q));
    PoolCanPay(p, l, env, q, reply, plan, s);
    hide Settle, MakePlan, HonestReply, Bal, Acct, Slack, Move;
    FundsSuffice(l, env, q, plan.inA, plan.outA, reply.nodeMove, plan.a, s);
  }

  lemma PoolCanPay(p: P.Pool, l: Ledger, env: Env, q: SwapParams, reply: Reply, plan: Plan, s: Settlement)
    requires Solvent(p, l, env.self) && HonestReply(p, env, q, reply)
    requires MakePlan(p, env, q) == Some(plan) && PlanSettle(plan, q, reply) == Some(s)
    ensures (if plan.outA == Native(HBD) then reply.nodeMove else 0) + s.referral + s.user
      <= Bal(l, Acct(env.self), plan.outA)
    ensures reply.nodeMove <= Bal(l, Acct(env.self), Native(HBD))
  {
    PlanFacts(p, env, q);
    ReplyFacts(p, env, q, reply);
    SettleSum(plan.pricing, plan.rIn, plan.rOut, plan.a, reply, Referral(q));
    SettledAmounts(plan.pricing, plan.rIn, plan.rOut, plan.a, reply, Referral(q));
    hide Settle, MakePlan, Bal, Acct, NewAsset, Orient, Honest, PlanSettle;
  }

  lemma SettledAmounts(pricing: Pricing, rIn: nat, rOut: nat, a: int, reply: Reply, bps: Option<nat>)
    requires Settle(pricing, rIn, rOut, a, reply, bps).Some?
    ensures Parsed(reply) && 0 < a <= rIn / 2 && rIn <= reply.newX.value && 0 < reply.newY.value
    ensures var s := Settle(pricing, rIn, rOut, a, reply, bps).value; reply.newY.value <= s.newOut + s.credit
  {
    hide OnCurve;
  }

  lemma FundsSuffice(l: Ledger, env: Env, q: SwapParams, inA: AssetId, outA: AssetId, nodeMove: nat, a: nat,
                     s: Settlement)
    requires nodeMove <= Bal(l, Acct(env.self), Native(HBD)) && inA != outA
    requires (if outA == Native(HBD) then nodeMove else 0) + s.referral + s.user <= Bal(l, Acct(env.self), outA)
    requires q.preDeposited || (q.from == env.caller && env.caller != Acct(env.self) && a <= Bal(l, env.caller, inA))
    ensures SwapLedger(l, env, q, inA, outA, nodeMove, a, s).Some?
  {
    var me := Acct(env.self);
    AcctFacts(env.self, env.self);
    hide Bal, Acct, Move;
    MoveBalances(l, me, NODES, Native(HBD), nodeMove);
    var l1 := Move(l, me, NODES, Native(HBD), nodeMove).value;
    MoveBalances(l1, q.from, me, inA, a);
    var l2 := if q.preDeposited then l1 else Move(l1, q.from, me, inA, a).value;
    if q.beneficiary.Some? {
      MoveBalances(l2, me, q.beneficiary.value, outA, s.referral);
      PayBalances(l2, me, q.beneficiary.value, outA, s.referral);
    }
    var l3 := if q.beneficiary.Some? then Pay(l2, me, q.beneficiary.value, outA, s.referral) else Some(l2);
    MoveBalances(l3.value, me, q.to, outA, s.user);
  }
}
