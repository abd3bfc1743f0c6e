/** What each call on a pool does to whom, in the terms of the request: assets by name, shares
    by holder, balances by account. Nothing here speaks of the order of the pool's sides. */
module Effects {
  import opened Text
  import opened Newton
  import opened Bank
  import opened StableSwap
  import opened P = Pool
  import opened Migration
  import opened SwapProperties
  import opened Solvency
  import opened Liquidity

  // ------------------------------------------------------------------ a pool by asset name

  function Reserve(p: P.Pool, name: string): nat {
    if Holding(p, name).Some? then Holding(p, name).value.1 else 0
  }

  function Bucket(p: P.Pool, name: string): nat {
    if Holding(p, name).Some? then Holding(p, name).value.2 else 0
  }

  // The asset the pool keeps under a name.
  function Kept(p: P.Pool, name: string): Option<AssetId> {
    if Holding(p, name).Some? then NewAsset(name, Holding(p, name).value.0) else None
  }

  // Decimals of a stable pool's asset.
  function DecimalsOf(p: P.Pool, name: string): nat
    requires p.curve.Stable?
  {
    if name == p.name0 then p.curve.dec0 else p.curve.dec1
  }

  // The factor that brings an asset to 18 decimals.
  function Scale(decimals: nat): nat {
    if decimals <= 18 then Pow(10, 18 - decimals) else 0
  }

  predicate Pairs(p: P.Pool, x: string, y: string) {
    (x == p.name0 && y == p.name1) || (x == p.name1 && y == p.name0)
  }

  predicate ViaRouter(p: P.Pool, env: Env) {
    p.router != "" && env.caller == "contract:" + p.router
  }

  predicate Addressable(env: Env, who: string) {
    env.kind(who) != "unknown"
  }

  // ------------------------------------------------------------------ a swap

  // What the source asks of a swap request before it looks at the host's answer.
  predicate SwapRequest(p: P.Pool, env: Env, q: SwapParams) {
    && q.assetIn != "" && q.assetOut != "" && q.to != "" && Addressable(env, q.to) && Addressable(env, q.from)
    && Pairs(p, Lower(q.assetIn), Lower(q.assetOut))
    && Kept(p, Lower(q.assetIn)).Some? && Kept(p, Lower(q.assetOut)).Some? && q.amountIn.Some?
    && (p.curve.Product? || (p.curve.Stable? && p.curve.dec0 <= 18 && p.curve.dec1 <= 18))
    && (if q.preDeposited then ViaRouter(p, env) else q.from == env.caller)
    && (q.beneficiary.Some? && q.refBps.Some? ==> Addressable(env, q.beneficiary.value))
  }

  // One accepted plan in the request's terms: which asset goes in, at which reserves and, on
  // the stable curve, scaled by which decimals.
  lemma PlanExact(p: P.Pool, env: Env, q: SwapParams)
    requires p.name0 != p.name1
    ensures MakePlan(p, env, q).Some? <==> SwapRequest(p, env, q)
    ensures MakePlan(p, env, q).Some? ==>
      var plan := MakePlan(p, env, q).value; var x, y := Lower(q.assetIn), Lower(q.assetOut);
      && plan.inIs0 == (x == p.name0) && Some(plan.inA) == Kept(p, x) && Some(plan.outA) == Kept(p, y)
      && plan.rIn == Reserve(p, x) && plan.rOut == Reserve(p, y) && q.amountIn == Some(plan.a)
      && (p.curve.Product? ==> plan.pricing == OnProduct)
      && (p.curve.Stable? ==>
            plan.pricing == OnStable(p.curve.amp, Scale(DecimalsOf(p, x)), Scale(DecimalsOf(p, y))))
  {
    hide Lower, NewAsset, Pow;
  }

  // Whether the host reports no fee at all for an output of more than one unit.
  predicate Feeless(reply: Reply) {
    && reply.lpShare == Some(0) && reply.nodeShare == Some(0) && reply.credit == Some(0)
    && reply.user.Some? && 1 < reply.user.value
  }

  function Unit(reply: Reply): nat {
    if Feeless(reply) then 1 else 0
  }

  // What a swap from x to y leaves behind of p: the host's input reserve, its output reserve
  // less its credit, the credit in the bucket of the output, and everything else as it was.
  predicate Swapped(p: P.Pool, p': P.Pool, x: string, y: string, reply: Reply) {
    && reply.newX.Some? && reply.newY.Some? && reply.credit.Some?
    && Reserve(p', x) == reply.newX.value && Reserve(p', y) == reply.newY.value - reply.credit.value
    && Bucket(p', x) == Bucket(p, x) && Bucket(p', y) == Bucket(p, y) + reply.credit.value + Unit(reply)
    && p' == p.(r0 := p'.r0, r1 := p'.r1, fee0 := p'.fee0, fee1 := p'.fee1)
  }

  // The referral's part: the basis-point share, rounded down, of what is paid out.
  function ReferralPart(q: SwapParams, reply: Reply): nat
    requires reply.user.Some?
  {
    if q.beneficiary.Some? && q.refBps.Some? && Unit(reply) <= reply.user.value
    then (reply.user.value - Unit(reply)) * q.refBps.value / 10000
    else 0
  }

  // Every accepted swap met the source's conditions, whatever the host answered.
  lemma SwapConditions(p: P.Pool, l: Ledger, env: Env, q: SwapParams, reply: Reply)
    requires p.name0 != p.name1 && Swap(p, l, env, q, reply).Some?
    ensures SwapRequest(p, env, q)
    ensures var d := Swap(p, l, env, q, reply).value;
      && 0 < q.amountIn.value && 2 * q.amountIn.value <= Reserve(p, Lower(q.assetIn))
      && 0 < Reserve(p, Lower(q.assetOut))
      && (q.minOut.Some? ==> q.minOut.value.Some? && q.minOut.value.value <= d.amount)
      && (q.beneficiary.Some? && q.refBps.Some? ==> q.refBps.value <= 10000)
    ensures p.curve.Stable? ==> reply.stable
  {
    PlanExact(p, env, q);
    hide MakePlan, SwapRequest, Reserve, Lower, OnCurve, SwapLedger, WithSwap;
  }

  lemma SwapState(p: P.Pool, l: Ledger, env: Env, q: SwapParams, reply: Reply)
    requires p.name0 != p.name1 && Swap(p, l, env, q, reply).Some?
    ensures var d := Swap(p, l, env, q, reply).value;
      && Swapped(p, d.pool, Lower(q.assetIn), Lower(q.assetOut), reply)
      && reply.user.Some? && d.amount + ReferralPart(q, reply) == reply.user.value - Unit(reply)
  {
    PlanExact(p, env, q);
    PlanFacts(p, env, q);
    var plan := MakePlan(p, env, q).value;
    DustExact(plan.pricing, plan.rIn, plan.rOut, plan.a, reply, Referral(q));
    SwapAmounts(plan, q, reply);
    hide MakePlan, Settle, Lower, SwapLedger, ReferralPart;
  }

  lemma SwapAmounts(plan: Plan, q: SwapParams, reply: Reply)
    requires PlanSettle(plan, q, reply).Some?
    ensures var s := PlanSettle(plan, q, reply).value;
      && Parsed(reply) && s.newIn == reply.newX.value && s.referral == ReferralPart(q, reply)
      && (q.beneficiary.None? ==> s.referral == 0)
  {
    hide OnCurve, ReplyAccepted;
  }

  // Every balance after a swap: the host moves nodeMove to the node runners, the input comes
  // from the payer unless the router brought it, the beneficiary and the recipient are paid
  // in the output asset, and no other account changes.
  lemma SwapBalances(p: P.Pool, l: Ledger, env: Env, q: SwapParams, reply: Reply)
    requires p.name0 != p.name1 && Swap(p, l, env, q, reply).Some?
    ensures Kept(p, Lower(q.assetIn)).Some? && Kept(p, Lower(q.assetOut)).Some? && q.amountIn.Some?
    ensures 0 < q.amountIn.value && reply.user.Some?
    ensures var d := Swap(p, l, env, q, reply).value; var me := "contract:" + env.self;
      var inA, outA := Kept(p, Lower(q.assetIn)).value, Kept(p, Lower(q.assetOut)).value;
      var drawn, ref := if q.preDeposited then 0 else q.amountIn.value, ReferralPart(q, reply);
      forall who, b ::
        Bal(d.ledger, who, b) == Bal(l, who, b)
        - At(who, b, me, Native(HBD), reply.nodeMove) + At(who, b, NODES, Native(HBD), reply.nodeMove)
        - At(who, b, q.from, inA, drawn) + At(who, b, me, inA, drawn)
        - At(who, b, me, outA, ref + d.amount) + At(who, b, q.to, outA, d.amount)
        + (if q.beneficiary.Some? then At(who, b, q.beneficiary.value, outA, ref) else 0)
  {
    PlanExact(p, env, q);
    var plan := MakePlan(p, env, q).value;
    var s := PlanSettle(plan, q, reply).value;
    SwapAmounts(plan, q, reply);
    SettleSum(plan.pricing, plan.rIn, plan.rOut, plan.a, reply, Referral(q));
    SwapLedgerBalances(l, env, q, plan.inA, plan.outA, reply.nodeMove, plan.a, s);
    hide MakePlan, Settle, Lower, SwapLedger, ReferralPart, Kept, Bal, WithSwap, SwapRequest;
  }

  // New reserves of x and y against the curve of the D of p's own reserves, each scaled to 18
  // decimals by its own asset's decimals: strictly above it with `more` normalized units of y.
  ghost predicate AboveOldCurve(p: P.Pool, x: string, y: string, newX: int, newY: int, more: nat)
    requires p.curve.Stable?
  {
    var sx, sy, amp := Scale(DecimalsOf(p, x)), Scale(DecimalsOf(p, y)), p.curve.amp;
    var d0 := GetD(Reserve(p, x) * sx, Reserve(p, y) * sy, amp);
    d0.Ok? && Invariant(newX * sx, newY * sy + more, amp, d0.value) < 0
  }

  // The stable law on the pool itself: what an accepted swap stores lies, with one more
  // normalized output unit, strictly above the curve of the D before it.
  lemma StableSwapSafe(p: P.Pool, l: Ledger, env: Env, q: SwapParams, reply: Reply)
    requires p.name0 != p.name1 && p.curve.Stable? && Swap(p, l, env, q, reply).Some?
    ensures p.curve.dec0 <= 18 && p.curve.dec1 <= 18
    ensures var p' := Swap(p, l, env, q, reply).value.pool; var x, y := Lower(q.assetIn), Lower(q.assetOut);
      AboveOldCurve(p, x, y, Reserve(p', x), Reserve(p', y), 1)
  {
    hide MakePlan, Settle, Lower, SwapLedger, Reserve, Bucket, GetD, Invariant, Pow, WithSwap, SwapRequest,
         AboveOldCurve;
    PlanExact(p, env, q);
    SwapState(p, l, env, q, reply);
    StableDecimals(p, env, q);
    StablePlanSafe(p, MakePlan(p, env, q).value, q, reply, Lower(q.assetIn), Lower(q.assetOut));
  }

  lemma StableDecimals(p: P.Pool, env: Env, q: SwapParams)
    requires SwapRequest(p, env, q) && p.curve.Stable?
    ensures p.curve.dec0 <= 18 && p.curve.dec1 <= 18
  {
    hide Lower, Kept;
  }

  lemma StablePlanSafe(p: P.Pool, plan: Plan, q: SwapParams, reply: Reply, x: string, y: string)
    requires p.curve.Stable? && PlanSettle(plan, q, reply).Some?
    requires plan.pricing == OnStable(p.curve.amp, Scale(DecimalsOf(p, x)), Scale(DecimalsOf(p, y)))
    requires plan.rIn == Reserve(p, x) && plan.rOut == Reserve(p, y)
    ensures Parsed(reply) && AboveOldCurve(p, x, y, reply.newX.value, reply.newY.value - reply.credit.value, 1)
  {
    hide Settle, GetD, Invariant, Scale, Reserve;
    StableSwapKeepsCurve(p.curve.amp, plan.pricing.rateIn, plan.pricing.rateOut, plan.rIn, plan.rOut, plan.a,
                         reply, Referral(q));
    DustExact(plan.pricing, plan.rIn, plan.rOut, plan.a, reply, Referral(q));
    SwapAmounts(plan, q, reply);
  }

  // The host's answer passes every check but the stable floor.
  predicate AnswerPasses(rIn: nat, rOut: nat, a: int, q: SwapParams, reply: Reply) {
    && 0 < rIn && 0 < rOut && 0 < a && 2 * a <= rIn
    && reply.user.Some? && reply.newX.Some? && reply.newY.Some? && reply.credit.Some?
    && reply.lpShare.Some? && reply.nodeShare.Some?
    && 0 < reply.user.value <= rOut - reply.newY.value && rIn <= reply.newX.value
    && 0 < reply.newY.value && 0 <= reply.credit.value <= reply.newY.value
    && (q.beneficiary.Some? && q.refBps.Some? ==> q.refBps.value <= 10000)
  }

  // The converse, at workable sizes: an answer priced on the stable curve that passes the
  // other checks and stores reserves strictly above the old curve is accepted, and with an
  // honest host a solvent pool serves it.
  lemma StableSwapAdmits(p: P.Pool, l: Ledger, env: Env, q: SwapParams, reply: Reply)
    requires p.name0 != p.name1 && p.curve.Stable? && ValidAmp(p.curve.amp) && SwapRequest(p, env, q)
    requires var x, y := Lower(q.assetIn), Lower(q.assetOut);
      && AnswerPasses(Reserve(p, x), Reserve(p, y), q.amountIn.value, q, reply) && reply.stable
      && Reserve(p, x) * Scale(DecimalsOf(p, x)) + Reserve(p, y) * Scale(DecimalsOf(p, y)) < Pow(2, 128)
      && AboveOldCurve(p, x, y, reply.newX.value, reply.newY.value - reply.credit.value, 0)
    ensures MakePlan(p, env, q).Some? && PlanSettle(MakePlan(p, env, q).value, q, reply).Some?
    ensures Solvent(p, l, env.self) && HonestReply(p, env, q, reply)
      && SlippageOk(q.minOut, reply.user.value - Unit(reply) - ReferralPart(q, reply))
      && (q.preDeposited || (q.amountIn.value <= Bal(l, env.caller, Kept(p, Lower(q.assetIn)).value)
                             && env.caller != Acct(env.self)))
      ==> Swap(p, l, env, q, reply).Some?
  {
    PlanExact(p, env, q);
    var plan := MakePlan(p, env, q).value;
    PowPositive(10, 18 - DecimalsOf(p, Lower(q.assetIn)));
    PowPositive(10, 18 - DecimalsOf(p, Lower(q.assetOut)));
    StableFloorAdmits(plan.pricing.amp, plan.pricing.rateIn, plan.pricing.rateOut, plan.rIn, plan.rOut,
                      reply.newX.value, reply.newY.value - reply.credit.value);
    StableAnswerSettles(plan, q, reply);
    hide MakePlan, Lower, Reserve, GetD, Invariant, Pow, SwapRequest, Swap, PlanSettle, HonestReply, Solvent, Kept;
    if Solvent(p, l, env.self) && HonestReply(p, env, q, reply)
      && SlippageOk(q.minOut, reply.user.value - Unit(reply) - ReferralPart(q, reply))
      && (q.preDeposited || (q.amountIn.value <= Bal(l, env.caller, Kept(p, Lower(q.assetIn)).value)
                             && env.caller != Acct(env.self)))
    {
      SwapCovered(p, l, env, q, reply);
    }
  }

  lemma StableAnswerSettles(plan: Plan, q: SwapParams, reply: Reply)
    requires plan.pricing.OnStable? && AnswerPasses(plan.rIn, plan.rOut, plan.a, q, reply) && reply.stable
    requires OnCurve(plan.pricing, plan.rIn, plan.rOut, reply.newX.value, reply.newY.value - reply.credit.value)
    ensures PlanSettle(plan, q, reply).Some?
    ensures PlanSettle(plan, q, reply).value.user == reply.user.value - Unit(reply) - ReferralPart(q, reply)
  {
    hide OnCurve;
  }

  // ------------------------------------------------------------------ a deposit

  // What the source asks of a deposit, apart from the funds.
  predicate DepositRequest(p: P.Pool, env: Env, q: AddParams) {
    && q.amt0.Some? && q.amt1.Some? && 0 < q.amt0.value && 0 < q.amt1.value
    && q.recipient != "" && Addressable(env, q.recipient)
    && Kept(p, p.name0).Some? && Kept(p, p.name1).Some?
    && (q.pre0 || q.pre1 ==> ViaRouter(p, env))
    && (p.totalLp != 0 ==>
          0 < p.r0 <= q.amt0.value * p.totalLp && 0 < p.r1 <= q.amt1.value * p.totalLp)
  }

  // m is what a deposit may mint: the rounded-down geometric mean for the first, later the
  // largest number in proportion to both reserves.
  predicate MintedFor(p: P.Pool, n0: nat, n1: nat, m: nat) {
    if p.totalLp == 0 then m * m <= n0 * n1 < (m + 1) * (m + 1)
    else
      && m * p.r0 <= n0 * p.totalLp && m * p.r1 <= n1 * p.totalLp
      && (n0 * p.totalLp < (m + 1) * p.r0 || n1 * p.totalLp < (m + 1) * p.r1)
  }

  // The recipient named in the request, and nobody else, gets the shares minted; the reserves
  // grow by the amounts and nothing else changes.
  lemma DepositState(p: P.Pool, l: Ledger, env: Env, q: AddParams)
    requires p.name0 != p.name1 && AddLiquidity(p, l, env, q).Some?
    ensures DepositRequest(p, env, q)
    ensures var d := AddLiquidity(p, l, env, q).value;
      && 0 < d.amount && MintedFor(p, q.amt0.value, q.amt1.value, d.amount)
      && (q.minLp.Some? ==> q.minLp.value.Some? && q.minLp.value.value <= d.amount)
      && (forall who :: Lp(d.pool, who) == Lp(p, who) + (if who == q.recipient then d.amount else 0))
      && d.pool.totalLp == p.totalLp + d.amount
      && d.pool.r0 == p.r0 + q.amt0.value && d.pool.r1 == p.r1 + q.amt1.value
      && d.pool == p.(r0 := d.pool.r0, r1 := d.pool.r1, totalLp := d.pool.totalLp, lp := d.pool.lp)
  {
    MintExact(p, q.amt0.value, q.amt1.value);
    MintPositive(p, q.amt0.value, q.amt1.value);
    hide NewAsset, Draw, Minted, Sqrt;
  }

  // A deposit mints something exactly when neither side rounds to nothing.
  lemma MintPositive(p: P.Pool, n0: nat, n1: nat)
    requires 0 < n0 && 0 < n1
    ensures Minted(p, n0, n1).Some? && 0 < Minted(p, n0, n1).value <==>
      (p.totalLp != 0 ==> 0 < p.r0 <= n0 * p.totalLp && 0 < p.r1 <= n1 * p.totalLp)
  {
    if p.totalLp == 0 {
      ProductLe(1, n0, 1, n1);
      assert Sqrt(n0 * n1) != 0;
    } else if p.r0 != 0 && p.r1 != 0 {
      QuotientPositive(n0 * p.totalLp, p.r0);
      QuotientPositive(n1 * p.totalLp, p.r1);
    }
  }

  lemma QuotientPositive(n: nat, d: nat)
    requires 0 < d
    ensures 0 < n / d <==> d <= n
  {
    DivBounds(n, d);
    if d <= n { CancelLt(0, n / d + 1, d); }
  }

  // A deposit succeeds exactly when the request is in order, the caller holds what the router
  // has not brought, and the minimum is met.
  lemma DepositAdmits(p: P.Pool, l: Ledger, env: Env, q: AddParams)
    requires Readable(p) && p.name0 != p.name1
    ensures AddLiquidity(p, l, env, q).Some? <==>
      && DepositRequest(p, env, q)
      && (q.pre0 || q.amt0.value <= Bal(l, env.caller, Kept(p, p.name0).value))
      && (q.pre1 || q.amt1.value <= Bal(l, env.caller, Kept(p, p.name1).value))
      && (q.minLp.Some? ==>
            q.minLp.value.Some? && q.minLp.value.value <= Minted(p, q.amt0.value, q.amt1.value).value)
  {
    if q.amt0.Some? && q.amt1.Some? && 0 < q.amt0.value && 0 < q.amt1.value {
      MintPositive(p, q.amt0.value, q.amt1.value);
      var a0, a1 := Asset0(p).value, Asset1(p).value;
      MoveBalances(l, env.caller, Acct(env.self), a0, q.amt0.value);
      var l1 := Draw(l, env, q.pre0, a0, q.amt0.value);
      if l1.Some? { MoveBalances(l1.value, env.caller, Acct(env.self), a1, q.amt1.value); }
    }
    hide NewAsset, Move, Minted, Bal, Acct;
  }

  lemma DepositBalances(p: P.Pool, l: Ledger, env: Env, q: AddParams)
    requires Readable(p) && p.name0 != p.name1 && AddLiquidity(p, l, env, q).Some?
    ensures q.amt0.Some? && q.amt1.Some? && 0 < q.amt0.value && 0 < q.amt1.value
    ensures Kept(p, p.name0).Some? && Kept(p, p.name1).Some?
    ensures var d := AddLiquidity(p, l, env, q).value; var me := "contract:" + env.self;
      var n0, n1 := if q.pre0 then 0 else q.amt0.value, if q.pre1 then 0 else q.amt1.value;
      forall who, b ::
        Bal(d.ledger, who, b) == Bal(l, who, b)
        - At(who, b, env.caller, Kept(p, p.name0).value, n0) + At(who, b, me, Kept(p, p.name0).value, n0)
        - At(who, b, env.caller, Kept(p, p.name1).value, n1) + At(who, b, me, Kept(p, p.name1).value, n1)
  {
    AddFacts(p, l, env, q);
    hide AddLiquidity, NewAsset, Bal;
  }

  // ------------------------------------------------------------------ a withdrawal

  predicate WithdrawalRequest(p: P.Pool, env: Env, q: RemoveParams) {
    && q.lpAmount.Some? && q.recipient != "" && Addressable(env, q.recipient)
    && (env.caller == q.recipient || ViaRouter(p, env))
    && 0 < q.lpAmount.value <= p.totalLp && q.lpAmount.value <= Lp(p, q.recipient)
  }

  // The shares of the recipient named in the request, and of nobody else, are burned; each
  // reserve falls by its share, rounded down, and nothing else changes.
  lemma WithdrawalState(p: P.Pool, l: Ledger, env: Env, q: RemoveParams)
    requires RemoveLiquidity(p, l, env, q).Some?
    ensures WithdrawalRequest(p, env, q)
    ensures var d := RemoveLiquidity(p, l, env, q).value; var n := q.lpAmount.value;
      && d.amount == n && d.pool.totalLp == p.totalLp - n
      && (forall who :: Lp(d.pool, who) == Lp(p, who) - (if who == q.recipient then n else 0))
      && d.pool.r0 <= p.r0 && d.pool.r1 <= p.r1
      && (p.r0 - d.pool.r0) * p.totalLp <= p.r0 * n < (p.r0 - d.pool.r0 + 1) * p.totalLp
      && (p.r1 - d.pool.r1) * p.totalLp <= p.r1 * n < (p.r1 - d.pool.r1 + 1) * p.totalLp
      && d.pool == p.(r0 := d.pool.r0, r1 := d.pool.r1, totalLp := d.pool.totalLp, lp := d.pool.lp)
  {
    hide NewAsset, Pay;
    ShareBound(p.r0, q.lpAmount.value, p.totalLp);
    ShareBound(p.r1, q.lpAmount.value, p.totalLp);
    DivBounds(p.r0 * q.lpAmount.value, p.totalLp);
    DivBounds(p.r1 * q.lpAmount.value, p.totalLp);
  }

  // The ledger of a withdrawal: what the reserves lose, the recipient gains, out of the
  // pool's account; no other account changes.
  lemma WithdrawalBalances(p: P.Pool, l: Ledger, env: Env, q: RemoveParams)
    requires p.name0 != p.name1 && RemoveLiquidity(p, l, env, q).Some?
    ensures Kept(p, p.name0).Some? && Kept(p, p.name1).Some?
    ensures var d := RemoveLiquidity(p, l, env, q).value; var me := "contract:" + env.self;
      d.pool.r0 <= p.r0 && d.pool.r1 <= p.r1 &&
      forall who, b ::
        Bal(d.ledger, who, b) == Bal(l, who, b)
        - At(who, b, me, Kept(p, p.name0).value, p.r0 - d.pool.r0)
        + At(who, b, q.recipient, Kept(p, p.name0).value, p.r0 - d.pool.r0)
        - At(who, b, me, Kept(p, p.name1).value, p.r1 - d.pool.r1)
        + At(who, b, q.recipient, Kept(p, p.name1).value, p.r1 - d.pool.r1)
  {
    hide Pay, Bal, NewAsset, Share;
    var lp, me := q.lpAmount.value, Acct(env.self);
    var s0, s1 := Share(p.r0, lp, p.totalLp), Share(p.r1, lp, p.totalLp);
    ShareBound(p.r0, lp, p.totalLp);
    ShareBound(p.r1, lp, p.totalLp);
    var l1 := Pay(l, me, q.recipient, Asset0(p).value, s0).value;
    PayBalances(l, me, q.recipient, Asset0(p).value, s0);
    PayBalances(l1, me, q.recipient, Asset1(p).value, s1);
  }

  lemma WithdrawalAdmits(p: P.Pool, l: Ledger, env: Env, q: RemoveParams)
    requires Solvent(p, l, env.self)
    ensures RemoveLiquidity(p, l, env, q).Some? <==> WithdrawalRequest(p, env, q)
  {
    RemoveCovered(p, l, env, q);
    hide RemoveLiquidity, Solvent;
  }

  // ------------------------------------------------------------------ a fee claim

  // Both buckets are emptied and nothing else changes; a native fee leaves the chain, a mapped
  // one goes to the contract's owner, who alone may claim.
  lemma ClaimExact(p: P.Pool, l: Ledger, env: Env)
    requires Readable(p) && p.name0 != p.name1 && ClaimFees(p, l, env).Some?
    ensures env.owner == Some(env.caller) && env.caller != "" && env.stamp.Some?
    ensures Kept(p, p.name0).Some? && Kept(p, p.name1).Some?
    ensures ClaimFees(p, l, env).value.pool == p.(fee0 := 0, fee1 := 0)
    ensures var d := ClaimFees(p, l, env).value; var me := "contract:" + env.self;
      var a0, a1 := Kept(p, p.name0).value, Kept(p, p.name1).value;
      forall who, b ::
        Bal(d.ledger, who, b) == Bal(l, who, b)
        - At(who, b, me, a0, p.fee0) + (if a0.Mapped? then At(who, b, env.caller, a0, p.fee0) else 0)
        - At(who, b, me, a1, p.fee1) + (if a1.Mapped? then At(who, b, env.caller, a1, p.fee1) else 0)
  {
    ClaimFacts(p, l, env);
    hide PayFee, NewAsset, Bal;
  }

  // ------------------------------------------------------------------ an opening

  // What the source asks of an opening, in the fields of the request as it came.
  predicate OpeningRequest(p: P.Pool, env: Env, q: InitParams) {
    && env.owner == Some(env.caller) && p.version == "" && env.stamp.Some?
    && Lower(q.asset0) != Lower(q.asset1)
    && (q.map0 != "" ==> env.kind("contract:" + q.map0) == "contract")
    && (q.map1 != "" ==> env.kind("contract:" + q.map1) == "contract")
    && (Lower(q.asset0) in HIVE_ASSETS || q.map0 != "") && (Lower(q.asset1) in HIVE_ASSETS || q.map1 != "")
    && q.feeBps <= 10000 && q.router != "" && env.kind("contract:" + q.router) == "contract"
    && (q.curve == "" || (
          && q.curve == "stable" && 1 <= q.amp <= 10000
          && q.dec0.Some? && q.dec0.value <= 18 && q.dec1.Some? && q.dec1.value <= 18))
  }

  // In whichever order the request names them, each asset keeps the mapping contract and the
  // decimals given with it; the names end in byte order.
  lemma OpeningExact(p: P.Pool, env: Env, q: InitParams)
    ensures Init(p, env, q).Some? <==> OpeningRequest(p, env, q)
    ensures Init(p, env, q).Some? ==>
      var d := Init(p, env, q).value; var x, y := Lower(q.asset0), Lower(q.asset1);
      && Pairs(d, x, y) && Less(d.name0, d.name1)
      && Holding(d, x) == Some((q.map0, 0, 0)) && Holding(d, y) == Some((q.map1, 0, 0))
      && (q.curve == "" ==> d.curve == p.curve)
      && (q.curve == "stable" ==>
            && d.curve.Stable? && d.curve.amp == q.amp
            && DecimalsOf(d, x) == q.dec0.value && DecimalsOf(d, y) == q.dec1.value)
      && d.totalLp == 0 && d.lp == p.lp && d.router == q.router && d.version == "4"
  {
    LowerTwice(q.asset0);
    LowerTwice(q.asset1);
    LessTotal(Lower(q.asset0), Lower(q.asset1));
    hide Less, Lower;
  }
}
