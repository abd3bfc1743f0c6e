/** The pool contract over values: what each entry point does to the pool's state and to
    the ledger. None is an abort, which undoes the whole call. */
module Pool {
  import opened Text
  import opened Bank
  import opened Newton
  import opened StableSwap

  datatype Curve = Product | Stable(amp: int, dec0: nat, dec1: nat) | Unreadable

  datatype Pool = Pool(name0: string, name1: string, map0: string, map1: string,
                       r0: nat, r1: nat, fee0: nat, fee1: nat,
                       totalLp: nat, lp: map<string, nat>, router: string, curve: Curve, version: string)

  // kind is the host's VerifyAddress; stamp is the block time, if it can be parsed.
  datatype Env = Env(caller: string, self: string, owner: Option<string>, stamp: Option<string>,
                     kind: string -> string)

  function Lp(p: Pool, who: string): nat {
    if who in p.lp then p.lp[who] else 0
  }

  function Asset0(p: Pool): Option<AssetId> { NewAsset(p.name0, p.map0) }

  function Asset1(p: Pool): Option<AssetId> { NewAsset(p.name1, p.map1) }

  predicate FromRouter(p: Pool, env: Env) {
    p.router != "" && env.caller == Acct(p.router)
  }

  // ------------------------------------------------------------------ swap arithmetic

  // The host's answer to a swap: amounts that may fail to parse, and the HBD it moves
  // from the pool's account to the node runners.
  datatype Reply = Reply(user: Option<int>, newX: Option<int>, newY: Option<int>, credit: Option<int>,
                         lpShare: Option<int>, nodeShare: Option<int>, stable: bool, nodeMove: nat)

  // The curve seen from one direction.
  datatype Pricing = OnProduct | OnStable(amp: int, rateIn: int, rateOut: int)

  function Orient(c: Curve, inIs0: bool): Option<Pricing> {
    match c
    case Product => Some(OnProduct)
    case Unreadable => None
    case Stable(amp, dec0, dec1) =>
      var rate0, rate1 := Rate(dec0), Rate(dec1);
      if rate0.Err? || rate1.Err? then None
      else if inIs0 then Some(OnStable(amp, rate0.value, rate1.value))
      else Some(OnStable(amp, rate1.value, rate0.value))
  }

  // What one accepted swap stores and pays: the two reserves, the fee-bucket credit, the
  // referral payment and the user's payment.
  datatype Settlement = Settlement(newIn: nat, newOut: nat, credit: nat, referral: nat, user: nat)

  predicate Parsed(reply: Reply) {
    reply.user.Some? && reply.newX.Some? && reply.newY.Some? && reply.credit.Some?
    && reply.lpShare.Some? && reply.nodeShare.Some?
  }

  // The checks on the reply itself, before anything is computed from it.
  predicate ReplyAccepted(pricing: Pricing, rIn: nat, rOut: nat, a: int, reply: Reply)
    requires Parsed(reply) && 0 < rIn + a
  {
    && 0 < reply.user.value
    && 0 < reply.newX.value && 0 < reply.newY.value && 0 <= reply.credit.value
    && rIn <= reply.newX.value
    && (if pricing.OnProduct? then rIn * rOut / (rIn + a) <= reply.newY.value else reply.stable)
    && reply.user.value <= rOut - reply.newY.value
  }

  predicate Dust(reply: Reply)
    requires Parsed(reply)
  {
    reply.lpShare.value == 0 && reply.nodeShare.value == 0 && reply.credit.value == 0 && 1 < reply.user.value
  }

  // The stable floor, checked on the reserves that are stored.
  predicate OnCurve(pricing: Pricing, rIn: nat, rOut: nat, newIn: int, newOut: int) {
    pricing.OnStable? ==>
      var floor := FloorY(newIn, rIn, rOut, pricing.rateIn, pricing.rateOut, pricing.amp);
      floor.Ok? && floor.value <= newOut * pricing.rateOut
  }

  // The referral's part of the output, in basis points.
  function Cut(out: nat, bps: nat): (cut: nat)
    requires bps <= 10000
    ensures cut <= out
  {
    CutBound(out, bps);
    out * bps / 10000
  }

  lemma CutBound(out: nat, bps: nat)
    requires bps <= 10000
    ensures 0 <= out * bps / 10000 <= out
  {
    assert 0 <= out * bps;
    MulLe(bps, 10000, out);
  }

  function Settle(pricing: Pricing, rIn: nat, rOut: nat, a: int, reply: Reply,
                  refBps: Option<nat>): Option<Settlement> {
    if rIn == 0 || rOut == 0 || a <= 0 || rIn / 2 < a || !Parsed(reply) then None
    else if !ReplyAccepted(pricing, rIn, rOut, a, reply) then None
    else if refBps.Some? && 10000 < refBps.value then None
    else
      var dust := if Dust(reply) then 1 else 0;
      var out := reply.user.value - dust;
      var credit := reply.credit.value + dust;
      var newOut := reply.newY.value + dust - credit;
      var referral := Cut(out, if refBps.Some? then refBps.value else 0);
      if newOut < 0 || !OnCurve(pricing, rIn, rOut, reply.newX.value, newOut) then None
      else Some(Settlement(reply.newX.value, newOut, credit, referral, out - referral))
  }

  // ------------------------------------------------------------------ entry points

  datatype SwapParams = SwapParams(assetIn: string, assetOut: string, amountIn: Option<int>,
                                   minOut: Option<Option<int>>, from: string, to: string,
                                   beneficiary: Option<string>, refBps: Option<nat>, preDeposited: bool)

  datatype Done = Done(pool: Pool, ledger: Ledger, amount: nat)

  // Some(true) when asset0 goes in, Some(false) when asset1 does.
  function Direction(p: Pool, assetIn: string, assetOut: string): Option<bool> {
    if p.name0 == assetIn && p.name1 == assetOut then Some(true)
    else if p.name1 == assetIn && p.name0 == assetOut then Some(false)
    else None
  }

  function WithSwap(p: Pool, inIs0: bool, s: Settlement): Pool {
    if inIs0 then p.(r0 := s.newIn, r1 := s.newOut, fee1 := p.fee1 + s.credit)
    else p.(r1 := s.newIn, r0 := s.newOut, fee0 := p.fee0 + s.credit)
  }

  function Referral(q: SwapParams): Option<nat> {
    if q.beneficiary.Some? then q.refBps else None
  }

  predicate SwapAllowed(p: Pool, env: Env, q: SwapParams) {
    && q.assetIn != "" && q.assetOut != "" && q.to != ""
    && env.kind(q.to) != "unknown" && env.kind(q.from) != "unknown"
    && (if q.preDeposited then FromRouter(p, env) else q.from == env.caller)
    && (Referral(q).Some? ==> env.kind(q.beneficiary.value) != "unknown")
  }

  predicate SlippageOk(minimum: Option<Option<int>>, amount: int) {
    minimum.Some? ==> minimum.value.Some? && minimum.value.value <= amount
  }

  // A transfer of nothing is skipped.
  function Pay(l: Ledger, from: string, to: string, a: AssetId, n: nat): Option<Ledger> {
    if n == 0 then Some(l) else Move(l, from, to, a, n)
  }

  // The ledger side of a swap: the host takes the node share, the input comes in unless the
  // router brought it, the referral and the user are paid.
  function SwapLedger(l: Ledger, env: Env, q: SwapParams, inA: AssetId, outA: AssetId, nodeMove: nat, a: int,
                      s: Settlement): Option<Ledger> {
    var me := Acct(env.self);
    if a < 0 then None else
    var l1 := Move(l, me, NODES, Native(HBD), nodeMove);
    if l1.None? then None else
    var l2 := if q.preDeposited then l1 else Move(l1.value, q.from, me, inA, a);
    if l2.None? then None else
    var l3 := if q.beneficiary.Some? then Pay(l2.value, me, q.beneficiary.value, outA, s.referral) else l2;
    if l3.None? then None else
    Move(l3.value, me, q.to, outA, s.user)
  }

  // What a swap works on once its request is accepted.
  datatype Plan = Plan(inIs0: bool, inA: AssetId, outA: AssetId, pricing: Pricing, rIn: nat, rOut: nat, a: int)

  function MakePlan(p: Pool, env: Env, q: SwapParams): Option<Plan> {
    var dir := Direction(p, Lower(q.assetIn), Lower(q.assetOut));
    var asset0, asset1 := Asset0(p), Asset1(p);
    if !SwapAllowed(p, env, q) || dir.None? || asset0.None? || asset1.None? || q.amountIn.None? then None
    else
      var pricing := Orient(p.curve, dir.value);
      if pricing.None? then None
      else if dir.value then Some(Plan(true, asset0.value, asset1.value, pricing.value, p.r0, p.r1, q.amountIn.value))
      else Some(Plan(false, asset1.value, asset0.value, pricing.value, p.r1, p.r0, q.amountIn.value))
  }

  function PlanSettle(plan: Plan, q: SwapParams, reply: Reply): Option<Settlement> {
    Settle(plan.pricing, plan.rIn, plan.rOut, plan.a, reply, Referral(q))
  }

  function Swap(p: Pool, l: Ledger, env: Env, q: SwapParams, reply: Reply): Option<Done> {
    var plan := MakePlan(p, env, q);
    if plan.None? then None else
    var s := PlanSettle(plan.value, q, reply);
    if s.None? || !SlippageOk(q.minOut, s.value.user) then None else
    var l' := SwapLedger(l, env, q, plan.value.inA, plan.value.outA, reply.nodeMove, plan.value.a, s.value);
    if l'.None? then None else Some(Done(WithSwap(p, plan.value.inIs0, s.value), l'.value, s.value.user))
  }

  // big.Int.Sqrt.
  function Sqrt(n: nat): (s: nat)
    ensures s * s <= n < (s + 1) * (s + 1)
  {
    SqrtDown(n, n)
  }

  function SqrtDown(n: nat, m: nat): (s: nat)
    requires n < (m + 1) * (m + 1)
    ensures s * s <= n < (s + 1) * (s + 1)
  {
    if m * m <= n then m else SqrtDown(n, m - 1)
  }

  datatype AddParams = AddParams(amt0: Option<int>, amt1: Option<int>, recipient: string,
                                 minLp: Option<Option<int>>, pre0: bool, pre1: bool)

  // LP minted for a deposit; a division by a zero reserve aborts.
  function Minted(p: Pool, amt0: nat, amt1: nat): Option<nat> {
    if p.totalLp == 0 then Some(Sqrt(amt0 * amt1))
    else if p.r0 == 0 || p.r1 == 0 then None
    else Some(Min(Proportion(amt0, p.totalLp, p.r0), Proportion(amt1, p.totalLp, p.r1)))
  }

  function Min(m: nat, n: nat): nat {
    if n < m then n else m
  }

  function Proportion(amt: nat, total: nat, reserve: nat): nat
    requires 0 < reserve
  {
    amt * total / reserve
  }

  function WithAdd(p: Pool, amt0: nat, amt1: nat, who: string, minted: nat): Pool {
    p.(r0 := p.r0 + amt0, r1 := p.r1 + amt1, totalLp := p.totalLp + minted, lp := p.lp[who := Lp(p, who) + minted])
  }

  function Draw(l: Ledger, env: Env, pre: bool, a: AssetId, n: nat): Option<Ledger> {
    if pre then Some(l) else Move(l, env.caller, Acct(env.self), a, n)
  }

  function AddLiquidity(p: Pool, l: Ledger, env: Env, q: AddParams): Option<Done> {
    if q.amt0.None? || q.amt1.None? || q.amt0.value <= 0 || q.amt1.value <= 0 || q.recipient == ""
      || env.kind(q.recipient) == "unknown" || Asset0(p).None? || Asset1(p).None?
      || ((q.pre0 || q.pre1) && !FromRouter(p, env)) then None
    else
      var l1 := Draw(l, env, q.pre0, Asset0(p).value, q.amt0.value);
      var l2 := if l1.None? then None else Draw(l1.value, env, q.pre1, Asset1(p).value, q.amt1.value);
      var m := Minted(p, q.amt0.value, q.amt1.value);
      if l2.None? || m.None? || m.value == 0 || !SlippageOk(q.minLp, m.value) then None
      else Some(Done(WithAdd(p, q.amt0.value, q.amt1.value, q.recipient, m.value), l2.value, m.value))
  }

  datatype RemoveParams = RemoveParams(lpAmount: Option<int>, recipient: string)

  function Share(reserve: nat, lp: nat, total: nat): nat
    requires 0 < total
  {
    reserve * lp / total
  }

  lemma ShareBound(reserve: nat, lp: nat, total: nat)
    requires 0 < total && lp <= total
    ensures Share(reserve, lp, total) <= reserve
    ensures lp == total ==> Share(reserve, lp, total) == reserve
    ensures lp < total && 0 < reserve ==> Share(reserve, lp, total) < reserve
  {
    DivBounds(reserve * lp, total);
    ShareOf(reserve, lp, total, Share(reserve, lp, total));
  }

  lemma ShareOf(reserve: nat, lp: nat, total: nat, s: int)
    requires 0 < total && lp <= total && s * total <= reserve * lp < (s + 1) * total
    ensures s <= reserve
    ensures lp == total ==> s == reserve
    ensures lp < total && 0 < reserve ==> s < reserve
  {
    MulLe(lp, total, reserve);
    CancelLe(s, reserve, total);
    if lp == total {
      CancelLt(reserve, s + 1, total);
    } else if 0 < reserve {
      MulLe(lp + 1, total, reserve);
      CancelLt(s, reserve, total);
    }
  }

  function WithRemove(p: Pool, who: string, lp: nat): Pool
    requires 0 < lp <= p.totalLp && lp <= Lp(p, who)
  {
    ShareBound(p.r0, lp, p.totalLp);
    ShareBound(p.r1, lp, p.totalLp);
    p.(r0 := p.r0 - Share(p.r0, lp, p.totalLp), r1 := p.r1 - Share(p.r1, lp, p.totalLp),
       totalLp := p.totalLp - lp, lp := p.lp[who := Lp(p, who) - lp])
  }

  predicate MayRemove(p: Pool, env: Env, q: RemoveParams) {
    && q.lpAmount.Some? && q.recipient != "" && env.kind(q.recipient) != "unknown"
    && (env.caller == q.recipient || FromRouter(p, env))
    && 0 < q.lpAmount.value <= p.totalLp && q.lpAmount.value <= Lp(p, q.recipient)
  }

  function RemoveLiquidity(p: Pool, l: Ledger, env: Env, q: RemoveParams): Option<Done> {
    if !MayRemove(p, env, q) || Asset0(p).None? || Asset1(p).None? then None
    else
      var lp := q.lpAmount.value;
      var me := Acct(env.self);
      var l1 := Pay(l, me, q.recipient, Asset0(p).value, Share(p.r0, lp, p.totalLp));
      var l2 := if l1.None? then None else Pay(l1.value, me, q.recipient, Asset1(p).value, Share(p.r1, lp, p.totalLp));
      if l2.None? then None else Some(Done(WithRemove(p, q.recipient, lp), l2.value, lp))
  }

  // A fee in a native asset leaves the chain, one in a mapped asset goes to the owner.
  function PayFee(l: Ledger, env: Env, owner: string, a: Option<AssetId>, fee: nat): Option<Ledger> {
    if fee == 0 then Some(l)
    else if a.None? then None
    else if a.value.Native? then Burn(l, Acct(env.self), a.value, fee)
    else Move(l, Acct(env.self), owner, a.value, fee)
  }

  function ClaimFees(p: Pool, l: Ledger, env: Env): Option<Done> {
    if env.owner.None? || env.owner.value == "" || env.caller != env.owner.value || env.stamp.None? then None
    else
      var owner := env.owner.value;
      var l1 := PayFee(l, env, owner, Asset0(p), p.fee0);
      var l2 := if l1.None? then None else PayFee(l1.value, env, owner, Asset1(p), p.fee1);
      if l2.None? then None else Some(Done(p.(fee0 := 0, fee1 := 0), l2.value, 0))
  }

  datatype InitParams = InitParams(asset0: string, asset1: string, feeBps: nat, map0: string, map1: string,
                                   router: string, curve: string, amp: nat, dec0: Option<nat>, dec1: Option<nat>)

  predicate ContractId(env: Env, id: string) {
    env.kind(Acct(id)) == "contract"
  }

  function InitCurve(q: InitParams): Option<Curve> {
    if q.curve == "" then Some(Product)
    else if q.curve != "stable" || !ValidAmp(q.amp) then None
    else if q.dec0.None? || PRECISION_DECIMALS < q.dec0.value then None
    else if q.dec1.None? || PRECISION_DECIMALS < q.dec1.value then None
    else Some(Stable(q.amp, q.dec0.value, q.dec1.value))
  }

  // The parameters with names in lower case and in byte order.
  function Ordered(q: InitParams): InitParams {
    var n := q.(asset0 := Lower(q.asset0), asset1 := Lower(q.asset1));
    if Less(n.asset1, n.asset0) then
      n.(asset0 := n.asset1, asset1 := n.asset0, map0 := n.map1, map1 := n.map0, dec0 := n.dec1, dec1 := n.dec0)
    else n
  }

  const VERSION := "4"
  const DEFAULT_BASE_FEE_BPS: nat := 8

  // Opens a pool on a store that holds p. LP entries and curve keys that are already there
  // are not cleared; a newly deployed store has none.
  function Init(p: Pool, env: Env, q: InitParams): Option<Pool> {
    var o := Ordered(q);
    if env.owner.None? || env.caller != env.owner.value || p.version != "" || o.asset0 == o.asset1
      || (o.map0 != "" && !ContractId(env, o.map0)) || (o.map1 != "" && !ContractId(env, o.map1))
      || NewAsset(o.asset0, o.map0).None? || NewAsset(o.asset1, o.map1).None?
      || 10000 < o.feeBps || InitCurve(o).None? || env.stamp.None?
      || o.router == "" || !ContractId(env, o.router) then None
    else
      var curve := if o.curve == "" then p.curve else InitCurve(o).value;
      Some(Pool(o.asset0, o.asset1, o.map0, o.map1, 0, 0, 0, 0, 0, p.lp, o.router, curve, VERSION))
  }
}
