/** Whole runs: any interleaving of router calls, direct pool calls, transfers, deployments
    and registrations, with the fee host honest. */
module Systems {
  import opened Text
  import opened Newton
  import opened Bank
  import opened P = Pool
  import PS = PoolStore
  import M = Migration
  import opened PoolCalls
  import opened SwapProperties
  import opened Liquidity
  import opened Solvency
  import opened Registry
  import opened Routing
  import opened RouterProperties
  import opened Worlds

  // ------------------------------------------------------------------ one pool's state

  // Shares add up after every call, whatever the fee host answers.
  lemma StepShares(p: P.Pool, l: Ledger, c: Call)
    requires SharesAddUp(p) && Step(p, l, c).Some?
    ensures SharesAddUp(Step(p, l, c).value.pool)
  {
    hide Move, SwapLedger, PayFee, Total, NewAsset, OnCurve, Orient, Draw, Pay, Share, Minted;
    match c
    case SwapCall(env, q, reply) =>
      PlanFacts(p, env, q);
      hide MakePlan;
    case AddCall(env, q) => AddKeeps(p, q.amt0.value, q.amt1.value, q.recipient);
    case RemoveCall(env, q) => RemoveKeeps(p, q.recipient, q.lpAmount.value);
    case ClaimCall(env) =>
  }

  // Constant-product pools stay backed: the supply never exceeds the geometric mean of the
  // reserves. On a stable pool nothing is claimed here.
  ghost predicate Good(p: P.Pool, router: string) {
    Readable(p) && SharesAddUp(p) && (p.curve.Product? ==> Backed(p)) && p.router == router
  }

  lemma StepGood(p: P.Pool, l: Ledger, c: Call, router: string)
    requires Good(p, router) && HonestCall(p, c) && Step(p, l, c).Some?
    ensures Good(Step(p, l, c).value.pool, router)
  {
    StepShares(p, l, c);
    StepKeepsNames(p, l, c);
    if p.curve.Product? { StepBacked(p, l, c); }
    hide Step, SharesAddUp, Backed, NewAsset;
  }

  lemma StepBacked(p: P.Pool, l: Ledger, c: Call)
    requires SharesAddUp(p) && Backed(p) && p.curve.Product? && HonestCall(p, c) && Step(p, l, c).Some?
    ensures Backed(Step(p, l, c).value.pool)
  {
    hide Move, SwapLedger, PayFee, Total, NewAsset, Draw, Pay, Share, Minted, Backed;
    match c
    case SwapCall(env, q, reply) => SwapBacked(p, l, env, q, reply);
    case AddCall(env, q) => AddKeeps(p, q.amt0.value, q.amt1.value, q.recipient);
    case RemoveCall(env, q) => RemoveKeeps(p, q.recipient, q.lpAmount.value);
    case ClaimCall(env) => BackedSame(p, p.(fee0 := 0, fee1 := 0));
  }

  lemma BackedSame(p: P.Pool, p': P.Pool)
    requires Backed(p) && p.r0 == p'.r0 && p.r1 == p'.r1 && p.totalLp == p'.totalLp
    ensures Backed(p')
  {
  }

  lemma SwapBacked(p: P.Pool, l: Ledger, env: Env, q: SwapParams, reply: Reply)
    requires Backed(p) && p.curve.Product? && HonestReply(p, env, q, reply) && Swap(p, l, env, q, reply).Some?
    ensures Backed(Swap(p, l, env, q, reply).value.pool)
  {
    var plan := MakePlan(p, env, q).value;
    var s := PlanSettle(plan, q, reply).value;
    PlanFacts(p, env, q);
    SettledAccepted(plan, q, reply);
    HonestSwapAccepted(plan.rIn, plan.rOut, plan.a, plan.outA == Native(HBD), reply, Referral(q));
    hide MakePlan, Settle, SwapLedger, Honest, Accounted, PlanSettle;
    ProductSides(p, plan, s);
  }

  lemma SettledAccepted(plan: Plan, q: SwapParams, reply: Reply)
    requires PlanSettle(plan, q, reply).Some?
    ensures 0 < plan.rIn && 0 < plan.rOut && 0 < plan.a <= plan.rIn / 2
    ensures Referral(q).Some? ==> Referral(q).value <= 10000
    ensures Parsed(reply) && 0 < reply.user.value
  {
    hide OnCurve;
  }

  lemma ProductSides(p: P.Pool, plan: Plan, s: Settlement)
    requires Backed(p) && plan.rIn * plan.rOut <= s.newIn * s.newOut
    requires plan.rIn == (if plan.inIs0 then p.r0 else p.r1) && plan.rOut == (if plan.inIs0 then p.r1 else p.r0)
    ensures Backed(WithSwap(p, plan.inIs0, s))
  {
  }

  // On a solvent constant-product pool an honest swap within the input cap succeeds exactly
  // when the user gets the minimum asked for; the caller only has to hold the input.
  lemma HonestSwapSucceeds(p: P.Pool, l: Ledger, env: Env, q: SwapParams, reply: Reply)
    requires Solvent(p, l, env.self) && p.curve.Product? && HonestReply(p, env, q, reply) && MakePlan(p, env, q).Some?
    requires var plan := MakePlan(p, env, q).value;
      && 0 < plan.rIn && 0 < plan.rOut && 0 < plan.a <= plan.rIn / 2
      && (q.preDeposited || (plan.a <= Bal(l, env.caller, plan.inA) && env.caller != Acct(env.self)))
    requires reply.user.Some? && 0 < reply.user.value && (Referral(q).Some? ==> Referral(q).value <= 10000)
    ensures PlanSettle(MakePlan(p, env, q).value, q, reply).Some?
    ensures Swap(p, l, env, q, reply).Some? <==>
      SlippageOk(q.minOut, PlanSettle(MakePlan(p, env, q).value, q, reply).value.user)
  {
    var plan := MakePlan(p, env, q).value;
    PlanFacts(p, env, q);
    HonestSwapAccepted(plan.rIn, plan.rOut, plan.a, plan.outA == Native(HBD), reply, Referral(q));
    hide MakePlan, Settle, SwapLedger, Honest, Accounted, Solvent, Bal, Acct;
    if SlippageOk(q.minOut, PlanSettle(plan, q, reply).value.user) { SwapCovered(p, l, env, q, reply); }
  }

  // A pool opened on a fresh store is in order: nothing owed, nothing issued, its two
  // assets readable, different and in byte order.
  const FRESH := P.Pool("", "", "", "", 0, 0, 0, 0, 0, map[], "", Product, "")

  lemma OpenedGood(env: Env, q: InitParams)
    requires Init(FRESH, env, q).Some?
    ensures var p := Init(FRESH, env, q).value;
      && Good(p, q.router) && p.version == VERSION && Less(p.name0, p.name1)
      && Owed(p, true) == 0 && Owed(p, false) == 0
  {
    LowerTwice(q.asset0);
    LowerTwice(q.asset1);
    LessTotal(Lower(q.asset0), Lower(q.asset1));
    TotalZero(map[]);
    hide Less, Lower, Total;
  }

  // Opening zeroes the supply but clears no share entry, so the shares add up afterwards
  // exactly when the store held none before. Where they added up before, the stored supply
  // alone decides it.
  lemma OpenedShares(p: P.Pool, env: Env, q: InitParams)
    requires Init(p, env, q).Some?
    ensures SharesAddUp(Init(p, env, q).value) <==> forall who :: Lp(p, who) == 0
    ensures Total(p.lp) == p.totalLp ==> (SharesAddUp(Init(p, env, q).value) <==> p.totalLp == 0)
  {
    hide Less, Lower, NewAsset, Total;
    if forall who :: Lp(p, who) == 0 {
      forall who | who in p.lp ensures p.lp[who] == 0 { assert Lp(p, who) == 0; }
      TotalZero(p.lp);
    } else {
      var who :| Lp(p, who) != 0;
      TotalSplit(p.lp, who);
    }
  }

  // A store of the first layout, as a first deposit of 2 and 13 units leaves it, the state it
  // stands for, and a request that opens a pool on it.
  const ASSETS_STORED: PS.Store := map["a1" := "hbd", "a2" := "hive"]
  const STALE_STORE := ASSETS_STORED[PS.RESERVE0 := Bytes(2)][PS.RESERVE1 := Bytes(13)][PS.TOTAL_LP := Bytes(5)]
                                    [PS.LpKey("alice") := Bytes(5)]
  const STALE := FRESH.(r0 := 2, r1 := 13, totalLp := 5, lp := map["alice" := 5])
  const OWNER_ENV := Env("owner", "pool", Some("owner"), Some("now"), (_ => "contract"))
  const OPENING := InitParams("hbd", "hive", 8, "", "", "router", "", 0, None, None)

  lemma StaleState()
    ensures PS.View(STALE_STORE) == STALE
    ensures M.Consistent(STALE_STORE, text => Some((text, "")))
  {
    hide PS.View;
    M.OldAssetsAreForeign();
    PS.EmptyView();
    M.PutForeign(map[], "a1", "hbd");
    M.PutForeign(map["a1" := "hbd"], "a2", "hive");
    assert ASSETS_STORED == (map["a1" := "hbd"])["a2" := "hive"];
    var s1 := ASSETS_STORED[PS.RESERVE0 := Bytes(2)];
    var s2 := s1[PS.RESERVE1 := Bytes(13)];
    var s3 := s2[PS.TOTAL_LP := Bytes(5)];
    PS.PutReserve0(ASSETS_STORED, 2);
    PS.PutReserve1(s1, 13);
    PS.PutTotalLp(s2, 5);
    PS.PutHolder(s3, "alice", 5);
  }

  lemma StaleOpening()
    ensures Minted(FRESH, 2, 13) == Some(5) && SharesAddUp(STALE) && Init(STALE, OWNER_ENV, OPENING).Some?
    ensures !SharesAddUp(Init(STALE, OWNER_ENV, OPENING).value)
  {
    SqrtIs(26, 5);
    TotalSplit(STALE.lp, "alice");
    assert STALE.lp - {"alice"} == map[];
    assert Lower("hbd") == "hbd" && Lower("hive") == "hive";
    assert "hbd"[0] == 'h' && "hive"[0] == 'h' && "hbd"[1..] == "bd" && "hive"[1..] == "ive";
    OpenedShares(STALE, OWNER_ENV, OPENING);
  }

  lemma SqrtIs(n: nat, s: nat)
    requires s * s <= n < (s + 1) * (s + 1)
    ensures Sqrt(n) == s
  {
    var t := Sqrt(n);
    if t < s { ProductLe(t + 1, s, t + 1, s); }
    if s < t { ProductLe(s + 1, t, s + 1, t); }
  }

  // What follows: a holder left over from before the opening can withdraw as much of the
  // first deposit after it as their old shares reach, and where they reach all of it the
  // depositor is left with shares that no withdrawal accepts.
  lemma StaleHolderIsPaid(p: P.Pool, env: Env, q: InitParams, amt0: nat, amt1: nat, depositor: string, who: string,
                          n: nat, call: Env)
    requires Init(p, env, q).Some? && who != depositor && who != ""
    requires call.caller == who && call.kind(who) != "unknown"
    requires 0 < n <= Sqrt(amt0 * amt1) && n <= Lp(p, who)
    ensures var m := Sqrt(amt0 * amt1); var p1 := Init(p, env, q).value;
      && Minted(p1, amt0, amt1) == Some(m)
      && var p2 := WithAdd(p1, amt0, amt1, depositor, m);
      && MayRemove(p2, call, RemoveParams(Some(n), who))
      && var p3 := WithRemove(p2, who, n);
      && p3.r0 == amt0 - amt0 * n / m && p3.r1 == amt1 - amt1 * n / m
      && (n == m ==> p3.r0 == 0 && p3.r1 == 0 && m <= Lp(p3, depositor)
                     && forall other: Env, k: int :: !MayRemove(p3, other, RemoveParams(Some(k), depositor)))
  {
    hide Less, Lower, NewAsset, Sqrt;
    var m := Sqrt(amt0 * amt1);
    ShareBound(amt0, n, m);
    ShareBound(amt1, n, m);
  }

  // ------------------------------------------------------------------ runs of the system

  datatype System = System(world: World, reg: Registry, router: string)

  datatype Action =
    | PoolAction(id: string, call: Call)
    | RouterAction(env: Env, instr: Instruction, ans: Answers)
    | Send(from: string, to: string, asset: AssetId, n: nat)
    | Arrive(to: string, asset: AssetId, n: nat)
    | Depart(from: string, asset: AssetId, n: nat)
    | Open(id: string, env: Env, params: InitParams)
    | AddToken(token: TokenParams, contractOk: bool, info: Option<Info>)
    | AddPool(a: string, b: string, id: string, contractOk: bool)

  // What a transaction does; one that aborts changes nothing.
  function Act(s: System, x: Action): System {
    match x
    case PoolAction(id, c) =>
      if id !in s.world.pools then s
      else
        var d := Step(s.world.pools[id], s.world.ledger, c);
        if d.None? then s else s.(world := Called(s.world, id, d.value))
    case RouterAction(env, instr, ans) =>
      var o := Execute(s.world, s.reg, env, instr, ans);
      if o.None? then s else s.(world := o.value.world)
    case Send(from, to, a, n) =>
      var l := Move(s.world.ledger, from, to, a, n);
      if l.None? then s else s.(world := s.world.(ledger := l.value))
    case Arrive(to, a, n) => s.(world := s.world.(ledger := s.world.ledger[(to, a) := Bal(s.world.ledger, to, a) + n]))
    case Depart(from, a, n) =>
      var l := Burn(s.world.ledger, from, a, n);
      if l.None? then s else s.(world := s.world.(ledger := l.value))
    case Open(id, env, q) =>
      var p := Init(FRESH, env, q);
      if p.None? then s else s.(world := s.world.(pools := s.world.pools[id := p.value]))
    case AddToken(q, ok, info) => if TokenAllowed(s.reg, q, ok, info) then s.(reg := WithToken(s.reg, q, info)) else s
    case AddPool(a, b, id, ok) => if PoolAllowed(s.reg, a, b, ok) then s.(reg := WithPool(s.reg, a, b, id)) else s
  }

  // What the platform and the operators guarantee of an action. Contract accounts act only
  // through their own code; the fee host is honest; contract ids are not reused; and the
  // owner registers a pool under the assets it was opened with.
  ghost predicate Allowed(s: System, x: Action) {
    var w := s.world;
    match x
    case PoolAction(id, c) =>
      id in w.pools ==>
        && c.env.self == id && HonestCall(w.pools[id], c)
        && CallerOutside(w, c.env.caller) && c.env.caller != Acct(s.router)
    case RouterAction(env, instr, ans) =>
      && env.self == s.router && HonestExecute(w, s.reg, env, instr, ans)
      && CallerOutside(w, env.caller) && env.caller != Acct(s.router)
    case Send(from, _, _, _) => CallerOutside(w, from)
    case Depart(from, _, _) => CallerOutside(w, from)
    case Open(id, _, q) => id !in w.pools && id != s.router && q.router == s.router
    case AddPool(a, b, id, _) => Agree(WithPool(s.reg, a, b, id), w.pools, s.router)
    case _ => true
  }

  // The action itself pays nothing into the account of pool id. What the pool's own calls
  // and the router's pre-funding bring in does not count.
  predicate Quiet(x: Action, id: string) {
    match x
    case PoolAction(_, c) => Acct(id) !in Payees(c)
    case RouterAction(_, instr, _) => Acct(id) !in PaidBy(instr.(chain := HomeChain(instr.chain)))
    case Send(_, to, _, _) => to != Acct(id)
    case Arrive(to, _, _) => to != Acct(id)
    case _ => true
  }

  // Every registered pair is of registered tokens.
  ghost predicate PairsKnown(r: Registry) {
    forall a, b {:trigger (a, b) in r.pools} :: (a, b) in r.pools ==> a in r.tokens && b in r.tokens
  }

  // Pools in order, ledger covering what they owe, registry agreeing with them.
  ghost predicate Sound(s: System) {
    && Agree(s.reg, s.world.pools, s.router) && PairsKnown(s.reg) && s.router !in s.world.pools
    && (forall id {:trigger s.world.pools[id]} :: id in s.world.pools ==> Good(s.world.pools[id], s.router))
    && (forall id, side0 {:trigger WorldSlack(s.world, id, side0)} ::
          id in s.world.pools ==> 0 <= WorldSlack(s.world, id, side0))
  }

  ghost predicate AllGood(pools: map<string, P.Pool>, router: string) {
    forall id {:trigger pools[id]} :: id in pools ==> Good(pools[id], router)
  }

  lemma CallAllGood(w: World, id: string, c: Call, router: string)
    requires AllGood(w.pools, router) && id in w.pools && HonestCall(w.pools[id], c)
      && Step(w.pools[id], w.ledger, c).Some?
    ensures AllGood(Called(w, id, Step(w.pools[id], w.ledger, c).value).pools, router)
  {
    hide Step, Good;
    StepGood(w.pools[id], w.ledger, c, router);
  }

  lemma PoolSwapGood(w: World, env: Env, pool: string, q: SwapParams, reply: Reply)
    requires AllGood(w.pools, env.self) && PoolSwap(w, env, pool, q, reply).Some?
    requires HonestReply(w.pools[pool], PoolEnv(env, pool), q, reply)
    ensures AllGood(PoolSwap(w, env, pool, q, reply).value.world.pools, env.self)
  {
    hide Swap, HonestReply, AllGood;
    CallAllGood(w, pool, SwapCall(PoolEnv(env, pool), q, reply), env.self);
  }

  lemma SettleKeepsPools(o: Outcome, r: Registry, env: Env, i: Instruction, ans: Answers)
    ensures SettleOutcome(o, r, env, i, ans).Some? ==>
      SettleOutcome(o, r, env, i, ans).value.world.pools == o.world.pools
  {
    hide SettleToChain;
  }

  lemma DirectGood(w: World, r: Registry, env: Env, pool: string, i: Instruction, ans: Answers)
    requires AllGood(w.pools, env.self) && DirectSwap(w, r, env, pool, i, ans).Some?
      && HonestDirect(w, env, pool, i, ans)
    ensures AllGood(DirectSwap(w, r, env, pool, i, ans).value.world.pools, env.self)
  {
    hide AllGood, PreFund, HonestReply, SettleOutcome, Swap;
    var w1 := w.(ledger := PreFund(w.ledger, r, env, i.assetIn, i.amountIn, pool).value);
    PoolSwapGood(w1, env, pool, DirectParams(env, i), ans.first);
    SettleKeepsPools(PoolSwap(w1, env, pool, DirectParams(env, i), ans.first).value, r, env, i, ans);
  }

  lemma TwoHopGood(w: World, r: Registry, env: Env, pool1: string, pool2: string, i: Instruction, ans: Answers)
    requires AllGood(w.pools, env.self) && TwoHopSwap(w, r, env, pool1, pool2, i, ans).Some?
      && HonestTwoHop(w, r, env, pool1, pool2, i, ans)
    ensures AllGood(TwoHopSwap(w, r, env, pool1, pool2, i, ans).value.world.pools, env.self)
  {
    hide AllGood, PreFund, HonestReply, SettleOutcome, Swap, Move;
    var w1 := w.(ledger := PreFund(w.ledger, r, env, i.assetIn, i.amountIn, pool1).value);
    var o := PoolSwap(w1, env, pool1, FirstHop(env, i), ans.first).value;
    PoolSwapGood(w1, env, pool1, FirstHop(env, i), ans.first);
    var w2 := o.world.(ledger := Move(o.world.ledger, Acct(env.self), Acct(pool2), Native(HBD), o.amount).value);
    PoolSwapGood(w2, env, pool2, SecondHop(env, i, o.amount), ans.second);
    SettleKeepsPools(PoolSwap(w2, env, pool2, SecondHop(env, i, o.amount), ans.second).value, r, env, i, ans);
  }

  lemma LiquidityGood(w: World, r: Registry, env: Env, i: Instruction)
    requires AllGood(w.pools, env.self)
    ensures ExecuteDeposit(w, r, env, i).Some? ==> AllGood(ExecuteDeposit(w, r, env, i).value.world.pools, env.self)
    ensures ExecuteWithdrawal(w, r, env, i).Some? ==>
      AllGood(ExecuteWithdrawal(w, r, env, i).value.world.pools, env.self)
  {
    hide AllGood, PreFund, AddLiquidity, RemoveLiquidity, Lookup;
    if ExecuteDeposit(w, r, env, i).Some? {
      var pool := Lookup(r, i.asset0, i.asset1).value;
      var l1 := PreFund(w.ledger, r, env, i.asset0, i.amount0, pool).value;
      var l2 := PreFund(l1, r, env, i.asset1, i.amount1, pool).value;
      CallAllGood(w.(ledger := l2), pool, AddCall(PoolEnv(env, pool), DepositParams(i)), env.self);
    }
    if ExecuteWithdrawal(w, r, env, i).Some? {
      var pool := Lookup(r, i.asset0, i.asset1).value;
      CallAllGood(w, pool, RemoveCall(PoolEnv(env, pool), RemoveParams(i.lpAmount, i.recipient)), env.self);
    }
  }

  lemma ExecuteGood(w: World, r: Registry, env: Env, instr: Instruction, ans: Answers)
    requires AllGood(w.pools, env.self) && Execute(w, r, env, instr, ans).Some? && HonestExecute(w, r, env, instr, ans)
    ensures AllGood(Execute(w, r, env, instr, ans).value.world.pools, env.self)
  {
    hide AllGood, DirectSwap, TwoHopSwap, ExecuteDeposit, ExecuteWithdrawal, Lower, Lookup, HomeChain, HonestTwoHop,
         HonestDirect, Less;
    var i := instr.(chain := HomeChain(instr.chain));
    if i.kind == "swap" {
      var j := i.(assetIn := Lower(i.assetIn), assetOut := Lower(i.assetOut));
      var direct := Lookup(r, j.assetIn, j.assetOut);
      if direct.Some? {
        DirectGood(w, r, env, direct.value, j, ans);
      } else {
        TwoHopGood(w, r, env, Lookup(r, j.assetIn, HBD).value, Lookup(r, HBD, j.assetOut).value, j, ans);
      }
    } else {
      LiquidityGood(w, r, env, InPoolOrder(i));
    }
  }

  // ------------------------------------------------------------------ slack and agreement, action by action

  lemma LedgerOnlySlack(s: System, l: Ledger, exact: set<string>)
    requires forall id, b :: id in s.world.pools ==> Bal(s.world.ledger, Acct(id), b) <= Bal(l, Acct(id), b)
    requires forall id, b :: id in s.world.pools && id in exact ==>
      Bal(s.world.ledger, Acct(id), b) == Bal(l, Acct(id), b)
    ensures SlackKept(s.world, s.world.(ledger := l), exact)
  {
    hide Bal, SideAsset, Owed, Acct;
    forall id, side0 | id in s.world.pools
      ensures WorldSlack(s.world, id, side0) <= WorldSlack(s.world.(ledger := l), id, side0)
      ensures id in exact ==> WorldSlack(s.world, id, side0) == WorldSlack(s.world.(ledger := l), id, side0)
    {
      if SideAsset(s.world.pools[id], side0).Some? {
        var a := SideAsset(s.world.pools[id], side0).value;
        assert Bal(s.world.ledger, Acct(id), a) <= Bal(l, Acct(id), a);
      }
    }
  }

  lemma SlackSame(w: World, exact: set<string>)
    ensures SlackKept(w, w, exact)
  {
    hide WorldSlack;
    forall id | id in w.pools ensures SameAssets(w.pools[id], w.pools[id]) { SameAssetsReflexive(w.pools[id]); }
    forall id, side0 ensures Pending(id, side0, "", 0, 0) == 0 { }
  }

  // Any allowed action but an opening keeps every pool's slack; one that is quiet for a pool
  // keeps that pool's exactly.
  lemma ActSlack(s: System, x: Action, exact: set<string>)
    requires Sound(s) && Allowed(s, x) && !x.Open? && forall id :: id in exact ==> Quiet(x, id)
    ensures SlackKept(s.world, Act(s, x).world, exact)
  {
    hide Step, Execute, SlackAfter, Agree, Good, HonestExecute, HonestCall, Bal, Acct, PairsKnown;
    SlackSame(s.world, exact);
    match x
    case PoolAction(id, c) =>
      if id in s.world.pools && Step(s.world.pools[id], s.world.ledger, c).Some? { PoolActionSlack(s, id, c, exact); }
    case RouterAction(env, instr, ans) =>
      if Execute(s.world, s.reg, env, instr, ans).Some? { ExecuteSlack(s.world, s.reg, env, instr, ans, exact); }
    case Send(from, to, a, n) =>
      MoveBalances(s.world.ledger, from, to, a, n);
      var l := Move(s.world.ledger, from, to, a, n);
      if l.Some? { LedgerOnlySlack(s, l.value, exact); }
    case Arrive(to, a, n) =>
      ArriveBalances(s.world.ledger, to, a, n);
      LedgerOnlySlack(s, s.world.ledger[(to, a) := Bal(s.world.ledger, to, a) + n], exact);
    case Depart(from, a, n) =>
      BurnBalances(s.world.ledger, from, a, n);
      if Burn(s.world.ledger, from, a, n).Some? { LedgerOnlySlack(s, Burn(s.world.ledger, from, a, n).value, exact); }
    case _ =>
  }

  lemma ArriveBalances(l: Ledger, to: string, a: AssetId, n: nat)
    ensures forall who, b :: Bal(l[(to, a) := Bal(l, to, a) + n], who, b) == Bal(l, who, b) + At(who, b, to, a, n)
  {
  }

  // A direct call brings nothing ahead of itself: a pre-deposit is only believed of the router.
  lemma NothingBrought(p: P.Pool, l: Ledger, c: Call)
    requires Step(p, l, c).Some? && !FromRouter(p, c.env)
    ensures forall side0 :: Brought(p, c, side0) == 0
  {
    hide Move, SwapLedger, PayFee, NewAsset, Settle, Orient, Draw, Pay, Share, Minted, FromRouter, Lower;
  }

  lemma PoolActionSlack(s: System, id: string, c: Call, exact: set<string>)
    requires Sound(s) && id in s.world.pools && Step(s.world.pools[id], s.world.ledger, c).Some?
    requires Allowed(s, PoolAction(id, c)) && NoPoolPaid(s.world, exact, Payees(c))
    ensures SlackKept(s.world, Called(s.world, id, Step(s.world.pools[id], s.world.ledger, c).value), exact)
  {
    hide Step, SlackAfter, Agree, HonestCall, Bal, Acct, NoPoolPaid, Brought, Payees, CallerOutside, SharesAddUp,
         Backed, WorldSlack;
    var p := s.world.pools[id];
    assert Good(p, s.router);
    NothingBrought(p, s.world.ledger, c);
    CallSlack(s.world, id, c, exact);
    NothingPending(s.world, Called(s.world, id, Step(p, s.world.ledger, c).value), id, "", exact);
  }

  // ------------------------------------------------------------------ soundness of every reachable state

  lemma TokenKeepsAgree(r: Registry, pools: map<string, P.Pool>, router: string, q: TokenParams, ok: bool,
                        info: Option<Info>)
    requires Agree(r, pools, router) && PairsKnown(r) && TokenAllowed(r, q, ok, info)
    ensures Agree(WithToken(r, q, info), pools, router) && PairsKnown(WithToken(r, q, info))
  {
    hide NewAsset, Lower, Upper;
    var r' := WithToken(r, q, info);
    forall a, b | (a, b) in r'.pools
      ensures RouterAsset(r', a) == RouterAsset(r, a) && RouterAsset(r', b) == RouterAsset(r, b)
    {
      assert (a, b) in r.pools && a in r.tokens && b in r.tokens;
    }
    forall a, b | (a, b) in r'.pools ensures a in r'.tokens && b in r'.tokens { assert (a, b) in r.pools; }
  }

  lemma PoolKeepsPairs(r: Registry, a: string, b: string, id: string, ok: bool)
    requires PairsKnown(r) && PoolAllowed(r, a, b, ok)
    ensures PairsKnown(WithPool(r, a, b, id))
  {
    hide Lower, Less;
  }

  lemma OpenKeepsAgree(r: Registry, pools: map<string, P.Pool>, router: string, id: string, p: P.Pool)
    requires Agree(r, pools, router) && id !in pools
    ensures Agree(r, pools[id := p], router)
  {
    hide NewAsset, RouterAsset;
  }

  lemma ActAgrees(s: System, x: Action)
    requires Sound(s) && Allowed(s, x)
    ensures Agree(Act(s, x).reg, Act(s, x).world.pools, s.router) && PairsKnown(Act(s, x).reg)
  {
    hide Step, Execute, SlackAfter, Agree, HonestExecute, HonestCall, Acct, PairsKnown, Good, Init, TokenAllowed,
         PoolAllowed, WithToken, WithPool, CallerOutside, WorldSlack;
    match x
    case PoolAction(id, c) =>
      if id in s.world.pools && Step(s.world.pools[id], s.world.ledger, c).Some? {
        CallKeepsAgree(s.world, s.reg, s.router, id, c);
      }
    case RouterAction(env, instr, ans) =>
      if Execute(s.world, s.reg, env, instr, ans).Some? { ExecuteSlack(s.world, s.reg, env, instr, ans, {}); }
    case Open(id, env, q) =>
      if Init(FRESH, env, q).Some? { OpenKeepsAgree(s.reg, s.world.pools, s.router, id, Init(FRESH, env, q).value); }
    case AddToken(q, ok, info) =>
      if TokenAllowed(s.reg, q, ok, info) { TokenKeepsAgree(s.reg, s.world.pools, s.router, q, ok, info); }
    case AddPool(a, b, id, ok) =>
      if PoolAllowed(s.reg, a, b, ok) { PoolKeepsPairs(s.reg, a, b, id, ok); }
    case _ =>
  }

  lemma SoundIsGood(s: System)
    requires Sound(s)
    ensures AllGood(s.world.pools, s.router)
  {
  }

  lemma ActGood(s: System, x: Action)
    requires Sound(s) && Allowed(s, x)
    ensures AllGood(Act(s, x).world.pools, s.router)
  {
    SoundIsGood(s);
    hide Step, Execute, Agree, HonestExecute, HonestCall, Acct, PairsKnown, Good, Init, CallerOutside, WorldSlack,
         Sound;
    match x
    case PoolAction(id, c) =>
      if id in s.world.pools && Step(s.world.pools[id], s.world.ledger, c).Some? {
        CallAllGood(s.world, id, c, s.router);
      }
    case RouterAction(env, instr, ans) =>
      if Execute(s.world, s.reg, env, instr, ans).Some? { ExecuteGood(s.world, s.reg, env, instr, ans); }
    case Open(id, env, q) =>
      if Init(FRESH, env, q).Some? { OpenedGood(env, q); }
    case _ =>
  }

  lemma ActSolvent(s: System, x: Action)
    requires Sound(s) && Allowed(s, x)
    ensures forall id, side0 {:trigger WorldSlack(Act(s, x).world, id, side0)} ::
      id in Act(s, x).world.pools ==> 0 <= WorldSlack(Act(s, x).world, id, side0)
    ensures s.router !in Act(s, x).world.pools
  {
    if !x.Open? {
      ActSlack(s, x, {});
      hide Act, WorldSlack, Agree, PairsKnown, Good, Allowed, SameAssets;
      var w' := Act(s, x).world;
      forall id, side0 | id in w'.pools ensures 0 <= WorldSlack(w', id, side0) {
        assert id in s.world.pools && 0 <= WorldSlack(s.world, id, side0);
        assert Pending(id, side0, "", 0, 0) == 0;
      }
    } else {
      hide Init, Agree, PairsKnown, Bal, NewAsset, Acct;
      var p := Init(FRESH, x.env, x.params);
      if p.Some? {
        OpenedGood(x.env, x.params);
        forall id, side0 | id in Act(s, x).world.pools ensures 0 <= WorldSlack(Act(s, x).world, id, side0) {
          if id != x.id { assert 0 <= WorldSlack(s.world, id, side0); }
        }
      }
    }
  }

  lemma ActSound(s: System, x: Action)
    requires Sound(s) && Allowed(s, x)
    ensures Sound(Act(s, x)) && Act(s, x).router == s.router
  {
    ActAgrees(s, x);
    ActGood(s, x);
    ActSolvent(s, x);
    hide Step, Execute, Agree, Good, WorldSlack, Init, Allowed, PairsKnown;
  }

  function RunAll(s: System, xs: seq<Action>): System
    decreases xs
  {
    if xs == [] then s else RunAll(Act(s, xs[0]), xs[1..])
  }

  // Every action of the run is allowed in the state it meets.
  ghost predicate AllowedRun(s: System, xs: seq<Action>)
    decreases xs
  {
    xs != [] ==> Allowed(s, xs[0]) && AllowedRun(Act(s, xs[0]), xs[1..])
  }

  // No action of the run pays anything into the account of pool id.
  predicate QuietRun(xs: seq<Action>, id: string) {
    forall i :: 0 <= i < |xs| ==> Quiet(xs[i], id)
  }

  // Nothing deployed, nothing registered.
  function Genesis(router: string, ledger: Ledger): System {
    System(World(ledger, map[]), NONE, router)
  }

  // In every state any run reaches from the beginning, for each pool and asset, the ledger
  // covers the reserve and the fee bucket; shares add up; a pool without shares is empty;
  // and a constant-product pool's supply is backed by its reserves.
  lemma {:induction false} RunSound(s: System, xs: seq<Action>)
    requires Sound(s) && AllowedRun(s, xs)
    ensures Sound(RunAll(s, xs))
    decreases xs
  {
    if xs != [] {
      ActSound(s, xs[0]);
      RunSound(Act(s, xs[0]), xs[1..]);
    }
  }

  lemma EveryReachableStateIsSound(router: string, ledger: Ledger, xs: seq<Action>)
    requires AllowedRun(Genesis(router, ledger), xs)
    ensures Sound(RunAll(Genesis(router, ledger), xs))
    ensures var w := RunAll(Genesis(router, ledger), xs).world;
      forall id {:trigger w.pools[id]} :: id in w.pools ==>
        && Solvent(w.pools[id], w.ledger, id)
        && Total(w.pools[id].lp) == w.pools[id].totalLp
        && (w.pools[id].totalLp == 0 ==> w.pools[id].r0 == 0 && w.pools[id].r1 == 0)
        && (w.pools[id].curve.Product? ==> w.pools[id].totalLp * w.pools[id].totalLp <= w.pools[id].r0 * w.pools[id].r1)
  {
    var s := Genesis(router, ledger);
    assert Sound(s);
    RunSound(s, xs);
    var t := RunAll(s, xs);
    hide RunAll, AllowedRun, Agree, PairsKnown, Total, NewAsset, Bal;
    forall id | id in t.world.pools ensures Solvent(t.world.pools[id], t.world.ledger, id) {
      assert Good(t.world.pools[id], t.router);
      assert 0 <= WorldSlack(t.world, id, true) && 0 <= WorldSlack(t.world, id, false);
    }
  }

  lemma OpenExact(s: System, x: Action, id: string)
    requires Allowed(s, x) && x.Open? && id in s.world.pools
    ensures id in Act(s, x).world.pools
    ensures SameAssets(s.world.pools[id], Act(s, x).world.pools[id])
    ensures forall side0 :: WorldSlack(Act(s, x).world, id, side0) == WorldSlack(s.world, id, side0)
  {
    hide Init, Step, Execute, Slack, NewAsset;
  }

  lemma ActExact(s: System, x: Action, id: string)
    requires Sound(s) && Allowed(s, x) && Quiet(x, id) && id in s.world.pools
    ensures id in Act(s, x).world.pools
    ensures SameAssets(s.world.pools[id], Act(s, x).world.pools[id])
    ensures forall side0 :: WorldSlack(Act(s, x).world, id, side0) == WorldSlack(s.world, id, side0)
  {
    if x.Open? {
      OpenExact(s, x, id);
      hide Act, WorldSlack, SameAssets, Allowed, Sound;
    } else {
      ActSlack(s, x, {id});
      hide Act, WorldSlack, SameAssets, Allowed, Sound;
      forall side0 ensures WorldSlack(Act(s, x).world, id, side0) == WorldSlack(s.world, id, side0) {
        assert Pending(id, side0, "", 0, 0) == 0;
      }
    }
  }

  // Along a run in which nobody pays a pool's account, whatever is paid to other pools and
  // whatever is opened, its slack stays exactly what it was: its balance moves with reserve
  // and fees unit by unit.
  lemma {:induction false} QuietRunExact(s: System, xs: seq<Action>, id: string)
    requires Sound(s) && AllowedRun(s, xs) && QuietRun(xs, id) && id in s.world.pools
    ensures var w := RunAll(s, xs).world;
      && id in w.pools && SameAssets(s.world.pools[id], w.pools[id])
      && forall side0 :: WorldSlack(w, id, side0) == WorldSlack(s.world, id, side0)
    decreases xs
  {
    hide Allowed, Quiet, Sound, Act, WorldSlack, SameAssets;
    if xs == [] {
      SameAssetsReflexive(s.world.pools[id]);
    } else {
      var s' := Act(s, xs[0]);
      ActExact(s, xs[0], id);
      ActSound(s, xs[0]);
      QuietRunExact(s', xs[1..], id);
      SameAssetsTransitive(s.world.pools[id], s'.world.pools[id], RunAll(s, xs).world.pools[id]);
    }
  }

  // Action k of the run opens pool id.
  predicate OpensAt(s: System, xs: seq<Action>, k: nat, id: string) {
    k < |xs| && xs[k].Open? && xs[k].id == id
    && id !in RunAll(s, xs[..k]).world.pools && id in RunAll(s, xs[..k + 1]).world.pools
  }

  // The pool's account holds of each of its assets reserve and fees, and besides that just
  // what it held in the ledger before.
  predicate Balanced(w: World, id: string, before: Ledger)
    requires id in w.pools
  {
    var p := w.pools[id];
    var a0, a1 := Asset0(p), Asset1(p);
    && a0.Some? && Bal(w.ledger, Acct(id), a0.value) == p.r0 + p.fee0 + Bal(before, Acct(id), a0.value)
    && a1.Some? && Bal(w.ledger, Acct(id), a1.value) == p.r1 + p.fee1 + Bal(before, Acct(id), a1.value)
  }

  // From the beginning: every pool that exists was opened at some point k of the run, and if
  // nobody paid its account since, it holds of each of its assets exactly reserve and fees
  // on top of what the account held when the pool was opened.
  lemma EveryPoolExact(router: string, ledger: Ledger, xs: seq<Action>, id: string) returns (k: nat)
    requires AllowedRun(Genesis(router, ledger), xs) && id in RunAll(Genesis(router, ledger), xs).world.pools
    ensures OpensAt(Genesis(router, ledger), xs, k, id)
    ensures QuietRun(xs[k + 1..], id) ==>
      Balanced(RunAll(Genesis(router, ledger), xs).world, id, RunAll(Genesis(router, ledger), xs[..k]).world.ledger)
  {
    assert Sound(Genesis(router, ledger));
    k := PoolExact(Genesis(router, ledger), xs, id);
  }

  lemma {:induction false} PoolExact(s: System, xs: seq<Action>, id: string) returns (k: nat)
    requires Sound(s) && AllowedRun(s, xs) && id !in s.world.pools && id in RunAll(s, xs).world.pools
    ensures OpensAt(s, xs, k, id)
    ensures QuietRun(xs[k + 1..], id) ==> Balanced(RunAll(s, xs).world, id, RunAll(s, xs[..k]).world.ledger)
    decreases xs
  {
    hide Sound, Balanced, Quiet, Act, Allowed;
    var s' := Act(s, xs[0]);
    ActSound(s, xs[0]);
    if id in s'.world.pools {
      k := 0;
      OnlyOpenAdds(s, xs[0], id);
      assert xs[..1] == [xs[0]] && RunAll(s, xs[..1]) == RunAll(s', []);
      if QuietRun(xs[1..], id) {
        QuietRunExact(s', xs[1..], id);
        OpenedBalanced(s, xs[0], RunAll(s, xs).world, id);
      }
    } else {
      var j := PoolExact(s', xs[1..], id);
      k := j + 1;
      assert xs[..k][1..] == xs[1..][..j] && xs[..k + 1][1..] == xs[1..][..j + 1];
      assert xs[k + 1..] == xs[1..][j + 1..];
    }
  }

  lemma OnlyOpenAdds(s: System, x: Action, id: string)
    requires Sound(s) && Allowed(s, x) && id !in s.world.pools && id in Act(s, x).world.pools
    ensures x.Open? && x.id == id && Init(FRESH, x.env, x.params).Some?
    ensures Act(s, x).world == World(s.world.ledger, s.world.pools[id := Init(FRESH, x.env, x.params).value])
  {
    if !x.Open? { ActSlack(s, x, {}); }
    hide Init, Sound, Step, Execute, WorldSlack, SameAssets;
  }

  lemma OpenedBalanced(s: System, x: Action, w: World, id: string)
    requires x.Open? && x.id == id && Init(FRESH, x.env, x.params).Some? && id in w.pools
    requires Act(s, x).world == World(s.world.ledger, s.world.pools[id := Init(FRESH, x.env, x.params).value])
    requires SameAssets(Act(s, x).world.pools[id], w.pools[id])
    requires forall side0 :: WorldSlack(w, id, side0) == WorldSlack(Act(s, x).world, id, side0)
    ensures Balanced(w, id, s.world.ledger)
  {
    OpenedGood(x.env, x.params);
    var p := Init(FRESH, x.env, x.params).value;
    assert WorldSlack(w, id, true) == WorldSlack(Act(s, x).world, id, true);
    assert WorldSlack(w, id, false) == WorldSlack(Act(s, x).world, id, false);
    hide Init, Act, SharesAddUp, Backed, Bal, NewAsset, Acct;
  }
}
