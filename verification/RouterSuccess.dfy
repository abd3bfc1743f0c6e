/** When an execute succeeds: on a sound system with an honest host only the request, the
    caller's funds and the host's prices decide, never what the router or a pool holds. */
module RouterSuccess {
  import opened Text
  import opened Bank
  import opened P = Pool
  import opened Solvency
  import opened Registry
  import opened Routing
  import opened RouterProperties
  import opened Worlds
  import opened Systems

  // ------------------------------------------------------------------ the conditions, without a ledger

  // The request and the host's answer pass every check of the pool.
  predicate HopAccepted(p: P.Pool, env: Env, q: SwapParams, reply: Reply) {
    var plan := MakePlan(p, env, q);
    && plan.Some? && PlanSettle(plan.value, q, reply).Some?
    && SlippageOk(q.minOut, PlanSettle(plan.value, q, reply).value.user)
  }

  function HopPays(p: P.Pool, env: Env, q: SwapParams, reply: Reply): nat
    requires HopAccepted(p, env, q, reply)
  {
    PlanSettle(MakePlan(p, env, q).value, q, reply).value.user
  }

  predicate CallerHolds(l: Ledger, r: Registry, env: Env, asset: string, amount: Option<int>) {
    amount.Some? && 0 < amount.value <= Bal(l, env.caller, RouterAsset(r, Lower(asset)))
  }

  // The mapping contract can send n units: its fee is within the cap and, where it comes out
  // of the amount, leaves something.
  predicate FeeAccepted(n: int, deductFee: bool, maxFee: Option<int>, outFee: Option<nat>) {
    && outFee.Some? && (maxFee.Some? ==> outFee.value <= maxFee.value)
    && (if deductFee then outFee.value else 0) < n
  }

  // The EVM bridge knows the token, and after its proof fee can send what is left.
  predicate BridgeAccepts(name: string, amount: nat, info: Option<Info>, maxFee: Option<int>, outFee: Option<nat>) {
    && info.Some? && Lower(info.value.symbol) == name
    && info.value.proofFee.Some? && 0 <= info.value.proofFee.value
    && (maxFee.Some? ==> 0 < maxFee.value)
    && (name == "eth" || info.value.tokenAddress != "")
    && FeeAccepted(amount - info.value.proofFee.value, name == "eth", maxFee, outFee)
  }

  // The output can be settled where it was asked for.
  predicate SettlementAccepted(r: Registry, i: Instruction, amount: nat, ans: Answers) {
    var name := Lower(i.assetOut);
    i.chain == "" || (
      && 0 < amount && name in r.tokens && Upper(r.tokens[name].chain) == Upper(i.chain)
      && (name == "hive" || name == "hbd" || (
            && r.tokens[name].mapping != ""
            && if Upper(i.chain) == "ETH" then BridgeAccepts(name, amount, ans.info, i.maxFee, ans.outFee)
               else FeeAccepted(amount, true, i.maxFee, ans.outFee))))
  }

  predicate DirectAccepted(w: World, r: Registry, env: Env, pool: string, i: Instruction, ans: Answers) {
    && pool in w.pools && CallerHolds(w.ledger, r, env, i.assetIn, i.amountIn)
    && HopAccepted(w.pools[pool], PoolEnv(env, pool), DirectParams(env, i), ans.first)
    && SettlementAccepted(r, i, HopPays(w.pools[pool], PoolEnv(env, pool), DirectParams(env, i), ans.first), ans)
  }

  predicate TwoHopAccepted(w: World, r: Registry, env: Env, pool1: string, pool2: string, i: Instruction,
                           ans: Answers) {
    && pool1 in w.pools && pool2 in w.pools && CallerHolds(w.ledger, r, env, i.assetIn, i.amountIn)
    && HopAccepted(w.pools[pool1], PoolEnv(env, pool1), FirstHop(env, i), ans.first)
    && var hbd := HopPays(w.pools[pool1], PoolEnv(env, pool1), FirstHop(env, i), ans.first);
    && 0 < hbd && SecondAccepted(w.pools[pool2], r, env, pool2, i, ans, hbd)
  }

  predicate SecondAccepted(p: P.Pool, r: Registry, env: Env, pool2: string, i: Instruction, ans: Answers, hbd: nat) {
    && HopAccepted(p, PoolEnv(env, pool2), SecondHop(env, i, hbd), ans.second)
    && SettlementAccepted(r, i, HopPays(p, PoolEnv(env, pool2), SecondHop(env, i, hbd), ans.second), ans)
  }

  // The pool accepts a deposit that has been brought in.
  predicate AddAccepted(p: P.Pool, env: Env, q: AddParams) {
    && q.amt0.Some? && q.amt1.Some? && 0 < q.amt0.value && 0 < q.amt1.value
    && q.recipient != "" && env.kind(q.recipient) != "unknown" && FromRouter(p, env)
    && var m := Minted(p, q.amt0.value, q.amt1.value);
    && m.Some? && 0 < m.value && SlippageOk(q.minLp, m.value)
  }

  predicate DepositAccepted(w: World, r: Registry, env: Env, i: Instruction) {
    var pool := Lookup(r, i.asset0, i.asset1);
    && pool.Some? && pool.value in w.pools
    && CallerHolds(w.ledger, r, env, i.asset0, i.amount0) && CallerHolds(w.ledger, r, env, i.asset1, i.amount1)
    && AddAccepted(w.pools[pool.value], PoolEnv(env, pool.value), DepositParams(i))
  }

  predicate WithdrawalAccepted(w: World, r: Registry, env: Env, i: Instruction) {
    var pool := Lookup(r, i.asset0, i.asset1);
    && i.recipient == env.caller && pool.Some? && pool.value in w.pools
    && MayRemove(w.pools[pool.value], PoolEnv(env, pool.value), RemoveParams(i.lpAmount, i.recipient))
  }

  predicate SwapAccepted(w: World, r: Registry, env: Env, instr: Instruction, ans: Answers) {
    var i := instr.(assetIn := Lower(instr.assetIn), assetOut := Lower(instr.assetOut));
    var direct, pool1, pool2 := Lookup(r, i.assetIn, i.assetOut), Lookup(r, i.assetIn, HBD), Lookup(r, HBD, i.assetOut);
    && instr.assetIn != "" && instr.assetOut != "" && i.assetIn != i.assetOut
    && if direct.Some? then DirectAccepted(w, r, env, direct.value, i, ans)
       else i.assetIn != HBD && i.assetOut != HBD && pool1.Some? && pool2.Some?
            && TwoHopAccepted(w, r, env, pool1.value, pool2.value, i, ans)
  }

  // The whole instruction: who sends it, its fields, and what its kind asks for.
  predicate Accepted(w: World, r: Registry, env: Env, instr: Instruction, ans: Answers) {
    var i := instr.(chain := HomeChain(instr.chain));
    && Authorized(env, ans) && i.version != "" && i.recipient != "" && i.recipient != Acct(env.self)
    && (i.chain == "" ==> env.kind(i.recipient) != "unknown")
    && ( || (i.kind == "swap" && SwapAccepted(w, r, env, i, ans))
         || (i.kind == "deposit" && i.asset0 != "" && i.asset1 != "" && DepositAccepted(w, r, env, InPoolOrder(i)))
         || (i.kind == "withdrawal" && i.asset0 != "" && i.asset1 != ""
           && WithdrawalAccepted(w, r, env, InPoolOrder(i))))
  }

  // ------------------------------------------------------------------ step by step

  ghost predicate AllSolvent(w: World) {
    forall id {:trigger w.pools[id]} :: id in w.pools ==> Solvent(w.pools[id], w.ledger, id)
  }

  lemma PreFundSucceeds(l: Ledger, r: Registry, env: Env, asset: string, amount: Option<int>, pool: string)
    ensures PreFund(l, r, env, asset, amount, pool).Some? <==> CallerHolds(l, r, env, asset, amount)
  {
    hide Move, Bal, Lower, Acct;
    if amount.Some? && 0 < amount.value {
      var a := RouterAsset(r, Lower(asset));
      MoveBalances(l, env.caller, Acct(pool), a, amount.value);
      MoveBalances(l, env.caller, Acct(env.self), a, amount.value);
      var l1 := Move(l, env.caller, Acct(env.self), a, amount.value);
      if l1.Some? { MoveBalances(l1.value, Acct(env.self), Acct(pool), a, amount.value); }
    }
  }

  // A solvent pool serves every pre-deposited swap that passes its checks.
  lemma HopSucceeds(w: World, env: Env, pool: string, q: SwapParams, reply: Reply)
    requires pool in w.pools && Solvent(w.pools[pool], w.ledger, pool) && q.preDeposited
    requires HonestReply(w.pools[pool], PoolEnv(env, pool), q, reply)
    ensures PoolSwap(w, env, pool, q, reply).Some? <==> HopAccepted(w.pools[pool], PoolEnv(env, pool), q, reply)
    ensures PoolSwap(w, env, pool, q, reply).Some? ==>
      var o := PoolSwap(w, env, pool, q, reply).value;
      && o.amount == HopPays(w.pools[pool], PoolEnv(env, pool), q, reply)
      && o.world.pools.Keys == w.pools.Keys
      && forall id :: id in w.pools && id != pool ==> o.world.pools[id] == w.pools[id]
  {
    hide MakePlan, PlanSettle, SwapLedger, Solvent, HonestReply, SlippageOk;
    if HopAccepted(w.pools[pool], PoolEnv(env, pool), q, reply) {
      SwapCovered(w.pools[pool], w.ledger, PoolEnv(env, pool), q, reply);
    }
  }

  lemma SlackKeepsSolvent(w: World, w': World, exact: set<string>)
    requires AllSolvent(w) && SlackKept(w, w', exact)
    ensures AllSolvent(w')
  {
    hide Slack, NewAsset;
    forall id | id in w'.pools ensures Solvent(w'.pools[id], w'.ledger, id) {
      assert Solvent(w.pools[id], w.ledger, id) && SameAssets(w.pools[id], w'.pools[id]);
      assert Pending(id, true, "", 0, 0) == 0 && Pending(id, false, "", 0, 0) == 0;
      assert WorldSlack(w, id, true) <= WorldSlack(w', id, true)
        && WorldSlack(w, id, false) <= WorldSlack(w', id, false);
    }
  }

  lemma FundedSolvent(w: World, l: Ledger, pool: string, a: AssetId, n: nat)
    requires AllSolvent(w) && Funded(w, l, pool, a, n) && pool in w.pools
    ensures Solvent(w.pools[pool], l, pool)
  {
    hide Bal, Acct, NewAsset;
    assert Solvent(w.pools[pool], w.ledger, pool);
  }

  // What a swap pays the router, the router can settle.
  lemma SettleSucceeds(o: Outcome, r: Registry, env: Env, i: Instruction, ans: Answers)
    requires Lower(i.assetOut) in HIVE_ASSETS ==> RouterAsset(r, Lower(i.assetOut)) == Native(Lower(i.assetOut))
    requires i.chain != "" ==> o.amount <= Bal(o.world.ledger, Acct(env.self), RouterAsset(r, Lower(i.assetOut)))
    ensures SettleOutcome(o, r, env, i, ans).Some? <==> SettlementAccepted(r, i, o.amount, ans)
  {
    hide Bal, Lower, Upper, Acct, Burn;
    BurnBalances(o.world.ledger, Acct(env.self), RouterAsset(r, Lower(i.assetOut)), o.amount);
    assert "hive" in HIVE_ASSETS && "hbd" in HIVE_ASSETS;
  }

  // The last swap and its settlement.
  lemma LastSwapSucceeds(w: World, r: Registry, env: Env, pool: string, q: SwapParams, reply: Reply, i: Instruction,
                         ans: Answers)
    requires pool in w.pools && Solvent(w.pools[pool], w.ledger, pool) && q.preDeposited && pool != env.self
    requires HonestReply(w.pools[pool], PoolEnv(env, pool), q, reply)
    requires Agree(r, w.pools, env.self) && Lookup(r, q.assetIn, q.assetOut) == Some(pool)
    requires Lower(q.assetIn) == q.assetIn && Lower(q.assetOut) == q.assetOut && q.assetOut == i.assetOut
    requires q.to == SwapRecipient(env, i)
    ensures (PoolSwap(w, env, pool, q, reply).Some?
      && SettleOutcome(PoolSwap(w, env, pool, q, reply).value, r, env, i, ans).Some?)
      <==> (HopAccepted(w.pools[pool], PoolEnv(env, pool), q, reply)
            && SettlementAccepted(r, i, HopPays(w.pools[pool], PoolEnv(env, pool), q, reply), ans))
  {
    hide PoolSwap, Bal, Agree, Lookup, RouterAsset, SettleOutcome, Lower, Acct, Solvent, HonestReply, HopAccepted,
         HopPays, SettlementAccepted;
    HopSucceeds(w, env, pool, q, reply);
    if PoolSwap(w, env, pool, q, reply).Some? {
      PoolSwapRouter(w, r, env, pool, q, reply);
      AgreeOnNative(r, w.pools, env.self, q.assetIn, q.assetOut);
      SettleSucceeds(PoolSwap(w, env, pool, q, reply).value, r, env, i, ans);
    }
  }

  lemma DirectSucceeds(w: World, r: Registry, env: Env, pool: string, i: Instruction, ans: Answers)
    requires AllSolvent(w) && Agree(r, w.pools, env.self) && env.self !in w.pools && CallerOutside(w, env.caller)
    requires Lookup(r, i.assetIn, i.assetOut) == Some(pool) && Lower(i.assetIn) == i.assetIn
      && Lower(i.assetOut) == i.assetOut
    requires HonestDirect(w, env, pool, i, ans)
    ensures DirectSwap(w, r, env, pool, i, ans).Some? <==> DirectAccepted(w, r, env, pool, i, ans)
  {
    hide Agree, Lookup, HonestReply, Funded, Bal, Acct, Lower, SettleOutcome, RouterAsset, PreFund, PoolSwap,
         CallerOutside, Solvent;
    hide HopAccepted, HopPays, SettlementAccepted, CallerHolds, AllSolvent;
    AgreeOnSwap(r, w.pools, env.self, i.assetIn, i.assetOut);
    PreFundSucceeds(w.ledger, r, env, i.assetIn, i.amountIn, pool);
    var l := PreFund(w.ledger, r, env, i.assetIn, i.amountIn, pool);
    if l.Some? {
      PreFundFunds(w, r, env, i.assetIn, i.amountIn, pool);
      FundedSolvent(w, l.value, pool, RouterAsset(r, Lower(i.assetIn)), i.amountIn.value);
      LastSwapSucceeds(w.(ledger := l.value), r, env, pool, DirectParams(env, i), ans.first, i, ans);
    }
  }

  // Two pairs with different ends are served by different pools.
  lemma DifferentPools(r: Registry, pools: map<string, P.Pool>, router: string, x: string, y: string)
    requires Agree(r, pools, router) && Lookup(r, x, HBD).Some? && Lookup(r, HBD, y).Some?
    requires Lower(x) == x && Lower(y) == y && x != y
    ensures Lookup(r, x, HBD) != Lookup(r, HBD, y)
  {
    HbdIsLower();
    LessTotal(x, HBD);
    LessTotal(HBD, y);
    hide Less, Lower, NewAsset, RouterAsset;
  }

  // The hand-over of the first hop's HBD is always covered; the rest is the last swap.
  lemma HandOverSucceeds(o: Outcome, r: Registry, env: Env, pool2: string, i: Instruction, ans: Answers)
    requires AllSolvent(o.world) && Agree(r, o.world.pools, env.self) && env.self !in o.world.pools
    requires Lookup(r, HBD, i.assetOut) == Some(pool2) && Lower(i.assetOut) == i.assetOut
    requires o.amount <= Bal(o.world.ledger, Acct(env.self), Native(HBD))
    requires pool2 in o.world.pools
    requires HonestReply(o.world.pools[pool2], PoolEnv(env, pool2), SecondHop(env, i, o.amount), ans.second)
    ensures HandOver(o, r, env, pool2, i, ans).Some? <==>
      0 < o.amount && SecondAccepted(o.world.pools[pool2], r, env, pool2, i, ans, o.amount)
  {
    hide Agree, Lookup, HonestReply, Funded, Bal, Acct, Lower, SettleOutcome, RouterAsset, PoolSwap, Move, Solvent;
    hide HopAccepted, HopPays, SettlementAccepted, AllSolvent;
    HbdIsLower();
    AgreeOnSwap(r, o.world.pools, env.self, HBD, i.assetOut);
    MoveBalances(o.world.ledger, Acct(env.self), Acct(pool2), Native(HBD), o.amount);
    HandOverFunds(o.world, env, pool2, o.amount);
    var l := Move(o.world.ledger, Acct(env.self), Acct(pool2), Native(HBD), o.amount).value;
    FundedSolvent(o.world, l, pool2, Native(HBD), o.amount);
    LastSwapSucceeds(o.world.(ledger := l), r, env, pool2, SecondHop(env, i, o.amount), ans.second, i, ans);
  }

  lemma FirstHopPaid(w: World, r: Registry, env: Env, pool1: string, i: Instruction, reply: Reply)
    requires PoolSwap(w, env, pool1, FirstHop(env, i), reply).Some? && pool1 != env.self
    requires Agree(r, w.pools, env.self) && Lookup(r, i.assetIn, HBD) == Some(pool1) && Lower(i.assetIn) == i.assetIn
    ensures var o := PoolSwap(w, env, pool1, FirstHop(env, i), reply).value;
      o.amount <= Bal(o.world.ledger, Acct(env.self), Native(HBD))
  {
    HbdIsLower();
    AgreeOnNative(r, w.pools, env.self, i.assetIn, HBD);
    PoolSwapRouter(w, r, env, pool1, FirstHop(env, i), reply);
    hide PoolSwap, Bal, Agree, Lookup, RouterAsset, Lower, Acct;
    var o := PoolSwap(w, env, pool1, FirstHop(env, i), reply).value;
    assert Bal(w.ledger, Acct(env.self), Native(HBD)) + o.amount <= Bal(o.world.ledger, Acct(env.self), Native(HBD));
  }

  lemma TwoHopSucceeds(w: World, r: Registry, env: Env, pool1: string, pool2: string, i: Instruction, ans: Answers)
    requires AllSolvent(w) && Agree(r, w.pools, env.self) && env.self !in w.pools && CallerOutside(w, env.caller)
    requires Lookup(r, i.assetIn, HBD) == Some(pool1) && Lookup(r, HBD, i.assetOut) == Some(pool2)
    requires Lower(i.assetIn) == i.assetIn && Lower(i.assetOut) == i.assetOut && i.assetIn != i.assetOut
    requires HonestTwoHop(w, r, env, pool1, pool2, i, ans)
    ensures TwoHopSwap(w, r, env, pool1, pool2, i, ans).Some? <==> TwoHopAccepted(w, r, env, pool1, pool2, i, ans)
  {
    hide Agree, Lookup, HonestReply, Funded, Bal, Acct, Lower, RouterAsset, PreFund, PoolSwap, CallerOutside, Solvent,
         SlackAfter;
    hide HopAccepted, HopPays, SecondAccepted, CallerHolds, HandOver, AllSolvent;
    HbdIsLower();
    AgreeOnSwap(r, w.pools, env.self, i.assetIn, HBD);
    AgreeOnSwap(r, w.pools, env.self, HBD, i.assetOut);
    DifferentPools(r, w.pools, env.self, i.assetIn, i.assetOut);
    PreFundSucceeds(w.ledger, r, env, i.assetIn, i.amountIn, pool1);
    var l := PreFund(w.ledger, r, env, i.assetIn, i.amountIn, pool1);
    if l.Some? {
      PreFundFunds(w, r, env, i.assetIn, i.amountIn, pool1);
      FundedSolvent(w, l.value, pool1, RouterAsset(r, Lower(i.assetIn)), i.amountIn.value);
      var w1 := w.(ledger := l.value);
      HopSucceeds(w1, env, pool1, FirstHop(env, i), ans.first);
      var o := PoolSwap(w1, env, pool1, FirstHop(env, i), ans.first);
      if o.Some? {
        FirstHopSlack(w, r, env, pool1, i, ans, {});
        SlackKeepsSolvent(w, o.value.world, {});
        FirstHopPaid(w1, r, env, pool1, i, ans.first);
        HandOverSucceeds(o.value, r, env, pool2, i, ans);
      }
    }
  }

  lemma DepositSucceeds(w: World, r: Registry, env: Env, i: Instruction)
    requires Agree(r, w.pools, env.self)
    requires Lower(i.asset0) == i.asset0 && Lower(i.asset1) == i.asset1 && !Less(i.asset1, i.asset0)
    ensures ExecuteDeposit(w, r, env, i).Some? <==> DepositAccepted(w, r, env, i)
  {
    hide Agree, Lookup, Lower, Less, PreFund, Bal, RouterAsset, Minted, Acct, SideAsset;
    var pool := Lookup(r, i.asset0, i.asset1);
    if pool.Some? {
      AgreeOnPair(r, w.pools, env.self, i.asset0, i.asset1);
      SidesApart(w.pools[pool.value]);
      PreFundSucceeds(w.ledger, r, env, i.asset0, i.amount0, pool.value);
      var l := PreFund(w.ledger, r, env, i.asset0, i.amount0, pool.value);
      if l.Some? {
        PreFundBalances(w.ledger, r, env, i.asset0, i.amount0, pool.value);
        PreFundSucceeds(l.value, r, env, i.asset1, i.amount1, pool.value);
      }
    }
  }

  lemma WithdrawalSucceeds(w: World, r: Registry, env: Env, i: Instruction)
    requires AllSolvent(w)
    ensures ExecuteWithdrawal(w, r, env, i).Some? <==> WithdrawalAccepted(w, r, env, i)
  {
    hide Lookup, RemoveLiquidity, MayRemove, Solvent;
    var pool := Lookup(r, i.asset0, i.asset1);
    if pool.Some? && pool.value in w.pools {
      RemoveCovered(w.pools[pool.value], w.ledger, PoolEnv(env, pool.value), RemoveParams(i.lpAmount, i.recipient));
    }
  }

  lemma SwapSucceeds(w: World, r: Registry, env: Env, instr: Instruction, ans: Answers)
    requires AllSolvent(w) && Agree(r, w.pools, env.self) && env.self !in w.pools && CallerOutside(w, env.caller)
    requires HonestSwap(w, r, env, instr, ans)
    ensures SwapAccepted(w, r, env, instr, ans) <==>
      instr.assetIn != "" && instr.assetOut != "" && ExecuteSwap(w, r, env, instr, ans).Some?
  {
    hide AllSolvent, Agree, Lookup, Lower, CallerOutside, DirectAccepted, TwoHopAccepted, DirectSwap, TwoHopSwap,
         HonestDirect, HonestTwoHop;
    LowerTwice(instr.assetIn);
    LowerTwice(instr.assetOut);
    var i := instr.(assetIn := Lower(instr.assetIn), assetOut := Lower(instr.assetOut));
    var direct, pool1, pool2 := Lookup(r, i.assetIn, i.assetOut), Lookup(r, i.assetIn, HBD), Lookup(r, HBD, i.assetOut);
    if direct.Some? {
      DirectSucceeds(w, r, env, direct.value, i, ans);
    } else if pool1.Some? && pool2.Some? && i.assetIn != i.assetOut {
      TwoHopSucceeds(w, r, env, pool1.value, pool2.value, i, ans);
    }
  }

  lemma SoundIsSolvent(s: System)
    requires Sound(s)
    ensures AllSolvent(s.world)
  {
    hide Agree, PairsKnown, Bal, NewAsset, Owed;
    forall id | id in s.world.pools ensures Solvent(s.world.pools[id], s.world.ledger, id) {
      assert Good(s.world.pools[id], s.router);
      assert 0 <= WorldSlack(s.world, id, true) && 0 <= WorldSlack(s.world, id, false);
    }
  }

  // On a sound system, which every reachable one is, an execute with an honest host succeeds
  // exactly when the request, the caller's funds and the pools' prices allow it. Every
  // payment a pool owes and every settlement the router owes is covered.
  lemma ExecuteSucceeds(s: System, env: Env, instr: Instruction, ans: Answers)
    requires Sound(s) && Allowed(s, RouterAction(env, instr, ans))
    ensures Execute(s.world, s.reg, env, instr, ans).Some? <==> Accepted(s.world, s.reg, env, instr, ans)
  {
    SoundIsSolvent(s);
    var i := instr.(chain := HomeChain(instr.chain));
    LowerTwice(i.asset0);
    LowerTwice(i.asset1);
    LessTotal(Lower(i.asset0), Lower(i.asset1));
    hide AllSolvent, Agree, Less, Lower, CallerOutside, ExecuteSwap, ExecuteDeposit, ExecuteWithdrawal, Good,
         PairsKnown, WorldSlack;
    hide SwapAccepted, DepositAccepted, WithdrawalAccepted, HomeChain, HonestSwap, Acct;
    if i.kind == "swap" {
      SwapSucceeds(s.world, s.reg, env, i, ans);
    } else if i.kind == "deposit" {
      DepositSucceeds(s.world, s.reg, env, InPoolOrder(i));
    } else if i.kind == "withdrawal" {
      WithdrawalSucceeds(s.world, s.reg, env, InPoolOrder(i));
    }
  }
}
