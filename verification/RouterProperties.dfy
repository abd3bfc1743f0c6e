/** What one execute keeps: the router's own balances, and the solvency of every pool. */
module RouterProperties {
  import opened Text
  import opened Bank
  import opened P = Pool
  import opened PoolCalls
  import opened Solvency
  import opened Registry
  import opened Routing

  // The router's registry agrees with the pools: each registered pool exists, is not the
  // router, and calls the pair's assets by the same names and mapping contracts.
  ghost predicate Agree(r: Registry, pools: map<string, P.Pool>, router: string) {
    forall a, b {:trigger (a, b) in r.pools} :: (a, b) in r.pools ==>
      var id := r.pools[(a, b)];
      && id in pools && id != router
      && pools[id].name0 == a && pools[id].name1 == b && a != b
      && Asset0(pools[id]) == Some(RouterAsset(r, a)) && Asset1(pools[id]) == Some(RouterAsset(r, b))
      && RouterAsset(r, a) != RouterAsset(r, b)
  }

  // A registered pair's pool, seen through the names a swap asks for.
  lemma AgreeOnSwap(r: Registry, pools: map<string, P.Pool>, router: string, x: string, y: string)
    requires Agree(r, pools, router) && Lookup(r, x, y).Some? && Lower(x) == x && Lower(y) == y
    ensures var id := Lookup(r, x, y).value;
      && id in pools && id != router && Readable(pools[id])
      && forall inIs0 :: Direction(pools[id], x, y) == Some(inIs0) ==>
           SideAsset(pools[id], inIs0) == Some(RouterAsset(r, x))
             && SideAsset(pools[id], !inIs0) == Some(RouterAsset(r, y))
  {
    LessTotal(x, y);
    hide Less, Lower, NewAsset, RouterAsset;
  }

  // ------------------------------------------------------------------ bringing funds in

  // Pre-funding takes the amount from the caller and puts it in the pool's account; a native
  // asset passes through the router and leaves no trace there.
  lemma PreFundBalances(l: Ledger, r: Registry, env: Env, asset: string, amount: Option<int>, pool: string)
    requires PreFund(l, r, env, asset, amount, pool).Some?
    ensures amount.Some? && 0 < amount.value
    ensures var l' := PreFund(l, r, env, asset, amount, pool).value; var a := RouterAsset(r, Lower(asset));
      forall who, b ::
        Bal(l', who, b) == Bal(l, who, b) - At(who, b, env.caller, a, amount.value)
          + At(who, b, Acct(pool), a, amount.value)
  {
    hide Move, Bal, RouterAsset, Lower, Acct;
    var a := RouterAsset(r, Lower(asset));
    MoveBalances(l, env.caller, Acct(pool), a, amount.value);
    MoveBalances(l, env.caller, Acct(env.self), a, amount.value);
    var l1 := Move(l, env.caller, Acct(env.self), a, amount.value);
    if l1.Some? { MoveBalances(l1.value, Acct(env.self), Acct(pool), a, amount.value); }
  }

  // ------------------------------------------------------------------ the router's balances

  // A pre-deposited swap on a pool, seen from another account: it gains what it is paid.
  lemma SwapSeenFromOutside(p: P.Pool, l: Ledger, env: Env, q: SwapParams, reply: Reply, who: string)
    requires Swap(p, l, env, q, reply).Some? && q.preDeposited && who != Acct(env.self) && who != NODES
    ensures var d := Swap(p, l, env, q, reply).value; var plan := MakePlan(p, env, q);
      && plan.Some? && PlanSettle(plan.value, q, reply).Some?
      && var s := PlanSettle(plan.value, q, reply).value;
      && d.amount == s.user
      && (forall b :: Bal(d.ledger, who, b) == Bal(l, who, b) + SwapGift(who, b, q, plan.value.outA, s))
      && (q.beneficiary.None? ==> s.referral == 0)
  {
    hide Move, SwapLedger, Settle, Bal, MakePlan, WithSwap, Acct;
    var plan := MakePlan(p, env, q).value;
    var s := PlanSettle(plan, q, reply).value;
    SettleSum(plan.pricing, plan.rIn, plan.rOut, plan.a, reply, Referral(q));
    SwapLedgerBalances(l, env, q, plan.inA, plan.outA, reply.nodeMove, plan.a, s);
  }

  // The router's gain from a swap it drives. Only a referral to itself adds to what it is
  // paid as recipient.
  lemma PoolSwapRouter(w: World, r: Registry, env: Env, pool: string, q: SwapParams, reply: Reply)
    requires PoolSwap(w, env, pool, q, reply).Some? && q.preDeposited && pool != env.self
    requires Lower(q.assetIn) == q.assetIn && Lower(q.assetOut) == q.assetOut
    requires Agree(r, w.pools, env.self) && Lookup(r, q.assetIn, q.assetOut) == Some(pool)
    ensures var o := PoolSwap(w, env, pool, q, reply).value;
      var me, a := Acct(env.self), RouterAsset(r, q.assetOut);
      var paid := if q.to == me then o.amount else 0;
      && Agree(r, o.world.pools, env.self)
      && (forall b :: Bal(w.ledger, me, b) + At(me, b, me, a, paid) <= Bal(o.world.ledger, me, b))
      && (q.beneficiary != Some(me) ==>
            forall b :: Bal(o.world.ledger, me, b) == Bal(w.ledger, me, b) + At(me, b, me, a, paid))
  {
    AcctFacts(env.self, pool);
    AgreeOnSwap(r, w.pools, env.self, q.assetIn, q.assetOut);
    SwapSeenFromOutside(w.pools[pool], w.ledger, PoolEnv(env, pool), q, reply, Acct(env.self));
    PlanFacts(w.pools[pool], PoolEnv(env, pool), q);
    StepKeepsSides(w.pools[pool], w.ledger, SwapCall(PoolEnv(env, pool), q, reply));
    SwapKeepsAgree(w, r, env, pool, q, reply);
    hide Agree, MakePlan, Settle, Bal, Swap, Lookup, Direction, SideAsset, RouterAsset, Acct;
  }

  lemma SwapKeepsAgree(w: World, r: Registry, env: Env, pool: string, q: SwapParams, reply: Reply)
    requires PoolSwap(w, env, pool, q, reply).Some? && Agree(r, w.pools, env.self)
    ensures Agree(r, PoolSwap(w, env, pool, q, reply).value.world.pools, env.self)
  {
    hide Settle, SwapLedger, MakePlan, NewAsset, RouterAsset;
  }

  // Settling takes from the router exactly the amount, in the asset the pools paid it.
  lemma SettleBalances(l: Ledger, r: Registry, env: Env, asset: string, amount: nat, to: string, chain: string,
                       info: Option<Info>, maxFee: Option<int>, outFee: Option<nat>)
    requires SettleToChain(l, r, env, asset, amount, to, chain, info, maxFee, outFee).Some?
    requires Lower(asset) in HIVE_ASSETS ==> RouterAsset(r, Lower(asset)) == Native(Lower(asset))
    ensures var l' := SettleToChain(l, r, env, asset, amount, to, chain, info, maxFee, outFee).value.ledger;
      forall who, b ::
        Bal(l', who, b) == Bal(l, who, b) - At(who, b, Acct(env.self), RouterAsset(r, Lower(asset)), amount)
  {
    hide Burn, Bal, Lower, Upper, Acct;
    BurnBalances(l, Acct(env.self), RouterAsset(r, Lower(asset)), amount);
    assert "hive" in HIVE_ASSETS && "hbd" in HIVE_ASSETS;
  }

  lemma AgreeOnNative(r: Registry, pools: map<string, P.Pool>, router: string, x: string, y: string)
    requires Agree(r, pools, router) && Lookup(r, x, y).Some? && Lower(x) == x && Lower(y) == y
    ensures x in HIVE_ASSETS ==> RouterAsset(r, x) == Native(x)
    ensures y in HIVE_ASSETS ==> RouterAsset(r, y) == Native(y)
  {
    LessTotal(x, y);
    hide Less, Lower, RouterAsset;
  }

  // The router's balances in one world and another.
  ghost predicate RouterKept(w: World, w': World, env: Env, i: Instruction) {
    var me := Acct(env.self);
    && (forall b :: Bal(w.ledger, me, b) <= Bal(w'.ledger, me, b))
    && (i.beneficiary != Some(me) ==> forall b :: Bal(w'.ledger, me, b) == Bal(w.ledger, me, b))
  }

  // The last swap of an instruction together with the settlement: what it pays the router
  // as recipient, the settlement takes away again.
  lemma LastSwapKept(w: World, r: Registry, env: Env, pool: string, q: SwapParams, reply: Reply, i: Instruction,
                     ans: Answers)
    requires PoolSwap(w, env, pool, q, reply).Some? && q.preDeposited && q.to == SwapRecipient(env, i)
    requires SettleOutcome(PoolSwap(w, env, pool, q, reply).value, r, env, i, ans).Some?
    requires Agree(r, w.pools, env.self) && Lookup(r, q.assetIn, q.assetOut) == Some(pool)
    requires Lower(q.assetIn) == q.assetIn && Lower(q.assetOut) == q.assetOut && q.assetOut == i.assetOut
    requires q.beneficiary == i.beneficiary && i.recipient != Acct(env.self) && pool != env.self
    ensures RouterKept(w, SettleOutcome(PoolSwap(w, env, pool, q, reply).value, r, env, i, ans).value.world, env, i)
  {
    hide PoolSwap, Bal, Agree, Lookup, RouterAsset, SettleToChain, Lower, Acct;
    var o := PoolSwap(w, env, pool, q, reply).value;
    PoolSwapRouter(w, r, env, pool, q, reply);
    AgreeOnNative(r, w.pools, env.self, q.assetIn, q.assetOut);
    if i.chain != "" {
      SettleBalances(o.world.ledger, r, env, i.assetOut, o.amount, i.recipient, i.chain, ans.info, i.maxFee,
                     ans.outFee);
    }
  }

  lemma DirectKept(w: World, r: Registry, env: Env, pool: string, i: Instruction, ans: Answers)
    requires DirectSwap(w, r, env, pool, i, ans).Some? && Agree(r, w.pools, env.self)
    requires Lookup(r, i.assetIn, i.assetOut) == Some(pool) && Lower(i.assetIn) == i.assetIn
      && Lower(i.assetOut) == i.assetOut
    requires i.recipient != Acct(env.self) && env.caller != Acct(env.self)
    ensures RouterKept(w, DirectSwap(w, r, env, pool, i, ans).value.world, env, i)
  {
    hide PreFund, PoolSwap, Bal, Agree, Lookup, RouterAsset, SettleOutcome, Lower, Acct;
    AgreeOnSwap(r, w.pools, env.self, i.assetIn, i.assetOut);
    AcctFacts(env.self, pool);
    PreFundBalances(w.ledger, r, env, i.assetIn, i.amountIn, pool);
    var l := PreFund(w.ledger, r, env, i.assetIn, i.amountIn, pool).value;
    LastSwapKept(w.(ledger := l), r, env, pool, DirectParams(env, i), ans.first, i, ans);
  }

  // After the first hop and the hand-over the router holds what it held before.
  lemma FirstHopKept(w: World, r: Registry, env: Env, pool1: string, pool2: string, i: Instruction, reply: Reply)
    requires PoolSwap(w, env, pool1, FirstHop(env, i), reply).Some? && Agree(r, w.pools, env.self)
    requires Lookup(r, i.assetIn, HBD) == Some(pool1) && Lower(i.assetIn) == i.assetIn && pool1 != env.self
      && pool2 != env.self
    requires var o := PoolSwap(w, env, pool1, FirstHop(env, i), reply).value;
      Move(o.world.ledger, Acct(env.self), Acct(pool2), Native(HBD), o.amount).Some?
    ensures var o := PoolSwap(w, env, pool1, FirstHop(env, i), reply).value;
      && Agree(r, o.world.pools, env.self)
      && var l := Move(o.world.ledger, Acct(env.self), Acct(pool2), Native(HBD), o.amount).value;
      && forall b :: Bal(l, Acct(env.self), b) == Bal(w.ledger, Acct(env.self), b)
  {
    HbdIsLower();
    AgreeOnNative(r, w.pools, env.self, i.assetIn, HBD);
    AcctFacts(env.self, pool2);
    var o := PoolSwap(w, env, pool1, FirstHop(env, i), reply).value;
    PoolSwapRouter(w, r, env, pool1, FirstHop(env, i), reply);
    MoveBalances(o.world.ledger, Acct(env.self), Acct(pool2), Native(HBD), o.amount);
    hide PoolSwap, Bal, Agree, Lookup, RouterAsset, Lower, Move, Acct;
  }

  lemma HandOverKept(w: World, o: Outcome, r: Registry, env: Env, pool2: string, i: Instruction, ans: Answers)
    requires HandOver(o, r, env, pool2, i, ans).Some? && Agree(r, o.world.pools, env.self)
    requires Lookup(r, HBD, i.assetOut) == Some(pool2) && Lower(i.assetOut) == i.assetOut
    requires i.recipient != Acct(env.self) && pool2 != env.self
    requires Move(o.world.ledger, Acct(env.self), Acct(pool2), Native(HBD), o.amount).Some? ==>
      forall b :: Bal(Move(o.world.ledger, Acct(env.self), Acct(pool2), Native(HBD), o.amount).value, Acct(env.self), b)
               == Bal(w.ledger, Acct(env.self), b)
    ensures RouterKept(w, HandOver(o, r, env, pool2, i, ans).value.world, env, i)
  {
    HbdIsLower();
    hide PoolSwap, Bal, Agree, Lookup, RouterAsset, SettleOutcome, Lower, Move, Acct;
    var w2 := o.world.(ledger := Move(o.world.ledger, Acct(env.self), Acct(pool2), Native(HBD), o.amount).value);
    LastSwapKept(w2, r, env, pool2, SecondHop(env, i, o.amount), ans.second, i, ans);
  }

  lemma TwoHopKept(w: World, r: Registry, env: Env, pool1: string, pool2: string, i: Instruction, ans: Answers)
    requires TwoHopSwap(w, r, env, pool1, pool2, i, ans).Some? && Agree(r, w.pools, env.self)
    requires Lookup(r, i.assetIn, HBD) == Some(pool1) && Lookup(r, HBD, i.assetOut) == Some(pool2)
    requires Lower(i.assetIn) == i.assetIn && Lower(i.assetOut) == i.assetOut
    requires i.recipient != Acct(env.self) && env.caller != Acct(env.self)
    ensures RouterKept(w, TwoHopSwap(w, r, env, pool1, pool2, i, ans).value.world, env, i)
  {
    hide PoolSwap, Bal, Agree, Lookup, RouterAsset, HandOver, Lower, Move, Acct;
    HbdIsLower();
    AgreeOnSwap(r, w.pools, env.self, i.assetIn, HBD);
    AgreeOnSwap(r, w.pools, env.self, HBD, i.assetOut);
    AcctFacts(env.self, pool1);
    PreFundBalances(w.ledger, r, env, i.assetIn, i.amountIn, pool1);
    hide PreFund;
    var w1 := w.(ledger := PreFund(w.ledger, r, env, i.assetIn, i.amountIn, pool1).value);
    var o := PoolSwap(w1, env, pool1, FirstHop(env, i), ans.first).value;
    HandOverNeedsFunds(o, r, env, pool2, i, ans);
    FirstHopKept(w1, r, env, pool1, pool2, i, ans.first);
    HandOverKept(w1, o, r, env, pool2, i, ans);
  }

  lemma HandOverNeedsFunds(o: Outcome, r: Registry, env: Env, pool2: string, i: Instruction, ans: Answers)
    ensures HandOver(o, r, env, pool2, i, ans).Some? ==>
      Move(o.world.ledger, Acct(env.self), Acct(pool2), Native(HBD), o.amount).Some?
  {
  }

  lemma DepositKept(w: World, r: Registry, env: Env, i: Instruction)
    requires ExecuteDeposit(w, r, env, i).Some? && Agree(r, w.pools, env.self) && env.caller != Acct(env.self)
    requires Lower(i.asset0) == i.asset0 && Lower(i.asset1) == i.asset1
    ensures RouterKept(w, ExecuteDeposit(w, r, env, i).value.world, env, i)
  {
    var pool := Lookup(r, i.asset0, i.asset1).value;
    AgreeOnSwap(r, w.pools, env.self, i.asset0, i.asset1);
    AcctFacts(env.self, pool);
    PreFundBalances(w.ledger, r, env, i.asset0, i.amount0, pool);
    var l1 := PreFund(w.ledger, r, env, i.asset0, i.amount0, pool).value;
    PreFundBalances(l1, r, env, i.asset1, i.amount1, pool);
    hide PreFund, Bal, Agree, Lookup, RouterAsset, Lower, Minted, Acct;
  }

  lemma WithdrawalKept(w: World, r: Registry, env: Env, i: Instruction)
    requires ExecuteWithdrawal(w, r, env, i).Some? && Agree(r, w.pools, env.self) && env.caller != Acct(env.self)
    requires Lower(i.asset0) == i.asset0 && Lower(i.asset1) == i.asset1
    ensures RouterKept(w, ExecuteWithdrawal(w, r, env, i).value.world, env, i)
  {
    var pool := Lookup(r, i.asset0, i.asset1).value;
    AgreeOnSwap(r, w.pools, env.self, i.asset0, i.asset1);
    AcctFacts(env.self, pool);
    AcctFacts(env.self, env.self);
    var c := RemoveCall(PoolEnv(env, pool), RemoveParams(i.lpAmount, i.recipient));
    StepKept(w.pools[pool], w.ledger, c);
    hide Bal, Agree, Lookup, RouterAsset, Lower, RemoveLiquidity, Acct, Slack;
  }

  // Every successful execute leaves each of the router's own balances as it was, unless the
  // router is named as the referral's beneficiary, and even then none falls. The host may
  // answer anything.
  lemma RouterNeutral(w: World, r: Registry, env: Env, instr: Instruction, ans: Answers)
    requires Execute(w, r, env, instr, ans).Some? && Agree(r, w.pools, env.self) && env.caller != Acct(env.self)
    ensures RouterKept(w, Execute(w, r, env, instr, ans).value.world, env, instr)
  {
    var i := instr.(chain := HomeChain(instr.chain));
    LowerTwice(i.assetIn);
    LowerTwice(i.assetOut);
    LowerTwice(i.asset0);
    LowerTwice(i.asset1);
    hide DirectSwap, TwoHopSwap, ExecuteDeposit, ExecuteWithdrawal, Lower, Upper, Agree, Bal, Acct, Lookup, Less,
         HomeChain;
    if i.kind == "swap" {
      var j := i.(assetIn := Lower(i.assetIn), assetOut := Lower(i.assetOut));
      var direct := Lookup(r, j.assetIn, j.assetOut);
      if direct.Some? {
        DirectKept(w, r, env, direct.value, j, ans);
      } else {
        TwoHopKept(w, r, env, Lookup(r, j.assetIn, HBD).value, Lookup(r, HBD, j.assetOut).value, j, ans);
      }
    } else if i.kind == "deposit" {
      DepositKept(w, r, env, InPoolOrder(i));
    } else {
      WithdrawalKept(w, r, env, InPoolOrder(i));
    }
  }

  // ------------------------------------------------------------------ the people involved

  // What a swap instruction pays the recipient on the home chain.
  function Proceeds(who: string, b: AssetId, r: Registry, i: Instruction, amount: nat): nat {
    if i.chain == "" then At(who, b, i.recipient, RouterAsset(r, Lower(i.assetOut)), amount) else 0
  }

  // The balances of an account that is no contract's: it pays the input if it is the caller,
  // and is paid the amount reported if it is the recipient. A referral can only add.
  ghost predicate PersonKept(w: World, w': World, r: Registry, env: Env, i: Instruction, who: string, amount: nat) {
    && i.amountIn.Some? && 0 < i.amountIn.value
    && (forall b ::
          Bal(w.ledger, who, b) + Proceeds(who, b, r, i, amount)
          <= Bal(w'.ledger, who, b) + At(who, b, env.caller, RouterAsset(r, Lower(i.assetIn)), i.amountIn.value))
    && (i.beneficiary != Some(who) ==> forall b ::
          Bal(w.ledger, who, b) + Proceeds(who, b, r, i, amount)
          == Bal(w'.ledger, who, b) + At(who, b, env.caller, RouterAsset(r, Lower(i.assetIn)), i.amountIn.value))
    && SlippageOk(i.minOut, amount)
  }

  ghost predicate Person(w: World, env: Env, who: string) {
    who != Acct(env.self) && who != NODES && forall id :: id in w.pools ==> who != Acct(id)
  }

  lemma PoolSwapPerson(w: World, r: Registry, env: Env, pool: string, q: SwapParams, reply: Reply, who: string)
    requires PoolSwap(w, env, pool, q, reply).Some? && q.preDeposited && who != Acct(pool) && who != NODES
    requires Lower(q.assetIn) == q.assetIn && Lower(q.assetOut) == q.assetOut
    requires Agree(r, w.pools, env.self) && Lookup(r, q.assetIn, q.assetOut) == Some(pool)
    ensures var o := PoolSwap(w, env, pool, q, reply).value; var a := RouterAsset(r, q.assetOut);
      && SlippageOk(q.minOut, o.amount)
      && (forall b :: Bal(w.ledger, who, b) + At(who, b, q.to, a, o.amount) <= Bal(o.world.ledger, who, b))
      && (q.beneficiary != Some(who) ==>
            forall b :: Bal(o.world.ledger, who, b) == Bal(w.ledger, who, b) + At(who, b, q.to, a, o.amount))
  {
    AgreeOnSwap(r, w.pools, env.self, q.assetIn, q.assetOut);
    SwapSeenFromOutside(w.pools[pool], w.ledger, PoolEnv(env, pool), q, reply, who);
    PlanFacts(w.pools[pool], PoolEnv(env, pool), q);
    SwapMinimum(w.pools[pool], w.ledger, PoolEnv(env, pool), q, reply);
    hide Agree, MakePlan, Settle, Bal, Swap, Lookup, Direction, SideAsset, RouterAsset, Acct, SlippageOk;
  }

  lemma SwapMinimum(p: P.Pool, l: Ledger, env: Env, q: SwapParams, reply: Reply)
    requires Swap(p, l, env, q, reply).Some?
    ensures SlippageOk(q.minOut, Swap(p, l, env, q, reply).value.amount)
  {
    hide MakePlan, Settle, SwapLedger;
  }

  lemma LastSwapPerson(w: World, r: Registry, env: Env, pool: string, q: SwapParams, reply: Reply, i: Instruction,
                       ans: Answers, who: string)
    requires PoolSwap(w, env, pool, q, reply).Some? && q.preDeposited && q.to == SwapRecipient(env, i)
    requires SettleOutcome(PoolSwap(w, env, pool, q, reply).value, r, env, i, ans).Some?
    requires Agree(r, w.pools, env.self) && Lookup(r, q.assetIn, q.assetOut) == Some(pool)
    requires Lower(q.assetIn) == q.assetIn && Lower(q.assetOut) == q.assetOut && q.assetOut == i.assetOut
    requires q.beneficiary == i.beneficiary && q.minOut == i.minOut && who != Acct(pool) && who != NODES
      && who != Acct(env.self)
    ensures var o := SettleOutcome(PoolSwap(w, env, pool, q, reply).value, r, env, i, ans).value;
      && SlippageOk(i.minOut, o.amount)
      && (forall b :: Bal(w.ledger, who, b) + Proceeds(who, b, r, i, o.amount) <= Bal(o.world.ledger, who, b))
      && (i.beneficiary != Some(who) ==>
            forall b :: Bal(o.world.ledger, who, b) == Bal(w.ledger, who, b) + Proceeds(who, b, r, i, o.amount))
  {
    hide PoolSwap, Bal, Agree, Lookup, RouterAsset, SettleToChain, Lower, Acct, SlippageOk;
    var o := PoolSwap(w, env, pool, q, reply).value;
    PoolSwapPerson(w, r, env, pool, q, reply, who);
    AgreeOnNative(r, w.pools, env.self, q.assetIn, q.assetOut);
    if i.chain != "" {
      SettleBalances(o.world.ledger, r, env, i.assetOut, o.amount, i.recipient, i.chain, ans.info, i.maxFee,
                     ans.outFee);
    }
  }

  lemma DirectPerson(w: World, r: Registry, env: Env, pool: string, i: Instruction, ans: Answers, who: string)
    requires DirectSwap(w, r, env, pool, i, ans).Some? && Agree(r, w.pools, env.self) && Person(w, env, who)
    requires Lookup(r, i.assetIn, i.assetOut) == Some(pool) && Lower(i.assetIn) == i.assetIn
      && Lower(i.assetOut) == i.assetOut
    ensures var o := DirectSwap(w, r, env, pool, i, ans).value; PersonKept(w, o.world, r, env, i, who, o.amount)
  {
    hide PreFund, PoolSwap, Bal, Agree, Lookup, RouterAsset, SettleOutcome, Lower, Acct, SlippageOk, Proceeds;
    AgreeOnSwap(r, w.pools, env.self, i.assetIn, i.assetOut);
    PreFundBalances(w.ledger, r, env, i.assetIn, i.amountIn, pool);
    var l := PreFund(w.ledger, r, env, i.assetIn, i.amountIn, pool).value;
    LastSwapPerson(w.(ledger := l), r, env, pool, DirectParams(env, i), ans.first, i, ans, who);
  }

  lemma HandOverPerson(o: Outcome, r: Registry, env: Env, pool2: string, i: Instruction, ans: Answers, who: string)
    requires HandOver(o, r, env, pool2, i, ans).Some? && Agree(r, o.world.pools, env.self)
    requires Lookup(r, HBD, i.assetOut) == Some(pool2) && Lower(i.assetOut) == i.assetOut
    requires who != Acct(pool2) && who != NODES && who != Acct(env.self)
    ensures var o2 := HandOver(o, r, env, pool2, i, ans).value;
      && SlippageOk(i.minOut, o2.amount)
      && (forall b :: Bal(o.world.ledger, who, b) + Proceeds(who, b, r, i, o2.amount) <= Bal(o2.world.ledger, who, b))
      && (i.beneficiary != Some(who) ==>
            forall b :: Bal(o2.world.ledger, who, b) == Bal(o.world.ledger, who, b) + Proceeds(who, b, r, i, o2.amount))
  {
    hide PoolSwap, Bal, Agree, Lookup, RouterAsset, SettleOutcome, Lower, Acct, Move, SlippageOk, Proceeds;
    HbdIsLower();
    MoveBalances(o.world.ledger, Acct(env.self), Acct(pool2), Native(HBD), o.amount);
    var w2 := o.world.(ledger := Move(o.world.ledger, Acct(env.self), Acct(pool2), Native(HBD), o.amount).value);
    LastSwapPerson(w2, r, env, pool2, SecondHop(env, i, o.amount), ans.second, i, ans, who);
  }

  lemma TwoHopPerson(w: World, r: Registry, env: Env, pool1: string, pool2: string, i: Instruction, ans: Answers,
                     who: string)
    requires TwoHopSwap(w, r, env, pool1, pool2, i, ans).Some? && Agree(r, w.pools, env.self) && Person(w, env, who)
    requires Lookup(r, i.assetIn, HBD) == Some(pool1) && Lookup(r, HBD, i.assetOut) == Some(pool2)
    requires Lower(i.assetIn) == i.assetIn && Lower(i.assetOut) == i.assetOut
    ensures var o := TwoHopSwap(w, r, env, pool1, pool2, i, ans).value; PersonKept(w, o.world, r, env, i, who, o.amount)
  {
    hide PreFund, PoolSwap, Bal, Agree, Lookup, RouterAsset, HandOver, Lower, Acct, SlippageOk, Proceeds, Move;
    HbdIsLower();
    AgreeOnSwap(r, w.pools, env.self, i.assetIn, HBD);
    AgreeOnSwap(r, w.pools, env.self, HBD, i.assetOut);
    AcctFacts(env.self, pool1);
    PreFundBalances(w.ledger, r, env, i.assetIn, i.amountIn, pool1);
    var w1 := w.(ledger := PreFund(w.ledger, r, env, i.assetIn, i.amountIn, pool1).value);
    var o := PoolSwap(w1, env, pool1, FirstHop(env, i), ans.first).value;
    PoolSwapPerson(w1, r, env, pool1, FirstHop(env, i), ans.first, who);
    SwapKeepsAgree(w1, r, env, pool1, FirstHop(env, i), ans.first);
    HandOverPerson(o, r, env, pool2, i, ans, who);
  }

  // End to end, whatever the host answers: a swap takes from its caller the input amount and
  // nothing else, pays the recipient the amount it reports, which meets the minimum asked
  // for, and touches no other person but a referral's beneficiary.
  lemma SwapServesPeople(w: World, r: Registry, env: Env, instr: Instruction, ans: Answers, who: string)
    requires Execute(w, r, env, instr, ans).Some? && instr.kind == "swap" && Agree(r, w.pools, env.self)
      && Person(w, env, who)
    ensures var o := Execute(w, r, env, instr, ans).value;
      PersonKept(w, o.world, r, env, instr.(chain := HomeChain(instr.chain)), who, o.amount)
  {
    var i := instr.(chain := HomeChain(instr.chain));
    LowerTwice(i.assetIn);
    LowerTwice(i.assetOut);
    hide DirectSwap, TwoHopSwap, ExecuteDeposit, ExecuteWithdrawal, Lower, Upper, Agree, Bal, Acct, Lookup, Less,
         HomeChain, SlippageOk, RouterAsset;
    var j := i.(assetIn := Lower(i.assetIn), assetOut := Lower(i.assetOut));
    var direct := Lookup(r, j.assetIn, j.assetOut);
    if direct.Some? {
      DirectPerson(w, r, env, direct.value, j, ans, who);
    } else {
      TwoHopPerson(w, r, env, Lookup(r, j.assetIn, HBD).value, Lookup(r, HBD, j.assetOut).value, j, ans, who);
    }
  }

  lemma HbdIsLower()
    ensures Lower(HBD) == HBD && HBD in HIVE_ASSETS
  {
  }
}
