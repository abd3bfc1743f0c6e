/** What each instruction does to whom, end to end and in the instruction's own terms: accounts,
    assets by name, shares by holder. Whatever the fee host answers. */
module RouterEffects {
  import opened Text
  import opened Bank
  import opened P = Pool
  import opened Effects
  import opened Solvency
  import opened Registry
  import opened Routing
  import opened RouterProperties
  import opened RouterSuccess

  // The home chain is MAGI or no chain at all, without regard to case.
  lemma HomeChainExact(chain: string)
    ensures HomeChain(chain) == "" <==> Lower(chain) == "" || Lower(chain) == "magi"
    ensures HomeChain(chain) != "" ==> Lower(HomeChain(chain)) == Lower(chain) && HomeChain(chain) != "MAGI"
  {
    UpperExact(chain);
    assert Lower("MAGI") == "magi" && Upper("magi") == "MAGI";
    assert Lower("") == "" && Upper("") == "";
  }

  // Who may execute, and what every instruction needs.
  lemma ExecuteConditions(w: World, r: Registry, env: Env, instr: Instruction, ans: Answers)
    requires Execute(w, r, env, instr, ans).Some?
    ensures env.kind(env.caller) == "contract" || ans.signed
    ensures instr.kind in {"swap", "deposit", "withdrawal"} && instr.version != "" && instr.recipient != ""
    ensures instr.recipient != "contract:" + env.self
    ensures Lower(instr.chain) == "" || Lower(instr.chain) == "magi" ==> env.kind(instr.recipient) != "unknown"
    ensures instr.kind == "swap" ==>
      && instr.assetIn != "" && instr.assetOut != "" && Lower(instr.assetIn) != Lower(instr.assetOut)
    ensures instr.kind != "swap" ==> instr.asset0 != "" && instr.asset1 != ""
    ensures instr.kind == "withdrawal" ==> instr.recipient == env.caller
  {
    HomeChainExact(instr.chain);
    AcctIs(env.self);
    hide DirectSwap, TwoHopSwap, Lower, Upper, Lookup, HomeChain, ExecuteDeposit, RemoveLiquidity, Less;
  }

  // A pool that is registered for x and y keeps them as its two sides, as the assets the
  // router knows them by.
  lemma RegisteredPool(r: Registry, pools: map<string, P.Pool>, router: string, x: string, y: string)
    requires Agree(r, pools, router) && Lookup(r, x, y).Some? && Lower(x) == x && Lower(y) == y
    ensures var id := Lookup(r, x, y).value;
      && id in pools && id != router && Readable(pools[id]) && pools[id].name0 != pools[id].name1
      && Pairs(pools[id], x, y)
      && Kept(pools[id], x) == Some(RouterAsset(r, x)) && Kept(pools[id], y) == Some(RouterAsset(r, y))
      && RouterAsset(r, x) != RouterAsset(r, y)
  {
    LessTotal(x, y);
    hide Less, Lower, NewAsset, RouterAsset;
  }

  // ------------------------------------------------------------------ a deposit

  // The pair in the pool's order is the pair of the instruction, each amount with its asset.
  lemma OrderedDeposit(instr: Instruction, i: Instruction)
    requires i == InPoolOrder(instr)
    ensures var x, y := Lower(instr.asset0), Lower(instr.asset1);
      || (i.asset0 == x && i.asset1 == y && i.amount0 == instr.amount0 && i.amount1 == instr.amount1)
      || (i.asset0 == y && i.asset1 == x && i.amount0 == instr.amount1 && i.amount1 == instr.amount0)
    ensures Lower(i.asset0) == i.asset0 && Lower(i.asset1) == i.asset1 && !Less(i.asset1, i.asset0)
    ensures i.recipient == instr.recipient && i.minLp == instr.minLp && i.lpAmount == instr.lpAmount
  {
    LowerTwice(instr.asset0);
    LowerTwice(instr.asset1);
    LessTotal(Lower(instr.asset0), Lower(instr.asset1));
    hide Less, Lower;
  }

  // What a deposit of n of x and m of y into a pool leaves behind: both reserves grow by their
  // own amount, the recipient gets the shares and nobody else does.
  ghost predicate Deposited(p: P.Pool, p': P.Pool, x: string, n: nat, y: string, m: nat, to: string, shares: nat) {
    && Reserve(p', x) == Reserve(p, x) + n && Reserve(p', y) == Reserve(p, y) + m
    && (forall who :: Lp(p', who) == Lp(p, who) + (if who == to then shares else 0))
    && p'.totalLp == p.totalLp + shares
    && p' == p.(r0 := p'.r0, r1 := p'.r1, totalLp := p'.totalLp, lp := p'.lp)
  }

  lemma DepositOnPool(w: World, r: Registry, env: Env, i: Instruction)
    requires ExecuteDeposit(w, r, env, i).Some? && Agree(r, w.pools, env.self)
    requires Lower(i.asset0) == i.asset0 && Lower(i.asset1) == i.asset1 && !Less(i.asset1, i.asset0)
    ensures i.amount0.Some? && i.amount1.Some? && 0 < i.amount0.value && 0 < i.amount1.value
    ensures var o := ExecuteDeposit(w, r, env, i).value; var id := Lookup(r, i.asset0, i.asset1);
      && id.Some? && id.value in w.pools && o.world.pools == w.pools[id.value := o.world.pools[id.value]]
      && Deposited(w.pools[id.value], o.world.pools[id.value], i.asset0, i.amount0.value, i.asset1, i.amount1.value,
                   i.recipient, o.amount)
      && 0 < o.amount && (i.minLp.Some? ==> i.minLp.value.Some? && i.minLp.value.value <= o.amount)
  {
    hide PreFund, AddLiquidity, Lookup, Less, Lower, Agree, NewAsset, RouterAsset, Readable;
    var pool := Lookup(r, i.asset0, i.asset1).value;
    PairOrder(r, w.pools, env.self, i.asset0, i.asset1);
    var l1 := PreFund(w.ledger, r, env, i.asset0, i.amount0, pool).value;
    var l2 := PreFund(l1, r, env, i.asset1, i.amount1, pool).value;
    DepositState(w.pools[pool], l2, PoolEnv(env, pool), DepositParams(i));
  }

  lemma PairOrder(r: Registry, pools: map<string, P.Pool>, router: string, x: string, y: string)
    requires Agree(r, pools, router) && Lookup(r, x, y).Some? && Lower(x) == x && Lower(y) == y && !Less(y, x)
    ensures var id := Lookup(r, x, y).value;
      && id in pools && id != router && pools[id].name0 == x && pools[id].name1 == y && x != y && Readable(pools[id])
      && Asset0(pools[id]) == Some(RouterAsset(r, x)) && Asset1(pools[id]) == Some(RouterAsset(r, y))
  {
    hide Less, Lower, NewAsset, RouterAsset;
  }

  // Every balance after a deposit: the caller pays both assets, the pool's account gets them.
  lemma DepositMoves(w: World, r: Registry, env: Env, i: Instruction)
    requires ExecuteDeposit(w, r, env, i).Some? && Agree(r, w.pools, env.self)
    requires Lower(i.asset0) == i.asset0 && Lower(i.asset1) == i.asset1 && !Less(i.asset1, i.asset0)
    ensures i.amount0.Some? && i.amount1.Some? && 0 < i.amount0.value && 0 < i.amount1.value
    ensures Lookup(r, i.asset0, i.asset1).Some?
    ensures var o := ExecuteDeposit(w, r, env, i).value; var acct := Acct(Lookup(r, i.asset0, i.asset1).value);
      var a, b, n, m := RouterAsset(r, i.asset0), RouterAsset(r, i.asset1), i.amount0.value, i.amount1.value;
      forall who, c ::
        Bal(o.world.ledger, who, c) == Bal(w.ledger, who, c)
        - At(who, c, env.caller, a, n) + At(who, c, acct, a, n) - At(who, c, env.caller, b, m) + At(who, c, acct, b, m)
  {
    hide PreFund, AddLiquidity, Lookup, Less, Lower, Agree, NewAsset, RouterAsset, Readable, Bal, Acct;
    var pool := Lookup(r, i.asset0, i.asset1).value;
    PairOrder(r, w.pools, env.self, i.asset0, i.asset1);
    PreFundBalances(w.ledger, r, env, i.asset0, i.amount0, pool);
    var l1 := PreFund(w.ledger, r, env, i.asset0, i.amount0, pool).value;
    PreFundBalances(l1, r, env, i.asset1, i.amount1, pool);
    var l2 := PreFund(l1, r, env, i.asset1, i.amount1, pool).value;
    DepositBalances(w.pools[pool], l2, PoolEnv(env, pool), DepositParams(i));
  }

  // End to end: a deposit takes from its caller exactly the amount of each asset it names for
  // that asset, adds it to that asset's reserve, and gives the shares to the recipient; no
  // other account and no other pool is touched.
  lemma DepositServesPeople(w: World, r: Registry, env: Env, instr: Instruction, ans: Answers)
    requires Execute(w, r, env, instr, ans).Some? && instr.kind == "deposit" && Agree(r, w.pools, env.self)
    ensures instr.amount0.Some? && instr.amount1.Some? && 0 < instr.amount0.value && 0 < instr.amount1.value
    ensures var x, y := Lower(instr.asset0), Lower(instr.asset1); var id := Lookup(r, x, y);
      var n, m := instr.amount0.value, instr.amount1.value; var o := Execute(w, r, env, instr, ans).value;
      && id.Some? && id.value in w.pools && o.world.pools == w.pools[id.value := o.world.pools[id.value]]
      && Deposited(w.pools[id.value], o.world.pools[id.value], x, n, y, m, instr.recipient, o.amount)
      && 0 < o.amount && (instr.minLp.Some? ==> instr.minLp.value.Some? && instr.minLp.value.value <= o.amount)
      && forall who, c ::
           Bal(o.world.ledger, who, c) == Bal(w.ledger, who, c)
           - At(who, c, env.caller, RouterAsset(r, x), n) + At(who, c, Acct(id.value), RouterAsset(r, x), n)
           - At(who, c, env.caller, RouterAsset(r, y), m) + At(who, c, Acct(id.value), RouterAsset(r, y), m)
  {
    var j := instr.(chain := HomeChain(instr.chain));
    var i := InPoolOrder(j);
    OrderedDeposit(j, i);
    assert Execute(w, r, env, instr, ans) == ExecuteDeposit(w, r, env, i);
    PairExact(i.asset0, i.asset1);
    DepositOnPool(w, r, env, i);
    DepositMoves(w, r, env, i);
    hide Execute, ExecuteDeposit, InPoolOrder, Lower, Less, Pair, Agree, RouterAsset, Bal, Acct, HomeChain, Reserve;
  }

  // ------------------------------------------------------------------ a withdrawal

  // What a withdrawal of n shares leaves behind: the holder's shares fall, each reserve falls
  // by its share, rounded down.
  ghost predicate Withdrawn(p: P.Pool, p': P.Pool, n: int, from: string) {
    && 0 < n <= Lp(p, from) && p'.totalLp == p.totalLp - n
    && (forall who :: Lp(p', who) == Lp(p, who) - (if who == from then n else 0))
    && p'.r0 <= p.r0 && p'.r1 <= p.r1
    && (p.r0 - p'.r0) * p.totalLp <= p.r0 * n < (p.r0 - p'.r0 + 1) * p.totalLp
    && (p.r1 - p'.r1) * p.totalLp <= p.r1 * n < (p.r1 - p'.r1 + 1) * p.totalLp
    && p' == p.(r0 := p'.r0, r1 := p'.r1, totalLp := p'.totalLp, lp := p'.lp)
  }

  lemma WithdrawalOnPool(w: World, r: Registry, env: Env, i: Instruction)
    requires ExecuteWithdrawal(w, r, env, i).Some? && Agree(r, w.pools, env.self)
    requires Lower(i.asset0) == i.asset0 && Lower(i.asset1) == i.asset1 && !Less(i.asset1, i.asset0)
    ensures var o := ExecuteWithdrawal(w, r, env, i).value; var id := Lookup(r, i.asset0, i.asset1);
      && id.Some? && id.value in w.pools && o.world.pools == w.pools[id.value := o.world.pools[id.value]]
      && i.lpAmount.Some? && i.recipient == env.caller
      && Withdrawn(w.pools[id.value], o.world.pools[id.value], i.lpAmount.value, i.recipient)
  {
    hide RemoveLiquidity, Lookup, Less, Lower, Agree, NewAsset, RouterAsset, Readable;
    var pool := Lookup(r, i.asset0, i.asset1).value;
    PairOrder(r, w.pools, env.self, i.asset0, i.asset1);
    WithdrawalState(w.pools[pool], w.ledger, PoolEnv(env, pool), RemoveParams(i.lpAmount, i.recipient));
  }

  // n of a and m of b go from one account to another, and no other balance changes.
  ghost predicate PaysBoth(l: Ledger, l': Ledger, from: string, to: string, a: AssetId, n: int, b: AssetId, m: int) {
    0 <= n && 0 <= m && forall who, c ::
      Bal(l', who, c) == Bal(l, who, c) - At(who, c, from, a, n) + At(who, c, to, a, n)
                         - At(who, c, from, b, m) + At(who, c, to, b, m)
  }

  lemma EitherOrder(l: Ledger, l': Ledger, from: string, to: string, a: AssetId, n: int, b: AssetId, m: int)
    requires PaysBoth(l, l', from, to, a, n, b, m)
    ensures PaysBoth(l, l', from, to, b, m, a, n)
  {
    hide Bal;
  }

  lemma WithdrawalMoves(w: World, r: Registry, env: Env, i: Instruction)
    requires ExecuteWithdrawal(w, r, env, i).Some? && Agree(r, w.pools, env.self)
    requires Lower(i.asset0) == i.asset0 && Lower(i.asset1) == i.asset1 && !Less(i.asset1, i.asset0)
    ensures Lookup(r, i.asset0, i.asset1).Some? && Lookup(r, i.asset0, i.asset1).value in w.pools
    ensures var o := ExecuteWithdrawal(w, r, env, i).value; var id := Lookup(r, i.asset0, i.asset1).value;
      && id in o.world.pools
      && PaysBoth(w.ledger, o.world.ledger, Acct(id), i.recipient,
                  RouterAsset(r, i.asset0), Reserve(w.pools[id], i.asset0) - Reserve(o.world.pools[id], i.asset0),
                  RouterAsset(r, i.asset1), Reserve(w.pools[id], i.asset1) - Reserve(o.world.pools[id], i.asset1))
  {
    hide RemoveLiquidity, Lookup, Less, Lower, Agree, NewAsset, RouterAsset, Readable, Bal, Acct;
    var pool := Lookup(r, i.asset0, i.asset1).value;
    PairOrder(r, w.pools, env.self, i.asset0, i.asset1);
    WithdrawalState(w.pools[pool], w.ledger, PoolEnv(env, pool), RemoveParams(i.lpAmount, i.recipient));
    WithdrawalBalances(w.pools[pool], w.ledger, PoolEnv(env, pool), RemoveParams(i.lpAmount, i.recipient));
    var p, p' := w.pools[pool], ExecuteWithdrawal(w, r, env, i).value.world.pools[pool];
    assert Reserve(p, i.asset0) == p.r0 && Reserve(p, i.asset1) == p.r1;
    assert Reserve(p', i.asset0) == p'.r0 && Reserve(p', i.asset1) == p'.r1;
    assert Kept(p, i.asset0) == Some(RouterAsset(r, i.asset0)) && Kept(p, i.asset1) == Some(RouterAsset(r, i.asset1));
    assert "contract:" + pool == Acct(pool) by { AcctIs(pool); }
  }

  lemma AcctIs(id: string)
    ensures Acct(id) == "contract:" + id
  {
  }

  // The instruction as it reaches the pool.
  lemma WithdrawalRouted(w: World, r: Registry, env: Env, instr: Instruction, ans: Answers, i: Instruction)
    requires Execute(w, r, env, instr, ans).Some? && instr.kind == "withdrawal"
    requires i == InPoolOrder(instr.(chain := HomeChain(instr.chain)))
    ensures Execute(w, r, env, instr, ans) == ExecuteWithdrawal(w, r, env, i)
    ensures Lookup(r, i.asset0, i.asset1) == Lookup(r, Lower(instr.asset0), Lower(instr.asset1))
  {
    hide ExecuteWithdrawal, Lower, Less, Pair, HomeChain;
    OrderedDeposit(instr.(chain := HomeChain(instr.chain)), i);
    PairExact(i.asset0, i.asset1);
  }

  // End to end: a withdrawal burns the caller's own shares, and each reserve of the pool falls
  // by their part of it; no other pool is touched.
  lemma WithdrawalBurns(w: World, r: Registry, env: Env, instr: Instruction, ans: Answers)
    requires Execute(w, r, env, instr, ans).Some? && instr.kind == "withdrawal" && Agree(r, w.pools, env.self)
    ensures var id := Lookup(r, Lower(instr.asset0), Lower(instr.asset1)); var o :=
      Execute(w, r, env, instr, ans).value;
      && id.Some? && id.value in w.pools && o.world.pools == w.pools[id.value := o.world.pools[id.value]]
      && instr.lpAmount.Some?
      && Withdrawn(w.pools[id.value], o.world.pools[id.value], instr.lpAmount.value, env.caller)
  {
    var i := InPoolOrder(instr.(chain := HomeChain(instr.chain)));
    OrderedDeposit(instr.(chain := HomeChain(instr.chain)), i);
    WithdrawalRouted(w, r, env, instr, ans, i);
    hide Execute, ExecuteWithdrawal, InPoolOrder, Lower, Less, Agree, HomeChain, Lookup, Withdrawn;
    WithdrawalOnPool(w, r, env, i);
  }

  // And it pays the caller, of each asset, what the pool's reserve of it loses, out of the
  // pool's account; no other account is touched.
  lemma WithdrawalServesPeople(w: World, r: Registry, env: Env, instr: Instruction, ans: Answers)
    requires Execute(w, r, env, instr, ans).Some? && instr.kind == "withdrawal" && Agree(r, w.pools, env.self)
    ensures Lookup(r, Lower(instr.asset0), Lower(instr.asset1)).Some?
    ensures var x, y := Lower(instr.asset0), Lower(instr.asset1); var id := Lookup(r, x, y).value;
      var o := Execute(w, r, env, instr, ans).value;
      && id in w.pools && id in o.world.pools
      && PaysBoth(w.ledger, o.world.ledger, Acct(id), env.caller,
                  RouterAsset(r, x), Reserve(w.pools[id], x) - Reserve(o.world.pools[id], x),
                  RouterAsset(r, y), Reserve(w.pools[id], y) - Reserve(o.world.pools[id], y))
  {
    hide Execute, ExecuteWithdrawal, InPoolOrder, Lower, Less, Agree, RouterAsset, Acct, HomeChain, Reserve, Lookup,
         Withdrawn, PaysBoth;
    var i := InPoolOrder(instr.(chain := HomeChain(instr.chain)));
    OrderedDeposit(instr.(chain := HomeChain(instr.chain)), i);
    WithdrawalRouted(w, r, env, instr, ans, i);
    WithdrawalOnPool(w, r, env, i);
    WithdrawalMoves(w, r, env, i);
    var id, o := Lookup(r, i.asset0, i.asset1).value, Execute(w, r, env, instr, ans).value;
    EitherOrder(w.ledger, o.world.ledger, Acct(id), env.caller,
                RouterAsset(r, i.asset0), Reserve(w.pools[id], i.asset0) - Reserve(o.world.pools[id], i.asset0),
                RouterAsset(r, i.asset1), Reserve(w.pools[id], i.asset1) - Reserve(o.world.pools[id], i.asset1));
  }

  // ------------------------------------------------------------------ a swap

  // One swap the router drives on a registered pool: the pool changes as the host's answer
  // says, the minimum holds, the output goes to the recipient and the referral's part of it to
  // the beneficiary.
  lemma HopExact(w: World, r: Registry, env: Env, pool: string, q: SwapParams, reply: Reply)
    requires PoolSwap(w, env, pool, q, reply).Some? && q.preDeposited && Agree(r, w.pools, env.self)
    requires Lower(q.assetIn) == q.assetIn && Lower(q.assetOut) == q.assetOut
    requires Lookup(r, q.assetIn, q.assetOut) == Some(pool)
    ensures var o := PoolSwap(w, env, pool, q, reply).value;
      && o.world.pools == w.pools[pool := o.world.pools[pool]]
      && Swapped(w.pools[pool], o.world.pools[pool], q.assetIn, q.assetOut, reply)
      && reply.user.Some? && o.amount + ReferralPart(q, reply) == reply.user.value - Unit(reply)
      && (q.minOut.Some? ==> q.minOut.value.Some? && q.minOut.value.value <= o.amount)
      && (q.beneficiary.Some? && q.refBps.Some? ==> q.refBps.value <= 10000)
  {
    hide Swap, Agree, Lookup, Lower, Reserve, Bucket, ReferralPart, Readable, Kept, RouterAsset;
    RegisteredPool(r, w.pools, env.self, q.assetIn, q.assetOut);
    SwapState(w.pools[pool], w.ledger, PoolEnv(env, pool), q, reply);
    SwapConditions(w.pools[pool], w.ledger, PoolEnv(env, pool), q, reply);
  }

  lemma HopPerson(w: World, r: Registry, env: Env, pool: string, q: SwapParams, reply: Reply, who: string)
    requires PoolSwap(w, env, pool, q, reply).Some? && q.preDeposited && Agree(r, w.pools, env.self)
    requires Lower(q.assetIn) == q.assetIn && Lower(q.assetOut) == q.assetOut
    requires Lookup(r, q.assetIn, q.assetOut) == Some(pool) && who != Acct(pool) && who != NODES
    ensures reply.user.Some?
    ensures var o := PoolSwap(w, env, pool, q, reply).value; var a := RouterAsset(r, q.assetOut);
      forall b ::
        Bal(o.world.ledger, who, b) == Bal(w.ledger, who, b) + At(who, b, q.to, a, o.amount)
        + (if q.beneficiary.Some? then At(who, b, q.beneficiary.value, a, ReferralPart(q, reply)) else 0)
  {
    hide Swap, Agree, Lookup, Lower, Reserve, Bucket, ReferralPart, Readable, Kept, RouterAsset, Bal, Acct;
    RegisteredPool(r, w.pools, env.self, q.assetIn, q.assetOut);
    AcctIs(pool);
    SwapBalances(w.pools[pool], w.ledger, PoolEnv(env, pool), q, reply);
  }

  // The referral is its basis-point share, rounded down, of what is paid out.
  lemma ReferralShare(q: SwapParams, reply: Reply, amount: nat)
    requires reply.user.Some? && amount + ReferralPart(q, reply) == reply.user.value - Unit(reply)
    ensures var ref := ReferralPart(q, reply);
      if q.beneficiary.Some? && q.refBps.Some?
      then 10000 * ref <= q.refBps.value * (amount + ref) < 10000 * (ref + 1)
      else ref == 0
  {
    if q.beneficiary.Some? && q.refBps.Some? {
      Newton.DivBounds((reply.user.value - Unit(reply)) * q.refBps.value, 10000);
    }
  }

  // The pools after a swap: only those of its route change, each as the host's answer to its
  // own hop says; over two hops the first meets the intermediate minimum.
  ghost predicate RouteTaken(w: World, w': World, r: Registry, i: Instruction, ans: Answers) {
    var direct, pool1, pool2 := Lookup(r, i.assetIn, i.assetOut), Lookup(r, i.assetIn, HBD), Lookup(r, HBD, i.assetOut);
    if direct.Some? then
      && direct.value in w.pools && direct.value in w'.pools
      && w'.pools == w.pools[direct.value := w'.pools[direct.value]]
      && Swapped(w.pools[direct.value], w'.pools[direct.value], i.assetIn, i.assetOut, ans.first)
    else
      && pool1.Some? && pool2.Some? && pool1 != pool2 && pool1.value in w.pools && pool2.value in w.pools
      && pool1.value in w'.pools && pool2.value in w'.pools
      && w'.pools == w.pools[pool1.value := w'.pools[pool1.value]][pool2.value := w'.pools[pool2.value]]
      && Swapped(w.pools[pool1.value], w'.pools[pool1.value], i.assetIn, HBD, ans.first)
      && Swapped(w.pools[pool2.value], w'.pools[pool2.value], HBD, i.assetOut, ans.second)
      && (i.minIntermediate.Some? ==>
            && i.minIntermediate.value.Some? && ans.first.user.Some?
            && i.minIntermediate.value.value <= ans.first.user.value - Unit(ans.first))
  }

  // A person's balances after a swap: the input if it is the caller, the output if it is the
  // recipient on the home chain, the referral if it is the beneficiary.
  ghost predicate PaidExactly(w: World, w': World, r: Registry, env: Env, i: Instruction, who: string, amount: nat,
                              ref: nat) {
    var a, b := RouterAsset(r, Lower(i.assetIn)), RouterAsset(r, Lower(i.assetOut));
    && i.amountIn.Some? && 0 < i.amountIn.value
    && (forall c ::
          Bal(w'.ledger, who, c) == Bal(w.ledger, who, c) - At(who, c, env.caller, a, i.amountIn.value)
          + (if i.chain == "" then At(who, c, i.recipient, b, amount) else 0)
          + (if i.beneficiary.Some? then At(who, c, i.beneficiary.value, b, ref) else 0))
  }

  ghost predicate ReferralOf(i: Instruction, amount: nat, ref: nat) {
    if i.beneficiary.Some? && i.refBps.Some?
    then i.refBps.value <= 10000 && 10000 * ref <= i.refBps.value * (amount + ref) < 10000 * (ref + 1)
    else ref == 0
  }

  lemma LastSwapExact(w: World, r: Registry, env: Env, pool: string, q: SwapParams, reply: Reply, i: Instruction,
                      ans: Answers, who: string)
    requires PoolSwap(w, env, pool, q, reply).Some? && q.preDeposited && q.to == SwapRecipient(env, i)
    requires SettleOutcome(PoolSwap(w, env, pool, q, reply).value, r, env, i, ans).Some?
    requires Agree(r, w.pools, env.self) && Lookup(r, q.assetIn, q.assetOut) == Some(pool)
    requires Lower(q.assetIn) == q.assetIn && Lower(q.assetOut) == q.assetOut && q.assetOut == i.assetOut
    requires who != Acct(pool) && who != NODES && who != Acct(env.self) && q.beneficiary == i.beneficiary
    ensures reply.user.Some?
    ensures var o := SettleOutcome(PoolSwap(w, env, pool, q, reply).value, r, env, i, ans).value;
      var a := RouterAsset(r, q.assetOut);
      && o.amount == PoolSwap(w, env, pool, q, reply).value.amount
      && o.world.pools == PoolSwap(w, env, pool, q, reply).value.world.pools
      && forall b ::
           Bal(o.world.ledger, who, b) == Bal(w.ledger, who, b)
           + (if i.chain == "" then At(who, b, i.recipient, a, o.amount) else 0)
           + (if i.beneficiary.Some? then At(who, b, i.beneficiary.value, a, ReferralPart(q, reply)) else 0)
  {
    hide PoolSwap, Bal, Agree, Lookup, RouterAsset, SettleToChain, Lower, Acct, ReferralPart;
    var o := PoolSwap(w, env, pool, q, reply).value;
    HopPerson(w, r, env, pool, q, reply, who);
    AgreeOnNative(r, w.pools, env.self, q.assetIn, q.assetOut);
    if i.chain != "" {
      SettleBalances(o.world.ledger, r, env, i.assetOut, o.amount, i.recipient, i.chain, ans.info, i.maxFee,
                     ans.outFee);
    }
  }

  lemma DirectExact(w: World, r: Registry, env: Env, pool: string, i: Instruction, ans: Answers, who: string)
    returns (ref: nat)
    requires DirectSwap(w, r, env, pool, i, ans).Some? && Agree(r, w.pools, env.self) && Person(w, env, who)
    requires Lookup(r, i.assetIn, i.assetOut) == Some(pool)
    requires Lower(i.assetIn) == i.assetIn && Lower(i.assetOut) == i.assetOut
    ensures var o := DirectSwap(w, r, env, pool, i, ans).value;
      PaidExactly(w, o.world, r, env, i, who, o.amount, ref) && ReferralOf(i, o.amount, ref)
      && RouteTaken(w, o.world, r, i, ans)
  {
    hide PreFund, PoolSwap, Bal, Agree, Lookup, RouterAsset, SettleOutcome, Lower, Acct, ReferralPart, Swapped, Unit;
    AgreeOnSwap(r, w.pools, env.self, i.assetIn, i.assetOut);
    PreFundBalances(w.ledger, r, env, i.assetIn, i.amountIn, pool);
    var w1 := w.(ledger := PreFund(w.ledger, r, env, i.assetIn, i.amountIn, pool).value);
    var q := DirectParams(env, i);
    HopExact(w1, r, env, pool, q, ans.first);
    LastSwapExact(w1, r, env, pool, q, ans.first, i, ans, who);
    ref := ReferralPart(q, ans.first);
    ReferralShare(q, ans.first, PoolSwap(w1, env, pool, q, ans.first).value.amount);
  }

  lemma TwoHopExact(w: World, r: Registry, env: Env, pool1: string, pool2: string, i: Instruction, ans: Answers,
                    who: string)
    returns (ref: nat)
    requires TwoHopSwap(w, r, env, pool1, pool2, i, ans).Some? && Agree(r, w.pools, env.self) && Person(w, env, who)
    requires Lookup(r, i.assetIn, i.assetOut).None?
    requires Lookup(r, i.assetIn, HBD) == Some(pool1) && Lookup(r, HBD, i.assetOut) == Some(pool2)
    requires Lower(i.assetIn) == i.assetIn && Lower(i.assetOut) == i.assetOut && i.assetIn != i.assetOut
    ensures var o := TwoHopSwap(w, r, env, pool1, pool2, i, ans).value;
      PaidExactly(w, o.world, r, env, i, who, o.amount, ref) && ReferralOf(i, o.amount, ref)
      && RouteTaken(w, o.world, r, i, ans)
  {
    hide PreFund, PoolSwap, Bal, Agree, Lookup, RouterAsset, SettleOutcome, Lower, Acct, ReferralPart, Swapped, Unit,
         Move;
    HbdIsLower();
    AgreeOnSwap(r, w.pools, env.self, i.assetIn, HBD);
    AgreeOnSwap(r, w.pools, env.self, HBD, i.assetOut);
    DifferentPools(r, w.pools, env.self, i.assetIn, i.assetOut);
    PreFundBalances(w.ledger, r, env, i.assetIn, i.amountIn, pool1);
    var w1 := w.(ledger := PreFund(w.ledger, r, env, i.assetIn, i.amountIn, pool1).value);
    var q1 := FirstHop(env, i);
    var o := PoolSwap(w1, env, pool1, q1, ans.first).value;
    HopExact(w1, r, env, pool1, q1, ans.first);
    HopPerson(w1, r, env, pool1, q1, ans.first, who);
    NoReferral(q1, ans.first);
    SwapKeepsAgree(w1, r, env, pool1, q1, ans.first);
    HandOverExact(o, r, env, pool2, i, ans, who);
    ref := ReferralPart(SecondHop(env, i, o.amount), ans.second);
  }

  lemma NoReferral(q: SwapParams, reply: Reply)
    requires q.beneficiary.None? && reply.user.Some?
    ensures ReferralPart(q, reply) == 0
  {
  }

  lemma HandOverExact(o: Outcome, r: Registry, env: Env, pool2: string, i: Instruction, ans: Answers, who: string)
    requires HandOver(o, r, env, pool2, i, ans).Some? && Agree(r, o.world.pools, env.self)
    requires Lookup(r, HBD, i.assetOut) == Some(pool2) && Lower(i.assetOut) == i.assetOut
    requires who != Acct(pool2) && who != NODES && who != Acct(env.self)
    ensures ans.second.user.Some?
    ensures pool2 in o.world.pools
    ensures var o2 := HandOver(o, r, env, pool2, i, ans).value;
      var ref := ReferralPart(SecondHop(env, i, o.amount), ans.second); var a := RouterAsset(r, i.assetOut);
      && pool2 in o2.world.pools
      && o2.world.pools == o.world.pools[pool2 := o2.world.pools[pool2]] && ReferralOf(i, o2.amount, ref)
      && Swapped(o.world.pools[pool2], o2.world.pools[pool2], HBD, i.assetOut, ans.second)
      && forall b ::
           Bal(o2.world.ledger, who, b) == Bal(o.world.ledger, who, b)
           + (if i.chain == "" then At(who, b, i.recipient, a, o2.amount) else 0)
           + (if i.beneficiary.Some? then At(who, b, i.beneficiary.value, a, ref) else 0)
  {
    hide PoolSwap, Bal, Agree, Lookup, RouterAsset, SettleOutcome, Lower, Acct, ReferralPart, Swapped, Unit, Move;
    HbdIsLower();
    AgreeOnSwap(r, o.world.pools, env.self, HBD, i.assetOut);
    MoveBalances(o.world.ledger, Acct(env.self), Acct(pool2), Native(HBD), o.amount);
    var w2 := o.world.(ledger := Move(o.world.ledger, Acct(env.self), Acct(pool2), Native(HBD), o.amount).value);
    var q := SecondHop(env, i, o.amount);
    HopExact(w2, r, env, pool2, q, ans.second);
    LastSwapExact(w2, r, env, pool2, q, ans.second, i, ans, who);
    ReferralShare(q, ans.second, PoolSwap(w2, env, pool2, q, ans.second).value.amount);
  }

  // End to end: a swap goes through the pool of its pair, or else through the pools of both
  // assets with HBD, and changes no other pool; every person's balances end exactly with the
  // input paid, the output received and the referral's basis-point share of what is paid out.
  lemma SwapExact(w: World, r: Registry, env: Env, instr: Instruction, ans: Answers, who: string) returns (ref: nat)
    requires Execute(w, r, env, instr, ans).Some? && instr.kind == "swap"
    requires Agree(r, w.pools, env.self) && Person(w, env, who)
    ensures var o := Execute(w, r, env, instr, ans).value;
      var i := instr.(assetIn := Lower(instr.assetIn), assetOut := Lower(instr.assetOut),
                      chain := HomeChain(instr.chain));
      PaidExactly(w, o.world, r, env, i, who, o.amount, ref) && ReferralOf(i, o.amount, ref)
      && RouteTaken(w, o.world, r, i, ans)
  {
    LowerTwice(instr.assetIn);
    LowerTwice(instr.assetOut);
    var i := instr.(assetIn := Lower(instr.assetIn), assetOut := Lower(instr.assetOut),
                    chain := HomeChain(instr.chain));
    hide DirectSwap, TwoHopSwap, Lower, Upper, Agree, Bal, Acct, Lookup, HomeChain, RouterAsset, PaidExactly,
         ReferralOf,
         RouteTaken;
    var direct := Lookup(r, i.assetIn, i.assetOut);
    if direct.Some? {
      ref := DirectExact(w, r, env, direct.value, i, ans, who);
    } else {
      ref := TwoHopExact(w, r, env, Lookup(r, i.assetIn, HBD).value, Lookup(r, HBD, i.assetOut).value, i, ans, who);
    }
  }
}
