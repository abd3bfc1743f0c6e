/** All pools, the router and the ledger together: solvency of one execute and of whole runs. */
module Worlds {
  import opened Text
  import opened Bank
  import opened P = Pool
  import opened PoolCalls
  import opened Solvency
  import opened Registry
  import opened Routing
  import opened RouterProperties

  // ------------------------------------------------------------------ slack across pools

  function WorldSlack(w: World, id: string, side0: bool): int
    requires id in w.pools
  {
    Slack(w.pools[id], w.ledger, id, side0)
  }

  // An amount expected on one pool's sides and on no other pool's.
  function Pending(id: string, side0: bool, pool: string, in0: int, in1: int): int {
    if id != pool then 0 else if side0 then in0 else in1
  }

  // From w to w' every pool's slack grows at least by what is pending on it; that of the
  // pools in exact by exactly that.
  ghost predicate SlackAfter(w: World, w': World, pool: string, in0: int, in1: int, exact: set<string>) {
    && w'.pools.Keys == w.pools.Keys
    && (forall id {:trigger w'.pools[id]} :: id in w.pools ==> SameAssets(w.pools[id], w'.pools[id]))
    && (forall id, side0 {:trigger WorldSlack(w', id, side0)} :: id in w.pools ==>
          var due := WorldSlack(w, id, side0) + Pending(id, side0, pool, in0, in1);
          due <= WorldSlack(w', id, side0) && (id in exact ==> due == WorldSlack(w', id, side0)))
  }

  ghost predicate SlackKept(w: World, w': World, exact: set<string>) {
    SlackAfter(w, w', "", 0, 0, exact)
  }

  lemma SlackChain(w: World, w1: World, w2: World, pool: string, a0: int, a1: int, b0: int, b1: int, exact: set<string>)
    requires SlackAfter(w, w1, pool, a0, a1, exact) && SlackAfter(w1, w2, pool, b0, b1, exact)
    ensures SlackAfter(w, w2, pool, a0 + b0, a1 + b1, exact)
  {
    hide WorldSlack, SameAssets;
    forall id | id in w.pools ensures SameAssets(w.pools[id], w2.pools[id]) {
      assert SameAssets(w.pools[id], w1.pools[id]) && SameAssets(w1.pools[id], w2.pools[id]);
      SameAssetsTransitive(w.pools[id], w1.pools[id], w2.pools[id]);
    }
    forall id, side0 | id in w.pools
      ensures var due := WorldSlack(w, id, side0) + Pending(id, side0, pool, a0 + b0, a1 + b1);
        due <= WorldSlack(w2, id, side0) && (id in exact ==> due == WorldSlack(w2, id, side0))
    {
      assert id in w1.pools;
      assert WorldSlack(w1, id, side0) == WorldSlack(w1, id, side0);
    }
  }

  lemma SameAssetsTransitive(p: P.Pool, q: P.Pool, r: P.Pool)
    requires SameAssets(p, q) && SameAssets(q, r)
    ensures SameAssets(p, r)
  {
  }

  // Two slack changes of nothing pending.
  lemma SlackJoin(w: World, w1: World, w2: World, exact: set<string>)
    requires SlackKept(w, w1, exact) && SlackKept(w1, w2, exact)
    ensures SlackKept(w, w2, exact)
  {
    SlackChain(w, w1, w2, "", 0, 0, 0, 0, exact);
  }

  // Nothing pending names no pool.
  lemma NothingPending(w: World, w': World, pool: string, other: string, exact: set<string>)
    requires SlackAfter(w, w', pool, 0, 0, exact)
    ensures SlackAfter(w, w', other, 0, 0, exact)
  {
    hide WorldSlack, SameAssets;
    forall id, side0 ensures Pending(id, side0, pool, 0, 0) == Pending(id, side0, other, 0, 0) { }
  }

  // Funds of one asset arriving in one pool's account.
  lemma FundSlack(w: World, l: Ledger, pool: string, a: AssetId, n: nat)
    requires pool in w.pools
    requires forall id, b :: id in w.pools ==>
      Bal(l, Acct(id), b) == Bal(w.ledger, Acct(id), b) + At(Acct(id), b, Acct(pool), a, n)
    ensures SlackAfter(w, w.(ledger := l), pool,
              if SideAsset(w.pools[pool], true) == Some(a) then n else 0,
              if SideAsset(w.pools[pool], false) == Some(a) then n else 0, w.pools.Keys)
  {
    hide Bal, SideAsset, Owed, Acct;
    forall id, side0 | id in w.pools
      ensures WorldSlack(w.(ledger := l), id, side0) == WorldSlack(w, id, side0)
        + Pending(id, side0, pool, if SideAsset(w.pools[pool], true) == Some(a) then n else 0,
                                   if SideAsset(w.pools[pool], false) == Some(a) then n else 0)
    {
      AcctFacts(id, pool);
    }
  }

  // A balance change that touches no pool's account.
  lemma OutsideSlack(w: World, l: Ledger)
    requires forall id, b :: id in w.pools ==> Bal(l, Acct(id), b) == Bal(w.ledger, Acct(id), b)
    ensures SlackKept(w, w.(ledger := l), w.pools.Keys)
  {
    hide Bal, SideAsset, Owed, Acct;
  }

  function Called(w: World, id: string, d: Done): World {
    World(d.ledger, w.pools[id := d.pool])
  }

  // Accounts that act only through their own code: the caller of a call is not a pool.
  ghost predicate CallerOutside(w: World, caller: string) {
    forall id :: id in w.pools ==> Acct(id) != caller
  }

  // No pool of exact is among the payees.
  ghost predicate NoPoolPaid(w: World, exact: set<string>, payees: set<string>) {
    forall id :: id in w.pools && id in exact ==> Acct(id) !in payees
  }

  // One call on one pool: its own slack falls only by what the router brought, no other
  // pool's slack falls.
  lemma CallSlack(w: World, id: string, c: Call, exact: set<string>)
    requires id in w.pools && c.env.self == id && Readable(w.pools[id]) && HonestCall(w.pools[id], c)
    requires Step(w.pools[id], w.ledger, c).Some? && CallerOutside(w, c.env.caller)
    requires NoPoolPaid(w, exact, Payees(c))
    ensures var d := Step(w.pools[id], w.ledger, c).value; var p := w.pools[id];
      SlackAfter(w, Called(w, id, d), id, -Brought(p, c, true), -Brought(p, c, false), exact)
  {
    hide Step, Brought, Payees, Draws, Bal, Acct, Owed, SideAsset, SameAssets, HonestCall, Slack, OwnSlackKept,
         OthersKept, Readable;
    var p := w.pools[id];
    var d := Step(p, w.ledger, c).value;
    CallerElsewhere(w, id, c.env.caller);
    StepKept(p, w.ledger, c);
    var w' := Called(w, id, d);
    forall j | j in w.pools ensures SameAssets(w.pools[j], w'.pools[j]) {
      SameAssetsReflexive(w.pools[j]);
    }
    forall j, side0 | j in w.pools
      ensures var due := WorldSlack(w, j, side0) + Pending(j, side0, id, -Brought(p, c, true), -Brought(p, c, false));
        due <= WorldSlack(w', j, side0) && (j in exact ==> due == WorldSlack(w', j, side0))
    {
      if j == id {
        OwnSlack(p, w.ledger, c, d, side0);
      } else {
        OtherSlack(w, id, c, d, j, side0, exact);
      }
    }
  }

  lemma CallerElsewhere(w: World, id: string, caller: string)
    requires id in w.pools && CallerOutside(w, caller)
    ensures caller != Acct(id)
  {
  }

  lemma OtherSlack(w: World, id: string, c: Call, d: Done, j: string, side0: bool, exact: set<string>)
    requires j in w.pools && j != id && c.env.self == id && OthersKept(w.ledger, c, d) && CallerOutside(w, c.env.caller)
    requires NoPoolPaid(w, exact, Payees(c))
    ensures Slack(w.pools[j], w.ledger, j, side0) <= Slack(w.pools[j], d.ledger, j, side0)
    ensures j in exact ==> Slack(w.pools[j], w.ledger, j, side0) == Slack(w.pools[j], d.ledger, j, side0)
  {
    hide Payees, Draws, Bal, Acct, Owed, SideAsset;
    AcctFacts(j, id);
    if SideAsset(w.pools[j], side0).Some? {
      var a := SideAsset(w.pools[j], side0).value;
      assert Bal(w.ledger, Acct(j), a) <= Bal(d.ledger, Acct(j), a);
    }
  }

  lemma OwnSlack(p: P.Pool, l: Ledger, c: Call, d: Done, side0: bool)
    requires OwnSlackKept(p, l, c, d)
    ensures Slack(p, l, c.env.self, side0) - Brought(p, c, side0) <= Slack(d.pool, d.ledger, c.env.self, side0)
    ensures Acct(c.env.self) !in Payees(c) ==>
      Slack(p, l, c.env.self, side0) - Brought(p, c, side0) == Slack(d.pool, d.ledger, c.env.self, side0)
  {
  }

  lemma SameAssetsReflexive(p: P.Pool)
    ensures SameAssets(p, p)
  {
  }

  // ------------------------------------------------------------------ one execute

  // l is the ledger once n units of a have been brought into one pool's account.
  ghost predicate Funded(w: World, l: Ledger, pool: string, a: AssetId, n: nat) {
    forall id, b :: id in w.pools ==>
      Bal(l, Acct(id), b) == Bal(w.ledger, Acct(id), b) + At(Acct(id), b, Acct(pool), a, n)
  }

  lemma PreFundFunds(w: World, r: Registry, env: Env, asset: string, amount: Option<int>, pool: string)
    requires PreFund(w.ledger, r, env, asset, amount, pool).Some? && CallerOutside(w, env.caller)
    ensures amount.Some? && 0 < amount.value
    ensures Funded(w, PreFund(w.ledger, r, env, asset, amount, pool).value, pool, RouterAsset(r, Lower(asset)),
      amount.value)
  {
    PreFundBalances(w.ledger, r, env, asset, amount, pool);
    hide PreFund, Bal, Acct, RouterAsset, Lower;
  }

  lemma PayeesOfSwap(c: Call, q: SwapParams)
    requires c.SwapCall? && c.swap == q
    ensures Payees(c) == {q.to} + (if q.beneficiary.Some? then {q.beneficiary.value} else {})
  {
  }

  // A swap the router funds and makes: every pool is as solvent after it as before.
  lemma RoutedSwap(w: World, l: Ledger, r: Registry, env: Env, pool: string, q: SwapParams, reply: Reply,
                   exact: set<string>)
    requires q.preDeposited && q.amountIn.Some? && 0 <= q.amountIn.value
    requires Agree(r, w.pools, env.self) && Lookup(r, q.assetIn, q.assetOut) == Some(pool) && env.self !in w.pools
    requires Lower(q.assetIn) == q.assetIn && Lower(q.assetOut) == q.assetOut
    requires Funded(w, l, pool, RouterAsset(r, q.assetIn), q.amountIn.value)
    requires PoolSwap(w.(ledger := l), env, pool, q, reply).Some?
    requires pool in w.pools && HonestReply(w.pools[pool], PoolEnv(env, pool), q, reply)
    requires NoPoolPaid(w, exact, {q.to} + (if q.beneficiary.Some? then {q.beneficiary.value} else {}))
    ensures var o := PoolSwap(w.(ledger := l), env, pool, q, reply).value;
      SlackKept(w, o.world, exact) && Agree(r, o.world.pools, env.self)
  {
    hide Agree, Lookup, HonestReply, Readable, Payees, Acct, Bal, RouterAsset, SideAsset, Funded, SlackAfter, Swap,
         Brought, Lower, CallerOutside, Direction;
    var w1 := w.(ledger := l);
    var c := SwapCall(PoolEnv(env, pool), q, reply);
    var p := w.pools[pool];
    var a, n := RouterAsset(r, q.assetIn), q.amountIn.value;
    var in0, in1 := if SideAsset(p, true) == Some(a) then n else 0, if SideAsset(p, false) == Some(a) then n else 0;
    AgreeOnSwap(r, w.pools, env.self, q.assetIn, q.assetOut);
    RouterIsOutside(w1, env);
    PayeesOfSwap(c, q);
    SwapKeepsAgree(w1, r, env, pool, q, reply);
    FundedSlack(w, l, pool, a, n, in0, in1, exact);
    SwapSides(p, PoolEnv(env, pool), q, reply, l, r);
    CallSlack(w1, pool, c, exact);
    var w2 := Called(w1, pool, Step(p, l, c).value);
    SlackChain(w, w1, w2, pool, in0, in1, -Brought(p, c, true), -Brought(p, c, false), exact);
    NothingPending(w, w2, pool, "", exact);
  }

  lemma FundedSlack(w: World, l: Ledger, pool: string, a: AssetId, n: nat, in0: int, in1: int, exact: set<string>)
    requires pool in w.pools && Funded(w, l, pool, a, n)
    requires in0 == if SideAsset(w.pools[pool], true) == Some(a) then n else 0
    requires in1 == if SideAsset(w.pools[pool], false) == Some(a) then n else 0
    ensures SlackAfter(w, w.(ledger := l), pool, in0, in1, exact)
  {
    FundSlack(w, l, pool, a, n);
    SlackExact(w, w.(ledger := l), pool, in0, in1, exact);
  }

  lemma SlackExact(w: World, w': World, pool: string, in0: int, in1: int, exact: set<string>)
    requires SlackAfter(w, w', pool, in0, in1, w.pools.Keys)
    ensures SlackAfter(w, w', pool, in0, in1, exact)
  {
    hide WorldSlack, SameAssets;
  }

  lemma RouterIsOutside(w: World, env: Env)
    requires env.self !in w.pools
    ensures CallerOutside(w, Acct(env.self))
  {
    forall id | id in w.pools ensures Acct(id) != Acct(env.self) { AcctFacts(id, env.self); }
  }

  // What the router brought for a swap is what the pool counts as brought.
  lemma SwapSides(p: P.Pool, env: Env, q: SwapParams, reply: Reply, l: Ledger, r: Registry)
    requires Swap(p, l, env, q, reply).Some? && q.preDeposited && q.amountIn.Some? && Readable(p)
    requires Lower(q.assetIn) == q.assetIn && Lower(q.assetOut) == q.assetOut
    requires forall inIs0 :: Direction(p, q.assetIn, q.assetOut) == Some(inIs0) ==>
      SideAsset(p, inIs0) == Some(RouterAsset(r, q.assetIn))
    ensures var c := SwapCall(env, q, reply); forall side0 ::
      Brought(p, c, side0) == if SideAsset(p, side0) == Some(RouterAsset(r, q.assetIn)) then q.amountIn.value else 0
  {
    PlanFacts(p, env, q);
    hide MakePlan, PlanSettle, SwapLedger, NewAsset, RouterAsset, Lower, Direction;
    var plan := MakePlan(p, env, q).value;
    var c := SwapCall(env, q, reply);
    forall side0 ensures
      Brought(p, c, side0) == if SideAsset(p, side0) == Some(RouterAsset(r, q.assetIn)) then q.amountIn.value else 0
    {
      if side0 != plan.inIs0 { assert SideAsset(p, side0) != SideAsset(p, plan.inIs0); }
    }
  }

  // Settling on another chain touches no pool.
  lemma SettleSlack(o: Outcome, r: Registry, env: Env, i: Instruction, ans: Answers)
    requires SettleOutcome(o, r, env, i, ans).Some? && env.self !in o.world.pools
    requires Lower(i.assetOut) in HIVE_ASSETS ==> RouterAsset(r, Lower(i.assetOut)) == Native(Lower(i.assetOut))
    ensures SlackKept(o.world, SettleOutcome(o, r, env, i, ans).value.world, o.world.pools.Keys)
    ensures SettleOutcome(o, r, env, i, ans).value.world.pools == o.world.pools
  {
    RouterIsOutside(o.world, env);
    hide SettleToChain, Bal, Acct, RouterAsset, Lower, SlackAfter;
    if i.chain != "" {
      SettleBalances(o.world.ledger, r, env, i.assetOut, o.amount, i.recipient, i.chain, ans.info, i.maxFee,
                     ans.outFee);
      OutsideSlack(o.world, SettleOutcome(o, r, env, i, ans).value.world.ledger);
    } else {
      OutsideSlack(o.world, o.world.ledger);
    }
  }

  // A swap and its settlement.
  lemma LastSwapSlack(w: World, l: Ledger, r: Registry, env: Env, pool: string, q: SwapParams, reply: Reply,
                      i: Instruction, ans: Answers, exact: set<string>)
    requires q.preDeposited && q.amountIn.Some? && 0 <= q.amountIn.value && q.assetOut == i.assetOut
    requires Agree(r, w.pools, env.self) && Lookup(r, q.assetIn, q.assetOut) == Some(pool) && env.self !in w.pools
    requires Lower(q.assetIn) == q.assetIn && Lower(q.assetOut) == q.assetOut
    requires Funded(w, l, pool, RouterAsset(r, q.assetIn), q.amountIn.value)
    requires PoolSwap(w.(ledger := l), env, pool, q, reply).Some?
    requires SettleOutcome(PoolSwap(w.(ledger := l), env, pool, q, reply).value, r, env, i, ans).Some?
    requires pool in w.pools && HonestReply(w.pools[pool], PoolEnv(env, pool), q, reply)
    requires NoPoolPaid(w, exact, {q.to} + (if q.beneficiary.Some? then {q.beneficiary.value} else {}))
    ensures var o := SettleOutcome(PoolSwap(w.(ledger := l), env, pool, q, reply).value, r, env, i, ans).value;
      SlackKept(w, o.world, exact) && Agree(r, o.world.pools, env.self)
  {
    var o := PoolSwap(w.(ledger := l), env, pool, q, reply).value;
    RoutedSwap(w, l, r, env, pool, q, reply, exact);
    AgreeOnNative(r, w.pools, env.self, q.assetIn, q.assetOut);
    SettleSlack(o, r, env, i, ans);
    hide Agree, Lookup, HonestReply, Funded, SlackAfter, NoPoolPaid, Bal, Acct, Lower, SettleOutcome, RouterAsset;
    var w2 := SettleOutcome(o, r, env, i, ans).value.world;
    SlackExact(o.world, w2, "", 0, 0, exact);
    SlackJoin(w, o.world, w2, exact);
  }

  // The state of a two-hop swap after its first hop.
  function FirstOutcome(w: World, r: Registry, env: Env, pool1: string, i: Instruction, ans: Answers): Option<Outcome> {
    var l := PreFund(w.ledger, r, env, i.assetIn, i.amountIn, pool1);
    if l.None? then None else PoolSwap(w.(ledger := l.value), env, pool1, FirstHop(env, i), ans.first)
  }

  // The host answers each swap of an instruction honestly; the second hop is asked for what
  // the first one paid.
  ghost predicate HonestDirect(w: World, env: Env, pool: string, i: Instruction, ans: Answers) {
    pool in w.pools ==> HonestReply(w.pools[pool], PoolEnv(env, pool), DirectParams(env, i), ans.first)
  }

  ghost predicate HonestTwoHop(w: World, r: Registry, env: Env, pool1: string, pool2: string, i: Instruction,
                               ans: Answers) {
    var o := FirstOutcome(w, r, env, pool1, i, ans);
    && (pool1 in w.pools ==> HonestReply(w.pools[pool1], PoolEnv(env, pool1), FirstHop(env, i), ans.first))
    && (o.Some? && pool2 in o.value.world.pools ==>
          HonestReply(o.value.world.pools[pool2], PoolEnv(env, pool2), SecondHop(env, i, o.value.amount), ans.second))
  }

  ghost predicate HonestSwap(w: World, r: Registry, env: Env, instr: Instruction, ans: Answers) {
    var i := instr.(assetIn := Lower(instr.assetIn), assetOut := Lower(instr.assetOut));
    var direct, pool1, pool2 := Lookup(r, i.assetIn, i.assetOut), Lookup(r, i.assetIn, HBD), Lookup(r, HBD, i.assetOut);
    if direct.Some? then HonestDirect(w, env, direct.value, i, ans)
    else pool1.Some? && pool2.Some? ==> HonestTwoHop(w, r, env, pool1.value, pool2.value, i, ans)
  }

  ghost predicate HonestExecute(w: World, r: Registry, env: Env, instr: Instruction, ans: Answers) {
    instr.kind == "swap" ==> HonestSwap(w, r, env, instr.(chain := HomeChain(instr.chain)), ans)
  }

  function Beneficiaries(i: Instruction): set<string> {
    if i.beneficiary.Some? then {i.beneficiary.value} else {}
  }

  // The accounts an instruction pays on the ledger: none for a deposit, the recipient for a
  // withdrawal or a swap that stays on the home chain, and a swap's beneficiary.
  function PaidBy(i: Instruction): set<string> {
    if i.kind == "deposit" then {}
    else if i.kind == "withdrawal" then {i.recipient}
    else (if i.chain == "" then {i.recipient} else {}) + Beneficiaries(i)
  }

  // No pool of exact is paid by the instruction itself.
  ghost predicate PaysNoPool(w: World, exact: set<string>, i: Instruction) {
    NoPoolPaid(w, exact, PaidBy(i))
  }

  lemma RecipientOutside(w: World, exact: set<string>, env: Env, i: Instruction)
    requires env.self !in w.pools && i.kind == "swap" && PaysNoPool(w, exact, i)
    ensures NoPoolPaid(w, exact, {SwapRecipient(env, i)} + Beneficiaries(i))
  {
    RouterIsOutside(w, env);
    hide Acct;
  }

  lemma DirectSlack(w: World, r: Registry, env: Env, pool: string, i: Instruction, ans: Answers, exact: set<string>)
    requires i.kind == "swap" && DirectSwap(w, r, env, pool, i, ans).Some? && Agree(r, w.pools, env.self)
      && env.self !in w.pools
    requires Lookup(r, i.assetIn, i.assetOut) == Some(pool) && Lower(i.assetIn) == i.assetIn
      && Lower(i.assetOut) == i.assetOut
    requires CallerOutside(w, env.caller) && HonestDirect(w, env, pool, i, ans) && PaysNoPool(w, exact, i)
    ensures var o := DirectSwap(w, r, env, pool, i, ans).value;
      SlackKept(w, o.world, exact) && Agree(r, o.world.pools, env.self)
  {
    hide Agree, Lookup, HonestReply, Funded, SlackAfter, NoPoolPaid, Bal, Acct, Lower, SettleOutcome, RouterAsset,
         PreFund, PoolSwap, CallerOutside, PaysNoPool;
    AgreeOnSwap(r, w.pools, env.self, i.assetIn, i.assetOut);
    PreFundFunds(w, r, env, i.assetIn, i.amountIn, pool);
    RecipientOutside(w, exact, env, i);
    var l := PreFund(w.ledger, r, env, i.assetIn, i.amountIn, pool).value;
    LastSwapSlack(w, l, r, env, pool, DirectParams(env, i), ans.first, i, ans, exact);
  }

  // The first hop and the hand-over of its HBD to the second pool.
  lemma FirstHopSlack(w: World, r: Registry, env: Env, pool1: string, i: Instruction, ans: Answers, exact: set<string>)
    requires FirstOutcome(w, r, env, pool1, i, ans).Some? && Agree(r, w.pools, env.self) && env.self !in w.pools
    requires Lookup(r, i.assetIn, HBD) == Some(pool1) && Lower(i.assetIn) == i.assetIn
    requires CallerOutside(w, env.caller)
    requires pool1 in w.pools && HonestReply(w.pools[pool1], PoolEnv(env, pool1), FirstHop(env, i), ans.first)
    ensures var o := FirstOutcome(w, r, env, pool1, i, ans).value;
      SlackKept(w, o.world, exact) && Agree(r, o.world.pools, env.self)
  {
    hide Agree, Lookup, HonestReply, Funded, SlackAfter, Bal, Acct, Lower, RouterAsset, PreFund, PoolSwap,
         CallerOutside;
    HbdIsLower();
    PreFundFunds(w, r, env, i.assetIn, i.amountIn, pool1);
    RouterNotPaid(w, exact, env);
    var l := PreFund(w.ledger, r, env, i.assetIn, i.amountIn, pool1).value;
    RoutedSwap(w, l, r, env, pool1, FirstHop(env, i), ans.first, exact);
  }

  lemma RouterNotPaid(w: World, exact: set<string>, env: Env)
    requires env.self !in w.pools
    ensures NoPoolPaid(w, exact, {Acct(env.self)} + {})
  {
    RouterIsOutside(w, env);
    hide Acct;
  }

  lemma HandOverFunds(w: World, env: Env, pool2: string, n: nat)
    requires env.self !in w.pools && Move(w.ledger, Acct(env.self), Acct(pool2), Native(HBD), n).Some?
    ensures Funded(w, Move(w.ledger, Acct(env.self), Acct(pool2), Native(HBD), n).value, pool2, Native(HBD), n)
  {
    RouterIsOutside(w, env);
    MoveBalances(w.ledger, Acct(env.self), Acct(pool2), Native(HBD), n);
    hide Move, Bal, Acct;
  }

  lemma HandOverSlack(o: Outcome, r: Registry, env: Env, pool2: string, i: Instruction, ans: Answers,
                      exact: set<string>)
    requires i.kind == "swap" && HandOver(o, r, env, pool2, i, ans).Some? && Agree(r, o.world.pools, env.self)
      && env.self !in o.world.pools
    requires Lookup(r, HBD, i.assetOut) == Some(pool2) && Lower(i.assetOut) == i.assetOut
      && PaysNoPool(o.world, exact, i)
    requires pool2 in o.world.pools ==>
      HonestReply(o.world.pools[pool2], PoolEnv(env, pool2), SecondHop(env, i, o.amount), ans.second)
    ensures var o2 := HandOver(o, r, env, pool2, i, ans).value;
      SlackKept(o.world, o2.world, exact) && Agree(r, o2.world.pools, env.self)
  {
    hide Agree, Lookup, HonestReply, Funded, SlackAfter, NoPoolPaid, Bal, Acct, Lower, SettleOutcome, RouterAsset,
         PoolSwap, PaysNoPool, Move;
    HbdIsLower();
    AgreeOnSwap(r, o.world.pools, env.self, HBD, i.assetOut);
    AgreeOnNative(r, o.world.pools, env.self, HBD, i.assetOut);
    HandOverNeedsFunds(o, r, env, pool2, i, ans);
    HandOverFunds(o.world, env, pool2, o.amount);
    RecipientOutside(o.world, exact, env, i);
    var l := Move(o.world.ledger, Acct(env.self), Acct(pool2), Native(HBD), o.amount).value;
    LastSwapSlack(o.world, l, r, env, pool2, SecondHop(env, i, o.amount), ans.second, i, ans, exact);
  }

  lemma TwoHopSlack(w: World, r: Registry, env: Env, pool1: string, pool2: string, i: Instruction, ans: Answers,
                    exact: set<string>)
    requires i.kind == "swap" && TwoHopSwap(w, r, env, pool1, pool2, i, ans).Some? && Agree(r, w.pools, env.self)
      && env.self !in w.pools
    requires Lookup(r, i.assetIn, HBD) == Some(pool1) && Lookup(r, HBD, i.assetOut) == Some(pool2)
    requires Lower(i.assetIn) == i.assetIn && Lower(i.assetOut) == i.assetOut
    requires CallerOutside(w, env.caller) && HonestTwoHop(w, r, env, pool1, pool2, i, ans) && PaysNoPool(w, exact, i)
    ensures var o := TwoHopSwap(w, r, env, pool1, pool2, i, ans).value;
      SlackKept(w, o.world, exact) && Agree(r, o.world.pools, env.self)
  {
    hide Agree, Lookup, HonestReply, SlackAfter, Bal, Acct, Lower, HandOver, RouterAsset, PreFund, PoolSwap,
         CallerOutside;
    HbdIsLower();
    AgreeOnSwap(r, w.pools, env.self, i.assetIn, HBD);
    var o := FirstOutcome(w, r, env, pool1, i, ans).value;
    FirstHopSlack(w, r, env, pool1, i, ans, exact);
    SamePools(w, o.world, exact);
    HandOverSlack(o, r, env, pool2, i, ans, exact);
    SlackJoin(w, o.world, HandOver(o, r, env, pool2, i, ans).value.world, exact);
  }

  lemma SamePools(w: World, w': World, exact: set<string>)
    requires SlackKept(w, w', exact)
    ensures w'.pools.Keys == w.pools.Keys
    ensures forall id :: id in w'.pools <==> id in w.pools
  {
  }

  // A pair in the pool's order names the pool's sides in order.
  lemma AgreeOnPair(r: Registry, pools: map<string, P.Pool>, router: string, x: string, y: string)
    requires Agree(r, pools, router) && Lookup(r, x, y).Some? && Lower(x) == x && Lower(y) == y && !Less(y, x)
    ensures var id := Lookup(r, x, y).value;
      && id in pools && Readable(pools[id])
      && SideAsset(pools[id], true) == Some(RouterAsset(r, x)) && SideAsset(pools[id], false) == Some(RouterAsset(r, y))
  {
    hide Less, Lower, NewAsset, RouterAsset;
  }

  lemma DepositSlack(w: World, r: Registry, env: Env, i: Instruction, exact: set<string>)
    requires ExecuteDeposit(w, r, env, i).Some? && Agree(r, w.pools, env.self) && env.self !in w.pools
    requires Lower(i.asset0) == i.asset0 && Lower(i.asset1) == i.asset1 && !Less(i.asset1, i.asset0)
    requires CallerOutside(w, env.caller)
    ensures var o := ExecuteDeposit(w, r, env, i).value;
      SlackKept(w, o.world, exact) && Agree(r, o.world.pools, env.self)
  {
    hide Agree, Lookup, Readable, Payees, Acct, Bal, RouterAsset, SideAsset, Funded, SlackAfter, AddLiquidity, Lower,
         CallerOutside, PreFund, Less;
    var pool := Lookup(r, i.asset0, i.asset1).value;
    AgreeOnPair(r, w.pools, env.self, i.asset0, i.asset1);
    var p := w.pools[pool];
    var c := AddCall(PoolEnv(env, pool), DepositParams(i));
    PreFundFunds(w, r, env, i.asset0, i.amount0, pool);
    var n0 := i.amount0.value;
    var w1 := w.(ledger := PreFund(w.ledger, r, env, i.asset0, i.amount0, pool).value);
    OutsideAgain(w, w1, env.caller);
    PreFundFunds(w1, r, env, i.asset1, i.amount1, pool);
    var n1 := i.amount1.value;
    var w2 := w1.(ledger := PreFund(w1.ledger, r, env, i.asset1, i.amount1, pool).value);
    SidesApart(p);
    FundedSlack(w, w1.ledger, pool, RouterAsset(r, i.asset0), n0, n0, 0, exact);
    FundedSlack(w1, w2.ledger, pool, RouterAsset(r, i.asset1), n1, 0, n1, exact);
    SlackChain(w, w1, w2, pool, n0, 0, 0, n1, exact);
    RouterIsOutside(w2, env);
    NobodyPaid(w2, exact, c);
    CallSlack(w2, pool, c, exact);
    var w3 := Called(w2, pool, Step(p, w2.ledger, c).value);
    SlackChain(w, w2, w3, pool, n0, n1, -n0, -n1, exact);
    NothingPending(w, w3, pool, "", exact);
    CallKeepsAgree(w2, r, env.self, pool, c);
  }

  lemma OutsideAgain(w: World, w': World, caller: string)
    requires CallerOutside(w, caller) && w'.pools == w.pools
    ensures CallerOutside(w', caller)
  {
  }

  lemma SidesApart(p: P.Pool)
    requires Readable(p)
    ensures SideAsset(p, true) != SideAsset(p, false)
  {
  }

  lemma NobodyPaid(w: World, exact: set<string>, c: Call)
    requires c.AddCall?
    ensures NoPoolPaid(w, exact, Payees(c))
  {
  }

  lemma CallKeepsAgree(w: World, r: Registry, router: string, id: string, c: Call)
    requires id in w.pools && Step(w.pools[id], w.ledger, c).Some? && Agree(r, w.pools, router)
    ensures Agree(r, Called(w, id, Step(w.pools[id], w.ledger, c).value).pools, router)
  {
    StepKeepsNames(w.pools[id], w.ledger, c);
    hide Step, NewAsset, RouterAsset;
  }

  lemma StepKeepsNames(p: P.Pool, l: Ledger, c: Call)
    ensures var d := Step(p, l, c);
      d.Some? ==> (
        && d.value.pool.name0 == p.name0 && d.value.pool.name1 == p.name1
        && d.value.pool.map0 == p.map0 && d.value.pool.map1 == p.map1 && d.value.pool.curve == p.curve
        && d.value.pool.router == p.router)
  {
    hide Settle, SwapLedger, MakePlan, Move, Minted, PayFee;
  }

  lemma WithdrawalSlack(w: World, r: Registry, env: Env, i: Instruction, exact: set<string>)
    requires ExecuteWithdrawal(w, r, env, i).Some? && Agree(r, w.pools, env.self) && env.self !in w.pools
    requires Lower(i.asset0) == i.asset0 && Lower(i.asset1) == i.asset1 && NoPoolPaid(w, exact, {i.recipient})
    ensures var o := ExecuteWithdrawal(w, r, env, i).value;
      SlackKept(w, o.world, exact) && Agree(r, o.world.pools, env.self)
  {
    hide Agree, Lookup, Readable, Acct, Bal, RouterAsset, SideAsset, SlackAfter, RemoveLiquidity, Lower,
         CallerOutside, NoPoolPaid;
    var pool := Lookup(r, i.asset0, i.asset1).value;
    AgreeOnSwap(r, w.pools, env.self, i.asset0, i.asset1);
    var c := RemoveCall(PoolEnv(env, pool), RemoveParams(i.lpAmount, i.recipient));
    RouterIsOutside(w, env);
    CallSlack(w, pool, c, exact);
    NothingPending(w, Called(w, pool, Step(w.pools[pool], w.ledger, c).value), pool, "", exact);
    CallKeepsAgree(w, r, env.self, pool, c);
  }

  // One execute with an honest host: no pool loses slack on either side, and none gains any
  // unless the instruction pays a pool's own account.
  lemma ExecuteSlack(w: World, r: Registry, env: Env, instr: Instruction, ans: Answers, exact: set<string>)
    requires Execute(w, r, env, instr, ans).Some? && Agree(r, w.pools, env.self) && env.self !in w.pools
    requires CallerOutside(w, env.caller) && HonestExecute(w, r, env, instr, ans)
      && PaysNoPool(w, exact, instr.(chain := HomeChain(instr.chain)))
    ensures var o := Execute(w, r, env, instr, ans).value;
      SlackKept(w, o.world, exact) && Agree(r, o.world.pools, env.self)
  {
    var i := instr.(chain := HomeChain(instr.chain));
    LowerTwice(i.assetIn);
    LowerTwice(i.assetOut);
    LowerTwice(i.asset0);
    LowerTwice(i.asset1);
    LessTotal(Lower(i.asset0), Lower(i.asset1));
    hide DirectSwap, TwoHopSwap, ExecuteDeposit, ExecuteWithdrawal, Lower, Upper, Agree, Bal, Acct, Lookup, Less,
         HomeChain, HonestTwoHop, HonestDirect, SlackAfter, CallerOutside;
    if i.kind == "swap" {
      var j := i.(assetIn := Lower(i.assetIn), assetOut := Lower(i.assetOut));
      var direct := Lookup(r, j.assetIn, j.assetOut);
      if direct.Some? {
        DirectSlack(w, r, env, direct.value, j, ans, exact);
      } else {
        TwoHopSlack(w, r, env, Lookup(r, j.assetIn, HBD).value, Lookup(r, HBD, j.assetOut).value, j, ans, exact);
      }
    } else if i.kind == "deposit" {
      DepositSlack(w, r, env, InPoolOrder(i), exact);
    } else {
      WithdrawalSlack(w, r, env, InPoolOrder(i), exact);
    }
  }
}
