/** The router's execute over values: one call moves balances and drives one or two pools, or
    changes nothing. */
module Routing {
  import opened Text
  import opened Bank
  import opened P = Pool
  import opened Registry

  datatype World = World(ledger: Ledger, pools: map<string, P.Pool>)

  datatype Instruction = Instruction(
    kind: string, version: string, recipient: string, chain: string, maxFee: Option<int>,
    assetIn: string, assetOut: string, amountIn: Option<int>, minOut: Option<Option<int>>,
    minIntermediate: Option<Option<int>>, beneficiary: Option<string>, refBps: Option<nat>,
    asset0: string, asset1: string, amount0: Option<int>, amount1: Option<int>, minLp: Option<Option<int>>,
    lpAmount: Option<int>)

  // What comes from outside during one execute: the fee host's answer to each swap, the
  // mapping contract's answer to getInfo and the fee of its withdrawal. signed says the sender
  // gave active authority.
  datatype Answers = Answers(first: Reply, second: Reply, info: Option<Info>, outFee: Option<nat>, signed: bool)

  // The asset a registered name stands for, as the router sees it.
  function RouterAsset(r: Registry, name: string): AssetId {
    if name in r.tokens && r.tokens[name].mapping != "" then Mapped(r.tokens[name].mapping, name) else Native(name)
  }

  // Brings the input into the pool: a mapped asset straight from the caller, a native one
  // through the router. An amount that is not positive never gets past the pool's own check,
  // which aborts the whole call.
  function PreFund(l: Ledger, r: Registry, env: Env, asset: string, amount: Option<int>, pool: string): Option<Ledger> {
    var a := RouterAsset(r, Lower(asset));
    if amount.None? || amount.value <= 0 then None
    else if a.Mapped? then Move(l, env.caller, Acct(pool), a, amount.value)
    else
      var l1 := Move(l, env.caller, Acct(env.self), a, amount.value);
      if l1.None? then None else Move(l1.value, Acct(env.self), Acct(pool), a, amount.value)
  }

  // A call from the router to a pool.
  function PoolEnv(env: Env, pool: string): Env {
    env.(caller := Acct(env.self), self := pool)
  }

  // What a mapping contract is asked to send to its native chain: to whom, how much, whether
  // the fee of that chain comes out of it, the most that fee may be, and who gets a refund.
  datatype Withdrawal = Withdrawal(to: string, amount: int, deductFee: bool, maxFee: Option<int>, refundTo: string)

  // What an instruction reports: of a swap the output the last pool paid, what of it arrives
  // with the recipient, and the withdrawal asked for if it settles elsewhere.
  datatype Outcome = Outcome(world: World, amount: nat, arrives: nat, request: Option<Withdrawal>)

  function PoolSwap(w: World, env: Env, pool: string, q: SwapParams, reply: Reply): Option<Outcome> {
    if pool !in w.pools then None
    else
      var d := Swap(w.pools[pool], w.ledger, PoolEnv(env, pool), q, reply);
      if d.None? then None
      else Some(Outcome(World(d.value.ledger, w.pools[pool := d.value.pool]), d.value.amount, d.value.amount, None))
  }

  // The ledger after a settlement, what was asked for, and what arrives on the other chain.
  datatype Bridged = Bridged(ledger: Ledger, request: Withdrawal, arrives: nat)

  // HiveWithdraw: the chain's own withdrawal, free of charge.
  function HiveWithdraw(l: Ledger, from: string, to: string, a: AssetId, amount: nat): Option<Bridged> {
    var l' := Burn(l, from, a, amount);
    if l'.None? then None else Some(Bridged(l'.value, Withdrawal(to, amount, false, None, ""), amount))
  }

  // The mapping contract's side of a withdrawal. outFee is the native chain's fee as the
  // mapping contract works it out, or None when it refuses the withdrawal for a reason of
  // its own; a fee above the cap, or one that leaves nothing to send, is refused. charge is
  // taken on top of the amount.
  function Unmap(l: Ledger, from: string, a: AssetId, q: Withdrawal, charge: nat, outFee: Option<nat>): Option<Bridged>
  {
    if q.amount <= 0 || outFee.None? || (q.maxFee.Some? && q.maxFee.value < outFee.value) then None
    else
      var withheld := if q.deductFee then outFee.value else 0;
      var l' := Burn(l, from, a, q.amount + charge);
      if q.amount <= withheld || l'.None? then None else Some(Bridged(l'.value, q, q.amount - withheld))
  }

  // settleToEVM: the bridge is asked for the amount less its proof fee, which it charges on
  // top. The gas of a token is paid from the bridge's reserve, that of ETH out of the amount.
  function SettleToEVM(l: Ledger, env: Env, a: AssetId, name: string, amount: nat, to: string, info: Option<Info>,
                       maxFee: Option<int>, outFee: Option<nat>): Option<Bridged>
  {
    if info.None? || Lower(info.value.symbol) != name then None
    else if info.value.proofFee.None? || info.value.proofFee.value < 0 then None
    else
      var fee := info.value.proofFee.value;
      var net := amount - fee;
      if net <= 0 || (maxFee.Some? && maxFee.value <= 0) || (name != "eth" && info.value.tokenAddress == "") then None
      else Unmap(l, Acct(env.self), a, Withdrawal(to, net, name == "eth", maxFee, env.caller), fee, outFee)
  }

  // settleToChain.
  function SettleToChain(l: Ledger, r: Registry, env: Env, asset: string, amount: nat, to: string, chain: string,
                         info: Option<Info>, maxFee: Option<int>, outFee: Option<nat>): Option<Bridged>
  {
    var name := Lower(asset);
    if name !in r.tokens || Upper(r.tokens[name].chain) != Upper(chain) then None
    else if name == "hive" || name == "hbd" then HiveWithdraw(l, Acct(env.self), to, Native(name), amount)
    else if r.tokens[name].mapping == "" then None
    else
      var a := Mapped(r.tokens[name].mapping, name);
      if Upper(chain) == "ETH" then SettleToEVM(l, env, a, name, amount, to, info, maxFee, outFee)
      else Unmap(l, Acct(env.self), a, Withdrawal(to, amount, true, maxFee, ""), 0, outFee)
  }

  // The end of a swap that settles outside: the router bridges out what it received.
  function SettleOutcome(o: Outcome, r: Registry, env: Env, i: Instruction, ans: Answers): Option<Outcome> {
    if i.chain == "" then Some(o)
    else if o.amount == 0 then None
    else
      var b := SettleToChain(o.world.ledger, r, env, i.assetOut, o.amount, i.recipient, i.chain, ans.info, i.maxFee,
                             ans.outFee);
      if b.None? then None
      else Some(Outcome(o.world.(ledger := b.value.ledger), o.amount, b.value.arrives, Some(b.value.request)))
  }

  // Where the last pool pays: the router when it has to settle elsewhere.
  function SwapRecipient(env: Env, i: Instruction): string {
    if i.chain != "" then Acct(env.self) else i.recipient
  }

  function DirectParams(env: Env, i: Instruction): SwapParams {
    SwapParams(i.assetIn, i.assetOut, i.amountIn, i.minOut, env.caller, SwapRecipient(env, i), i.beneficiary,
      i.refBps, true)
  }

  function DirectSwap(w: World, r: Registry, env: Env, pool: string, i: Instruction, ans: Answers): Option<Outcome> {
    var l := PreFund(w.ledger, r, env, i.assetIn, i.amountIn, pool);
    if l.None? then None else
    var o := PoolSwap(w.(ledger := l.value), env, pool, DirectParams(env, i), ans.first);
    if o.None? then None else SettleOutcome(o.value, r, env, i, ans)
  }

  function FirstHop(env: Env, i: Instruction): SwapParams {
    SwapParams(i.assetIn, HBD, i.amountIn, i.minIntermediate, env.caller, Acct(env.self), None, None, true)
  }

  function SecondHop(env: Env, i: Instruction, amount: nat): SwapParams {
    SwapParams(HBD, i.assetOut, Some(amount), i.minOut, Acct(env.self), SwapRecipient(env, i), i.beneficiary,
      i.refBps, true)
  }

  // From the first pool's HBD in the router's hands to the end of the second hop.
  function HandOver(o: Outcome, r: Registry, env: Env, pool2: string, i: Instruction, ans: Answers): Option<Outcome> {
    if o.amount == 0 then None else
    var l := Move(o.world.ledger, Acct(env.self), Acct(pool2), Native(HBD), o.amount);
    if l.None? then None else
    var o2 := PoolSwap(o.world.(ledger := l.value), env, pool2, SecondHop(env, i, o.amount), ans.second);
    if o2.None? then None else SettleOutcome(o2.value, r, env, i, ans)
  }

  function TwoHopSwap(w: World, r: Registry, env: Env, pool1: string, pool2: string, i: Instruction,
                      ans: Answers): Option<Outcome> {
    var l := PreFund(w.ledger, r, env, i.assetIn, i.amountIn, pool1);
    if l.None? then None else
    var o := PoolSwap(w.(ledger := l.value), env, pool1, FirstHop(env, i), ans.first);
    if o.None? then None else HandOver(o.value, r, env, pool2, i, ans)
  }

  // The registered pool of an unordered pair, or nothing.
  function Lookup(r: Registry, a: string, b: string): Option<string> {
    if Pair(a, b) in r.pools then Some(r.pools[Pair(a, b)]) else None
  }

  function ExecuteSwap(w: World, r: Registry, env: Env, instr: Instruction, ans: Answers): Option<Outcome> {
    var i := instr.(assetIn := Lower(instr.assetIn), assetOut := Lower(instr.assetOut));
    if i.assetIn == i.assetOut then None else
    var direct := Lookup(r, i.assetIn, i.assetOut);
    if direct.Some? then DirectSwap(w, r, env, direct.value, i, ans)
    else if i.assetIn == HBD || i.assetOut == HBD then None
    else
      var pool1, pool2 := Lookup(r, i.assetIn, HBD), Lookup(r, HBD, i.assetOut);
      if pool1.None? || pool2.None? then None else TwoHopSwap(w, r, env, pool1.value, pool2.value, i, ans)
  }

  function DepositParams(i: Instruction): AddParams {
    AddParams(i.amount0, i.amount1, i.recipient, i.minLp, true, true)
  }

  function ExecuteDeposit(w: World, r: Registry, env: Env, i: Instruction): Option<Outcome> {
    var pool := Lookup(r, i.asset0, i.asset1);
    if pool.None? || pool.value !in w.pools then None else
    var l1 := PreFund(w.ledger, r, env, i.asset0, i.amount0, pool.value);
    if l1.None? then None else
    var l2 := PreFund(l1.value, r, env, i.asset1, i.amount1, pool.value);
    if l2.None? then None else
    var d := AddLiquidity(w.pools[pool.value], l2.value, PoolEnv(env, pool.value), DepositParams(i));
    if d.None? then None
    else Some(Outcome(World(d.value.ledger, w.pools[pool.value := d.value.pool]), d.value.amount, 0, None))
  }

  function ExecuteWithdrawal(w: World, r: Registry, env: Env, i: Instruction): Option<Outcome> {
    var pool := Lookup(r, i.asset0, i.asset1);
    if i.recipient != env.caller || pool.None? || pool.value !in w.pools then None else
    var d := RemoveLiquidity(w.pools[pool.value], w.ledger, PoolEnv(env, pool.value),
      RemoveParams(i.lpAmount, i.recipient));
    if d.None? then None
    else Some(Outcome(World(d.value.ledger, w.pools[pool.value := d.value.pool]), d.value.amount, 0, None))
  }

  // The pair of a deposit or withdrawal in the pool's order, amounts along with names.
  function InPoolOrder(i: Instruction): Instruction {
    var a, b := Lower(i.asset0), Lower(i.asset1);
    if Less(b, a) then i.(asset0 := b, asset1 := a, amount0 := i.amount1, amount1 := i.amount0)
    else i.(asset0 := a, asset1 := b)
  }

  // MAGI is the home chain, written as no chain.
  function HomeChain(chain: string): string {
    if Upper(chain) == "MAGI" then "" else Upper(chain)
  }

  predicate Authorized(env: Env, ans: Answers) {
    env.kind(env.caller) == "contract" || ans.signed
  }

  function Execute(w: World, r: Registry, env: Env, instr: Instruction, ans: Answers): Option<Outcome> {
    if !Authorized(env, ans) || instr.kind == "" || instr.version == "" || instr.recipient == ""
      || instr.recipient == Acct(env.self) then None else
    var i := instr.(chain := HomeChain(instr.chain));
    if i.chain == "" && env.kind(i.recipient) == "unknown" then None
    else if i.kind == "swap" then
      if i.assetIn == "" || i.assetOut == "" then None else ExecuteSwap(w, r, env, i, ans)
    else if i.kind == "deposit" then
      if i.asset0 == "" || i.asset1 == "" then None else ExecuteDeposit(w, r, env, InPoolOrder(i))
    else if i.kind == "withdrawal" then
      if i.asset0 == "" || i.asset1 == "" then None else ExecuteWithdrawal(w, r, env, InPoolOrder(i))
    else None
  }
}
