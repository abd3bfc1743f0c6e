/** What arrives with the recipient of a swap that is settled on another chain, and which
    request makes sure that enough arrives. */
module Delivery {
  import opened Text
  import opened Newton
  import opened Bank
  import opened P = Pool
  import opened SwapProperties
  import opened Liquidity
  import opened Registry
  import opened Routing
  import opened RouterProperties
  import opened Worlds
  import opened Systems
  import opened RouterSuccess

  // ------------------------------------------------------------------ what is taken off on the way

  // The native chain's fee comes out of what is sent: for every mapped asset but the tokens
  // of the EVM bridge.
  predicate Deducts(name: string, chain: string) {
    chain != "" && name != "hive" && name != "hbd" && (Upper(chain) == "ETH" ==> name == "eth")
  }

  function Withheld(name: string, chain: string, outFee: Option<nat>): nat {
    if Deducts(name, chain) && outFee.Some? then outFee.value else 0
  }

  // The EVM bridge's proof fee, which the router takes off before asking.
  function ProofFee(name: string, chain: string, info: Option<Info>): nat {
    if Upper(chain) != "ETH" || name == "hive" || name == "hbd" then 0
    else if info.Some? && info.value.proofFee.Some? && 0 <= info.value.proofFee.value then info.value.proofFee.value
    else 0
  }

  // A cap that is refused whatever the fee is.
  predicate CapRefused(chain: string, cap: Option<int>) {
    cap.Some? && (cap.value < 0 || (Upper(chain) == "ETH" && cap.value == 0))
  }

  // What was asked of the other chain: to send the recipient the output less the proof fee,
  // under the request's cap for a mapped asset, with refunds to the caller on the EVM bridge.
  predicate Asked(o: Outcome, i: Instruction, ans: Answers, caller: string) {
    var name := Lower(i.assetOut);
    if i.chain == "" then o.request.None?
    else o.request.Some? && var q := o.request.value;
      && q.to == i.recipient && q.amount == o.amount - ProofFee(name, i.chain, ans.info)
      && q.deductFee == Deducts(name, i.chain)
      && (name != "hive" && name != "hbd" ==>
            q.maxFee == i.maxFee && (Upper(i.chain) == "ETH" ==> q.refundTo == caller))
  }

  // A settled swap: the output meets the minimum, and all of it arrives but the two fees, of
  // which the native chain's is within the cap.
  predicate Delivered(o: Outcome, i: Instruction, ans: Answers, caller: string) {
    var name := Lower(i.assetOut);
    && Asked(o, i, ans, caller)
    && SlippageOk(i.minOut, o.amount)
    && o.arrives == o.amount - ProofFee(name, i.chain, ans.info) - Withheld(name, i.chain, ans.outFee)
    && (i.chain != "" ==> 0 < o.arrives)
    && (Deducts(name, i.chain) ==>
          && ans.outFee.Some? && (i.maxFee.Some? ==> ans.outFee.value <= i.maxFee.value)
          && !CapRefused(i.chain, i.maxFee))
  }

  // The same execute with another fee on the native chain: accepted when the fee is within
  // the cap and leaves something, and then the same output arrives less that fee.
  predicate FeeOnly(o: Outcome, o': Option<Outcome>, i: Instruction, ans: Answers, fee: nat) {
    var net := o.amount - ProofFee(Lower(i.assetOut), i.chain, ans.info);
    && (o'.Some? <==> (i.maxFee.Some? ==> fee <= i.maxFee.value) && fee < net)
    && (o'.Some? ==> o'.value.amount == o.amount && o'.value.arrives == net - fee)
  }

  function WithFee(ans: Answers, fee: nat): Answers {
    ans.(outFee := Some(fee))
  }

  lemma SettleDelivers(o: Outcome, r: Registry, env: Env, i: Instruction, ans: Answers)
    requires SettleOutcome(o, r, env, i, ans).Some? && o.arrives == o.amount && SlippageOk(i.minOut, o.amount)
    requires o.request.None?
    ensures Delivered(SettleOutcome(o, r, env, i, ans).value, i, ans, env.caller)
    ensures SettleOutcome(o, r, env, i, ans).value.amount == o.amount
  {
    hide Lower, Acct, Burn;
    assert Upper("") == "";
  }

  lemma SettleFeeOnly(o: Outcome, r: Registry, env: Env, i: Instruction, ans: Answers, fee: nat)
    requires SettleOutcome(o, r, env, i, ans).Some? && Deducts(Lower(i.assetOut), i.chain)
    ensures FeeOnly(SettleOutcome(o, r, env, i, ans).value, SettleOutcome(o, r, env, i, WithFee(ans, fee)), i, ans, fee)
  {
    hide Lower, Acct, Burn;
  }

  // Both steps of a swap, either way it goes.
  lemma DirectDelivers(w: World, r: Registry, env: Env, pool: string, i: Instruction, ans: Answers, fee: nat)
    requires DirectSwap(w, r, env, pool, i, ans).Some?
    ensures var o := DirectSwap(w, r, env, pool, i, ans).value;
      && Delivered(o, i, ans, env.caller)
      && (Deducts(Lower(i.assetOut), i.chain) ==>
            FeeOnly(o, DirectSwap(w, r, env, pool, i, WithFee(ans, fee)), i, ans, fee))
  {
    hide PreFund, Swap, SettleOutcome, Acct, Delivered, FeeOnly, Deducts, SlippageOk, Lower;
    var l := PreFund(w.ledger, r, env, i.assetIn, i.amountIn, pool).value;
    SwapMinimum(w.pools[pool], l, PoolEnv(env, pool), DirectParams(env, i), ans.first);
    var o := PoolSwap(w.(ledger := l), env, pool, DirectParams(env, i), ans.first).value;
    SettleDelivers(o, r, env, i, ans);
    if Deducts(Lower(i.assetOut), i.chain) { SettleFeeOnly(o, r, env, i, ans, fee); }
  }

  lemma TwoHopDelivers(w: World, r: Registry, env: Env, pool1: string, pool2: string, i: Instruction, ans: Answers,
                       fee: nat)
    requires TwoHopSwap(w, r, env, pool1, pool2, i, ans).Some?
    ensures var o := TwoHopSwap(w, r, env, pool1, pool2, i, ans).value;
      && Delivered(o, i, ans, env.caller)
      && (Deducts(Lower(i.assetOut), i.chain) ==>
            FeeOnly(o, TwoHopSwap(w, r, env, pool1, pool2, i, WithFee(ans, fee)), i, ans, fee))
  {
    hide PreFund, Swap, SettleOutcome, Acct, Delivered, FeeOnly, Deducts, SlippageOk, Lower, Move;
    var l := PreFund(w.ledger, r, env, i.assetIn, i.amountIn, pool1).value;
    var o := PoolSwap(w.(ledger := l), env, pool1, FirstHop(env, i), ans.first).value;
    var l2 := Move(o.world.ledger, Acct(env.self), Acct(pool2), Native(HBD), o.amount).value;
    SwapMinimum(o.world.pools[pool2], l2, PoolEnv(env, pool2), SecondHop(env, i, o.amount), ans.second);
    var o2 := PoolSwap(o.world.(ledger := l2), env, pool2, SecondHop(env, i, o.amount), ans.second).value;
    SettleDelivers(o2, r, env, i, ans);
    if Deducts(Lower(i.assetOut), i.chain) { SettleFeeOnly(o2, r, env, i, ans, fee); }
  }

  // The instruction as the router reads it.
  function Read(instr: Instruction): Instruction {
    instr.(chain := HomeChain(instr.chain), assetIn := Lower(instr.assetIn), assetOut := Lower(instr.assetOut))
  }

  // Every successful swap delivers its output less the proof fee and the withheld fee,
  // whatever the fee host answers. Where the native chain's fee is withheld, that fee alone
  // decides what arrives: every fee within the cap that leaves something is accepted, and
  // without a cap every amount from one unit up is what arrives for some fee.
  lemma SwapDelivers(w: World, r: Registry, env: Env, instr: Instruction, ans: Answers, fee: nat)
    requires Execute(w, r, env, instr, ans).Some? && instr.kind == "swap"
    ensures var o := Execute(w, r, env, instr, ans).value; var i := Read(instr);
      && Delivered(o, i, ans, env.caller)
      && (Deducts(i.assetOut, i.chain) ==> FeeOnly(o, Execute(w, r, env, instr, WithFee(ans, fee)), i, ans, fee))
  {
    var i := instr.(chain := HomeChain(instr.chain));
    LowerTwice(i.assetOut);
    hide DirectSwap, TwoHopSwap, Lower, Upper, Lookup, HomeChain, Acct, Delivered, FeeOnly, Deducts;
    var j := i.(assetIn := Lower(i.assetIn), assetOut := Lower(i.assetOut));
    var direct := Lookup(r, j.assetIn, j.assetOut);
    if direct.Some? {
      DirectDelivers(w, r, env, direct.value, j, ans, fee);
    } else {
      TwoHopDelivers(w, r, env, Lookup(r, j.assetIn, HBD).value, Lookup(r, HBD, j.assetOut).value, j, ans, fee);
    }
  }

  // What a request can do about it: a minimum that has the proof fee and the cap on top
  // delivers at least the rest whenever the execute succeeds.
  lemma MinimumDelivered(w: World, r: Registry, env: Env, instr: Instruction, ans: Answers, m: int)
    requires Execute(w, r, env, instr, ans).Some? && instr.kind == "swap"
    requires var i := Read(instr); var p := ProofFee(i.assetOut, i.chain, ans.info);
      if Deducts(i.assetOut, i.chain)
      then instr.maxFee.Some? && instr.minOut == Some(Some(m + p + instr.maxFee.value))
      else instr.minOut == Some(Some(m + p))
    ensures m <= Execute(w, r, env, instr, ans).value.arrives
  {
    SwapDelivers(w, r, env, instr, ans, 0);
    LowerTwice(instr.assetOut);
    hide Execute, Lower, Upper, HomeChain, Deducts, ProofFee;
  }

  // Without a cap nothing bounds what arrives: whatever the output, any amount from one unit
  // up to what is sent can be all of it.
  lemma UncappedDeliversAnything(w: World, r: Registry, env: Env, instr: Instruction, ans: Answers, o: Outcome, v: nat)
    requires Execute(w, r, env, instr, ans) == Some(o) && instr.kind == "swap" && instr.maxFee.None?
    requires Deducts(Read(instr).assetOut, Read(instr).chain)
    requires 0 < v <= o.amount - ProofFee(Read(instr).assetOut, Read(instr).chain, ans.info)
    ensures exists fee: nat ::
      var o' := Execute(w, r, env, instr, WithFee(ans, fee)); o'.Some? && o'.value.arrives == v
  {
    var i := Read(instr);
    var fee := o.amount - ProofFee(i.assetOut, i.chain, ans.info) - v;
    SwapDelivers(w, r, env, instr, ans, fee);
    LowerTwice(instr.assetOut);
    hide Execute, Lower, Upper, HomeChain, Deducts, ProofFee;
    assert Execute(w, r, env, instr, WithFee(ans, fee)).Some?;
  }

  // ------------------------------------------------------------------ exactly when enough arrives

  // A request that asks for the minimum k with the cap given, for an output that is settled
  // on the chain with its fee withheld and a proof fee of p, never succeeds on a sound system
  // with an honest host without delivering at least m.
  ghost predicate Guarantees(name: string, chain: string, p: nat, k: int, cap: Option<int>, m: int) {
    forall s: System, env: Env, instr: Instruction, ans: Answers {:trigger Execute(s.world, s.reg, env, instr, ans)} ::
      Sound(s) && Allowed(s, RouterAction(env, instr, ans)) && Asks(instr, ans, name, chain, p, k, cap)
      && Execute(s.world, s.reg, env, instr, ans).Some?
      ==> m <= Execute(s.world, s.reg, env, instr, ans).value.arrives
  }

  predicate Asks(instr: Instruction, ans: Answers, name: string, chain: string, p: nat, k: int, cap: Option<int>) {
    && instr.kind == "swap" && Read(instr).assetOut == name && Read(instr).chain == chain
    && instr.minOut == Some(Some(k)) && instr.maxFee == cap && ProofFee(name, chain, ans.info) == p
  }

  // An asset and a chain on which the native chain's fee is withheld.
  predicate Withholding(name: string, chain: string, p: nat) {
    && name != "" && Lower(name) == name && name !in HIVE_ASSETS
    && chain != "" && HomeChain(chain) == chain && Deducts(name, chain)
    && (Upper(chain) != "ETH" ==> p == 0)
  }

  // The condition a caller can check beforehand: the minimum asked for covers what is wanted
  // together with the proof fee and the cap. More than one unit is never guaranteed without
  // a cap.
  lemma GuaranteeExact(name: string, chain: string, p: nat, k: int, cap: Option<int>, m: int)
    requires Withholding(name, chain, p)
    ensures Guarantees(name, chain, p, k, cap, m) <==>
      m <= 1 || CapRefused(chain, cap) || (cap.Some? && m + p + cap.value <= k)
  {
    if m <= 1 || CapRefused(chain, cap) || (cap.Some? && m + p + cap.value <= k) {
      forall s: System, env: Env, instr: Instruction, ans: Answers |
        Asks(instr, ans, name, chain, p, k, cap) && Execute(s.world, s.reg, env, instr, ans).Some?
        ensures m <= Execute(s.world, s.reg, env, instr, ans).value.arrives
      {
        EnoughArrives(s.world, s.reg, env, instr, ans, name, chain, p, k, cap, m);
      }
    } else {
      // the smallest output, and the largest fee that it and the cap allow
      var out := if p < k then k else p + 1;
      var fee := if cap.Some? && cap.value < out - p - 1 then cap.value else out - p - 1;
      TradeSucceeds(name, chain, p, k, cap, out, fee);
      var s, ans := Market(name, chain, out), TradeAnswers(name, p, out, fee);
      assert Execute(s.world, s.reg, TRADER, Trade(name, chain, k, cap, out), ans).value.arrives == out - p - fee;
      hide Execute, Sound, Allowed, Market, Trade, TradeAnswers;
    }
  }

  lemma EnoughArrives(w: World, r: Registry, env: Env, instr: Instruction, ans: Answers,
                      name: string, chain: string, p: nat, k: int, cap: Option<int>, m: int)
    requires Execute(w, r, env, instr, ans).Some? && Asks(instr, ans, name, chain, p, k, cap)
    requires chain != "" && Deducts(name, chain)
    requires m <= 1 || CapRefused(chain, cap) || (cap.Some? && m + p + cap.value <= k)
    ensures m <= Execute(w, r, env, instr, ans).value.arrives
  {
    SwapDelivers(w, r, env, instr, ans, 0);
    LowerTwice(instr.assetOut);
    hide Execute, Lower, Upper, HomeChain, Deducts, ProofFee, FeeOnly;
    assert Delivered(Execute(w, r, env, instr, ans).value, Read(instr), ans, env.caller);
    ArrivesAtLeast(Execute(w, r, env, instr, ans).value, Read(instr), ans, env.caller, name, chain, p, k, cap, m);
  }

  lemma ArrivesAtLeast(o: Outcome, i: Instruction, ans: Answers, caller: string,
                       name: string, chain: string, p: nat, k: int, cap: Option<int>, m: int)
    requires Delivered(o, i, ans, caller) && Lower(i.assetOut) == name && i.chain == chain
    requires i.minOut == Some(Some(k)) && i.maxFee == cap && ProofFee(name, chain, ans.info) == p
    requires chain != "" && Deducts(name, chain)
    requires m <= 1 || CapRefused(chain, cap) || (cap.Some? && m + p + cap.value <= k)
    ensures m <= o.arrives
  {
    hide Lower, Upper, Deducts, ProofFee;
  }

  // ------------------------------------------------------------------ a market of any size

  const TRADER := Env("trader", "router", None, None, (_ => "user"))

  // One constant-product pool of the asset against HBD, with eight times the output in each
  // reserve, and a trader who holds half a reserve of HBD.
  function Market(name: string, chain: string, out: nat): System {
    var a := Mapped("bridge", name);
    var (n0, n1) := Pair(name, HBD);
    var p := P.Pool(n0, n1, if n0 == name then "bridge" else "", if n1 == name then "bridge" else "",
                    8 * out, 8 * out, 0, 0, 8 * out, map["holder" := 8 * out], "router", Product, VERSION);
    var l: Ledger := map[(Acct("pool"), Native(HBD)) := 8 * out, (Acct("pool"), a) := 8 * out,
                         ("trader", Native(HBD)) := 4 * out];
    var r := NONE.(tokens := map[HBD := Token("", "HIVE", 3), name := Token("bridge", chain, 8)],
                   pools := map[(n0, n1) := "pool"]);
    System(World(l, map["pool" := p]), r, "router")
  }

  function Trade(name: string, chain: string, k: int, cap: Option<int>, out: nat): Instruction {
    Instruction("swap", "1", "recipient", chain, cap, HBD, name, Some(4 * out), Some(Some(k)),
                None, None, None, "", "", None, None, None, None)
  }

  // The honest answer to the trade that pays out.
  function TradeReply(out: nat): Reply
    requires 0 < out
  {
    var gross := 4 * out * (8 * out) / (12 * out);
    Reply(Some(out), Some(12 * out), Some(7 * out), Some(0), Some(gross - out), Some(0), false, 0)
  }

  function TradeAnswers(name: string, p: nat, out: nat, fee: nat): Answers
    requires 0 < out
  {
    Answers(TradeReply(out), TradeReply(out), Some(Info(name, Some(0), Some(p), "token")), Some(fee), true)
  }

  lemma TradeIsHonest(out: nat)
    requires 0 < out
    ensures Honest(8 * out, 8 * out, 4 * out, false, TradeReply(out))
    ensures out <= 4 * out * (8 * out) / (12 * out) - out
  {
    DivBounds(4 * out * (8 * out), 12 * out);
    var g := 4 * out * (8 * out) / (12 * out);
    assert 4 * out * (8 * out) == 32 * (out * out);
    assert (2 * out) * (12 * out) == 24 * (out * out);
    CancelLt(2 * out, g + 1, 12 * out);
  }

  // Names and assets of the market: the pair is in order, and HBD is not the other asset.
  lemma MarketNames(name: string, chain: string, p: nat)
    requires Withholding(name, chain, p)
    ensures Lower(HBD) == HBD && HBD in HIVE_ASSETS && name != HBD && Pair(name, HBD) == Pair(HBD, name)
    ensures Pair(name, HBD) == (name, HBD) || Pair(name, HBD) == (HBD, name)
    ensures NewAsset(HBD, "") == Some(Native(HBD)) && NewAsset(name, "bridge") == Some(Mapped("bridge", name))
    ensures Lower(HBD) != "" && HBD != ""
  {
    HbdIsLower();
    LessTotal(name, HBD);
    hide Less, Lower;
  }

  lemma MarketAgrees(name: string, chain: string, p: nat, out: nat)
    requires Withholding(name, chain, p)
    ensures var s := Market(name, chain, out); Agree(s.reg, s.world.pools, "router") && PairsKnown(s.reg)
  {
    MarketNames(name, chain, p);
    assert "pool"[0] == 'p' && "router"[0] == 'r';
    hide Lower, Acct, Pair, Withholding, NewAsset;
  }

  lemma MarketGood(name: string, chain: string, p: nat, out: nat)
    requires Withholding(name, chain, p)
    ensures Good(Market(name, chain, out).world.pools["pool"], "router")
  {
    MarketNames(name, chain, p);
    var lp := map["holder" := 8 * out];
    TotalSplit(lp, "holder");
    assert lp - {"holder"} == map[];
    hide Lower, Acct, Pair, Withholding, NewAsset, Total;
  }

  lemma MarketSolvent(name: string, chain: string, p: nat, out: nat)
    requires Withholding(name, chain, p)
    ensures forall side0 :: WorldSlack(Market(name, chain, out).world, "pool", side0) == 0
  {
    MarketNames(name, chain, p);
    assert Acct("pool")[0] == 'c' && "trader"[0] == 't';
    hide Lower, Acct, Pair, Withholding, NewAsset;
  }

  lemma MarketSound(name: string, chain: string, p: nat, out: nat)
    requires Withholding(name, chain, p)
    ensures Sound(Market(name, chain, out))
  {
    MarketAgrees(name, chain, p, out);
    MarketGood(name, chain, p, out);
    MarketSolvent(name, chain, p, out);
    assert "pool"[0] == 'p' && "router"[0] == 'r';
    hide Agree, PairsKnown, Good, WorldSlack, Withholding, Pair;
  }

  lemma MarketPlan(name: string, chain: string, p: nat, k: int, cap: Option<int>, out: nat)
    requires Withholding(name, chain, p)
    ensures var i := Read(Trade(name, chain, k, cap, out)); var pool := Market(name, chain, out).world.pools["pool"];
      MakePlan(pool, PoolEnv(TRADER, "pool"), DirectParams(TRADER, i))
      == Some(Plan(pool.name0 == HBD, Native(HBD), Mapped("bridge", name), OnProduct, 8 * out, 8 * out, 4 * out))
  {
    MarketNames(name, chain, p);
    var i := Read(Trade(name, chain, k, cap, out));
    assert i.assetIn == HBD && i.assetOut == name && i.chain == chain;
    assert Acct("router") != "";
    hide Lower, Pair, Withholding, NewAsset, HomeChain;
  }

  lemma MarketAllowed(name: string, chain: string, p: nat, k: int, cap: Option<int>, out: nat, fee: nat)
    requires Withholding(name, chain, p) && 0 < out
    ensures var instr, ans := Trade(name, chain, k, cap, out), TradeAnswers(name, p, out, fee);
      Allowed(Market(name, chain, out), RouterAction(TRADER, instr, ans))
  {
    MarketNames(name, chain, p);
    MarketPlan(name, chain, p, k, cap, out);
    TradeIsHonest(out);
    AcctFacts("pool", "router");
    assert Acct("pool")[0] == 'c' && Acct("router")[0] == 'c' && "trader"[0] == 't';
    hide Lower, Acct, Pair, Withholding, NewAsset, HomeChain, MakePlan, Honest;
  }

  // The trade goes through at its minimum and delivers the output less both fees.
  lemma TradeSucceeds(name: string, chain: string, p: nat, k: int, cap: Option<int>, out: nat, fee: nat)
    requires Withholding(name, chain, p) && !CapRefused(chain, cap)
    requires 0 < out && k <= out && p + fee < out && (cap.Some? ==> fee <= cap.value)
    ensures var s, instr := Market(name, chain, out), Trade(name, chain, k, cap, out);
      var ans := TradeAnswers(name, p, out, fee);
      && Sound(s) && Allowed(s, RouterAction(TRADER, instr, ans)) && Asks(instr, ans, name, chain, p, k, cap)
      && Execute(s.world, s.reg, TRADER, instr, ans).Some?
      && Execute(s.world, s.reg, TRADER, instr, ans).value.arrives == out - p - fee
  {
    var s, instr, ans := Market(name, chain, out), Trade(name, chain, k, cap, out), TradeAnswers(name, p, out, fee);
    MarketSound(name, chain, p, out);
    MarketAllowed(name, chain, p, k, cap, out, fee);
    TradeAccepted(name, chain, p, k, cap, out, fee);
    ExecuteSucceeds(s, TRADER, instr, ans);
    TradePays(name, chain, p, k, cap, out, fee);
    SwapDelivers(s.world, s.reg, TRADER, instr, ans, fee);
    hide Execute, Sound, Allowed, Accepted, Market, Lower, Upper, HomeChain;
  }

  lemma TradePays(name: string, chain: string, p: nat, k: int, cap: Option<int>, out: nat, fee: nat)
    requires Withholding(name, chain, p) && 0 < out && k <= out
    requires var s := Market(name, chain, out);
      Execute(s.world, s.reg, TRADER, Trade(name, chain, k, cap, out), TradeAnswers(name, p, out, fee)).Some?
    ensures var s, ans := Market(name, chain, out), TradeAnswers(name, p, out, fee);
      Execute(s.world, s.reg, TRADER, Trade(name, chain, k, cap, out), ans).value.amount == out
  {
    var s, ans := Market(name, chain, out), TradeAnswers(name, p, out, fee);
    var i := Read(Trade(name, chain, k, cap, out));
    MarketNames(name, chain, p);
    TradeHop(name, chain, p, k, cap, out, fee);
    assert Lookup(s.reg, HBD, name) == Some("pool");
    assert Execute(s.world, s.reg, TRADER, Trade(name, chain, k, cap, out), ans)
        == DirectSwap(s.world, s.reg, TRADER, "pool", i, ans) by {
      hide Lower, Acct, Pair, DirectSwap, HomeChain;
    }
    DirectPays(s.world, s.reg, TRADER, "pool", i, ans);
    hide Lower, Acct, Pair, HopAccepted, HopPays, Execute, DirectSwap, HomeChain;
  }

  lemma DirectPays(w: World, r: Registry, env: Env, pool: string, i: Instruction, ans: Answers)
    requires DirectSwap(w, r, env, pool, i, ans).Some?
    ensures pool in w.pools
    ensures var q := DirectParams(env, i);
      && HopAccepted(w.pools[pool], PoolEnv(env, pool), q, ans.first)
      && DirectSwap(w, r, env, pool, i, ans).value.amount == HopPays(w.pools[pool], PoolEnv(env, pool), q, ans.first)
  {
    hide PreFund, MakePlan, PlanSettle, SwapLedger, SettleToChain, SlippageOk, Acct, SwapRecipient;
  }

  lemma TradeAccepted(name: string, chain: string, p: nat, k: int, cap: Option<int>, out: nat, fee: nat)
    requires Withholding(name, chain, p) && !CapRefused(chain, cap)
    requires 0 < out && k <= out && p + fee < out && (cap.Some? ==> fee <= cap.value)
    ensures var s := Market(name, chain, out);
      Accepted(s.world, s.reg, TRADER, Trade(name, chain, k, cap, out), TradeAnswers(name, p, out, fee))
    ensures Asks(Trade(name, chain, k, cap, out), TradeAnswers(name, p, out, fee), name, chain, p, k, cap)
  {
    MarketNames(name, chain, p);
    TradeHop(name, chain, p, k, cap, out, fee);
    TradeSettled(name, chain, p, k, cap, out, fee);
    hide Lower, Acct, Pair, NewAsset, HopAccepted, HopPays, SettlementAccepted, Deducts;
  }

  lemma TradeHop(name: string, chain: string, p: nat, k: int, cap: Option<int>, out: nat, fee: nat)
    requires Withholding(name, chain, p) && 0 < out && k <= out
    ensures var q := DirectParams(TRADER, Read(Trade(name, chain, k, cap, out)));
      var pool, reply := Market(name, chain, out).world.pools["pool"], TradeAnswers(name, p, out, fee).first;
      HopAccepted(pool, PoolEnv(TRADER, "pool"), q, reply) && HopPays(pool, PoolEnv(TRADER, "pool"), q, reply) == out
  {
    MarketPlan(name, chain, p, k, cap, out);
    TradeIsHonest(out);
    HonestSwapAccepted(8 * out, 8 * out, 4 * out, false, TradeReply(out), None);
    hide Lower, Acct, Pair, MakePlan, Honest, OnCurve, HomeChain, Market, Withholding, PoolEnv;
  }

  lemma TradeSettled(name: string, chain: string, p: nat, k: int, cap: Option<int>, out: nat, fee: nat)
    requires Withholding(name, chain, p) && !CapRefused(chain, cap)
    requires 0 < out && p + fee < out && (cap.Some? ==> fee <= cap.value)
    ensures SettlementAccepted(Market(name, chain, out).reg, Read(Trade(name, chain, k, cap, out)), out,
                               TradeAnswers(name, p, out, fee))
  {
    MarketNames(name, chain, p);
    hide Lower, Pair, TradeReply;
  }

  // One such execute: a swap to Bitcoin whose output of 100 meets a minimum of 95, and of
  // which 90 arrive.
  lemma ShortDelivery()
    ensures var s, instr := Market("btc", "BTC", 100), Trade("btc", "BTC", 95, None, 100);
      var ans := TradeAnswers("btc", 0, 100, 10);
      && Sound(s) && Allowed(s, RouterAction(TRADER, instr, ans)) && instr.minOut == Some(Some(95))
      && Execute(s.world, s.reg, TRADER, instr, ans).Some?
      && Execute(s.world, s.reg, TRADER, instr, ans).value.arrives == 90
  {
    assert Lower("btc") == "btc" && Upper("BTC") == "BTC";
    assert "btc"[0] == 'b' && "hbd"[0] == 'h' && "hive"[0] == 'h';
    assert "BTC"[0] == 'B' && "MAGI"[0] == 'M' && "ETH"[0] == 'E';
    assert "hive_consensus"[0] == 'h' && "hbd_savings"[0] == 'h';
    assert Withholding("btc", "BTC", 0);
    TradeSucceeds("btc", "BTC", 0, 95, None, 100, 10);
    hide Execute, Sound, Allowed, Market;
  }
}
