/** The router contract as it runs: registrations write its store, and execute moves
    balances and calls pool contracts. Each entry point is proved to do what module Routing
    or module Registry says over values. */
module RouterContract {
  import opened Text
  import opened Bank
  import opened P = Pool
  import opened Registry
  import opened R = Routing
  import D = DexPool
  import PS = PoolStore

  // A withdrawal that was asked for, and what of it arrives.
  datatype Sent = Sent(request: Withdrawal, arrives: nat)

  // What a call on the router reports: the amount, what of it arrives, and the withdrawal it
  // asked for.
  datatype Receipt = Receipt(amount: nat, arrives: nat, request: Option<Withdrawal>)

  function Told(o: Option<Outcome>): Option<Receipt> {
    if o.None? then None else Some(Receipt(o.value.amount, o.value.arrives, o.value.request))
  }

  class Router {
    const id: string
    const bank: Bank
    const pools: map<string, D.DexPool>
    const codec: Codec
    var store: Store
    ghost var reg: Registry

    // The store stands for the registry; the pool contracts are deployed under their ids.
    ghost predicate Valid()
      reads this
    {
      && Lawful(codec) && Represents(store, reg, codec)
      && forall k :: k in pools ==> pools[k].id == k && pools[k].bank == bank
    }

    constructor (id: string, bank: Bank, pools: map<string, D.DexPool>, codec: Codec)
      requires Lawful(codec) && forall k :: k in pools ==> pools[k].id == k && pools[k].bank == bank
      ensures Valid() && reg == NONE && this.id == id && this.bank == bank && this.pools == pools && this.codec == codec
    {
      EmptyRepresentsNothing(codec);
      this.id, this.bank, this.pools, this.codec := id, bank, pools, codec;
      store, reg := map[], NONE;
    }

    ghost function States(): map<string, P.Pool>
      reads pools.Values
    {
      map k | k in pools :: pools[k].State()
    }

    ghost function Now(): World
      reads bank, pools.Values
    {
      World(bank.ledger, States())
    }

    // ---------------------------------------------------------------- registry

    method UpdateChainsList(chain: string)
      modifies this`store
      ensures store == old(store)[CHAINS_LIST := AddToList(GetStr(old(store), CHAINS_LIST), chain)]
    {
      var chainsStr := GetStr(store, CHAINS_LIST);
      if |chainsStr| > 0 {
        var chains := Split(chainsStr, ',');
        if chain !in chains { store := store[CHAINS_LIST := chainsStr + "," + chain]; }
      } else {
        store := store[CHAINS_LIST := chain];
      }
    }

    method UpdateTokensList(name: string)
      modifies this`store
      ensures store == old(store)[TOKENS_LIST := AddToList(GetStr(old(store), TOKENS_LIST), name)]
    {
      var tokensStr := GetStr(store, TOKENS_LIST);
      if |tokensStr| > 0 {
        var tokens := Split(tokensStr, ',');
        if name !in tokens { store := store[TOKENS_LIST := tokensStr + "," + name]; }
      } else {
        store := store[TOKENS_LIST := name];
      }
    }

    method RegisterToken(env: Env, q: TokenParams, info: Option<Info>) returns (ok: bool)
      requires Valid()
      modifies this
      ensures Valid()
      ensures ok <==>
        && env.owner.Some? && env.caller == env.owner.value
        && TokenAllowed(old(reg), q, ContractId(env, q.mapping), info)
      ensures reg == if ok then WithToken(old(reg), q, info) else old(reg)
      ensures ok ==> reg.tokens[Lower(q.name)].mapping == q.mapping
      ensures ok ==> reg.tokens[Lower(q.name)].decimals == if q.mapping == "" then 3 else info.value.decimals.value
      ensures var entry := codec.marshal(TokenInfo(q.mapping, Upper(q.chain), q.description, Decimals(q, info)));
        forall x ::
          GetStr(store, ASSET_PREFIX + x)
          == if ok && x == Lower(q.name) then entry else GetStr(old(store), ASSET_PREFIX + x)
      ensures !ok ==> store == old(store)
    {
      hide TokensMatch, ListsMatch, PoolsMatch, Lawful, Lower, Upper, ValidName;
      if env.owner.None? || env.caller != env.owner.value { return false; }
      if q.name == "" || q.chain == "" { return false; }
      var chain, name := Upper(q.chain), Lower(q.name);
      var valid := IsValidTokenName(name);
      if !valid { return false; }
      if chain !in VALID_CHAINS { return false; }
      if q.mapping != "" && !ContractId(env, q.mapping) { return false; }
      LowerTwice(q.name);
      RegisteredMeans(store, reg, codec, name);
      if GetStr(store, AssetKey(name)) != "" { return false; }
      var decimals := 3;
      if q.mapping != "" {
        if info.None? || Lower(info.value.symbol) != name || info.value.decimals.None? { return false; }
        decimals := info.value.decimals.value;
      }
      var t := TokenInfo(q.mapping, chain, q.description, decimals);
      TokenRepresented(store, reg, codec, q, info, t);
      TokenLookups(store, name, codec.marshal(t), AddToList(GetStr(store, CHAINS_LIST), chain),
                   AddToList(GetStr(store, TOKENS_LIST), name));
      store := store[AssetKey(name) := codec.marshal(t)];
      UpdateChainsList(chain);
      UpdateTokensList(name);
      reg := WithToken(reg, q, info);
      return true;
    }

    method RegisterPool(env: Env, a: string, b: string, dex: string) returns (ok: bool)
      requires Valid()
      modifies this
      ensures Valid()
      ensures ok <==>
        && env.owner.Some? && env.caller == env.owner.value
        && PoolAllowed(old(reg), a, b, ContractId(env, dex))
      ensures reg == if ok then WithPool(old(reg), a, b, dex) else old(reg)
      ensures forall x :: GetStr(store, ASSET_PREFIX + x) == GetStr(old(store), ASSET_PREFIX + x)
      ensures !ok ==> store == old(store)
    {
      hide TokensMatch, ListsMatch, PoolsMatch, Lawful, Lower, ValidName, Less;
      if env.owner.None? || env.caller != env.owner.value { return false; }
      var asset0, asset1 := Lower(a), Lower(b);
      if asset0 == asset1 { return false; }
      LowerTwice(a);
      LowerTwice(b);
      RegisteredMeans(store, reg, codec, asset0);
      RegisteredMeans(store, reg, codec, asset1);
      if GetStr(store, AssetKey(asset0)) == "" || GetStr(store, AssetKey(asset1)) == "" { return false; }
      if Less(asset1, asset0) { asset0, asset1 := asset1, asset0; }
      if !ContractId(env, dex) { return false; }
      FindPoolExact(store, reg, codec, a, b);
      PoolsNamed(store, reg, codec, a, b);
      if GetStr(store, PoolKey(asset0, asset1)) != "" { return false; }
      PoolRepresented(store, reg, codec, a, b, dex);
      TokenNameValid(store, reg, codec, asset0);
      TokenNameValid(store, reg, codec, asset1);
      PoolLookups(store, asset0, asset1, dex);
      store := store[PoolKey(asset0, asset1) := dex];
      reg := WithPool(reg, a, b, dex);
      return true;
    }

    // The schema query: the chains and the registered tokens, in order of registration, each
    // token with the entry the store has for it.
    method GetSchema() returns (chains: seq<string>, names: seq<string>, infos: seq<TokenInfo>)
      requires Valid()
      ensures chains == reg.chains && names == reg.names && |infos| == |names|
      ensures forall i :: 0 <= i < |names| ==>
        && codec.unmarshal(GetStr(store, AssetKey(names[i]))) == Some(infos[i])
        && names[i] in reg.tokens && reg.tokens[names[i]] == Listed(infos[i])
    {
      hide Represents, Split, Dedup, Lawful, Trim, AssetKey, GetStr;
      SchemaLists(store, reg, codec);
      chains := [];
      if GetStr(store, CHAINS_LIST) != "" { chains := SplitChains(GetStr(store, CHAINS_LIST)); }
      names, infos := [], [];
      var text := GetStr(store, TOKENS_LIST);
      if text != "" {
        var parts := Split(text, ',');
        var i := 0;
        while i < |parts|
          invariant 0 <= i <= |parts| && names == parts[..i] && |infos| == i
          invariant forall j :: 0 <= j < i ==>
            && codec.unmarshal(GetStr(store, AssetKey(names[j]))) == Some(infos[j])
            && names[j] in reg.tokens && reg.tokens[names[j]] == Listed(infos[j])
        {
          var name := Trim(parts[i]);
          NameInSchema(store, reg, codec, i);
          if name != "" && GetStr(store, AssetKey(name)) != "" {
            var info := codec.unmarshal(GetStr(store, AssetKey(name)));
            if info.Some? {
              names := names + [name];
              infos := infos + [info.value];
            }
          }
          i := i + 1;
        }
        assert parts[..i] == parts;
      }
    }

    // ---------------------------------------------------------------- execute

    // getMappingContract; None is a corrupt entry, which aborts.
    method GetMappingContract(name: string) returns (mapping: Option<string>)
      requires Valid() && Lower(name) == name
      ensures mapping == Some(if name in reg.tokens then reg.tokens[name].mapping else "")
    {
      TokenReading(store, reg, codec, name);
      hide Represents, Lawful, Lower;
      var infoStr := GetStr(store, AssetKey(name));
      if infoStr == "" { return Some(""); }
      var info := codec.unmarshal(infoStr);
      if info.None? { return None; }
      return Some(info.value.mapping);
    }

    method GetAssetChain(name: string) returns (chain: string)
      requires Valid() && Lower(name) == name
      ensures chain == if name in reg.tokens then reg.tokens[name].chain else ""
    {
      TokenReading(store, reg, codec, name);
      hide Represents, Lawful, Lower;
      var infoStr := GetStr(store, AssetKey(name));
      if infoStr == "" { return ""; }
      var info := codec.unmarshal(infoStr);
      if info.None? { return ""; }
      return info.value.chain;
    }

    method PreFundAsset(env: Env, asset: string, amount: Option<int>, toPool: string) returns (ok: bool)
      requires Valid() && env.self == id
      modifies bank
      ensures var l := PreFund(old(bank.ledger), reg, env, asset, amount, toPool);
        ok == l.Some? && (ok ==> bank.ledger == l.value)
    {
      hide Represents, Lawful, Lower, Move, Acct;
      LowerTwice(asset);
      var name := Lower(asset);
      var mapping := GetMappingContract(name);
      if mapping.None? || amount.None? || amount.value <= 0 { return false; }
      if mapping.value != "" {
        ok := bank.Transfer(env.caller, Acct(toPool), Mapped(mapping.value, name), amount.value);
        return;
      }
      ok := bank.Transfer(env.caller, Acct(id), Native(name), amount.value);
      if !ok { return; }
      ok := bank.Transfer(Acct(id), Acct(toPool), Native(name), amount.value);
    }

    // A swap call to a pool contract.
    method CallSwap(env: Env, pool: string, q: SwapParams, reply: Reply) returns (r: Option<nat>)
      requires Valid() && env.self == id
      modifies bank, pools.Values
      ensures Valid()
      ensures var o := PoolSwap(old(Now()), env, pool, q, reply);
        r == (if o.None? then None else Some(o.value.amount))
        && (o.Some? ==> o.value.arrives == o.value.amount && o.value.request.None? && Now() == o.value.world)
    {
      hide Represents, Lawful, P.Swap, PS.View;
      if pool !in pools { return None; }
      r := pools[pool].Swap(PoolEnv(env, pool), q, reply);
      if r.Some? {
        ghost var d := P.Swap(old(States()[pool]), old(bank.ledger), PoolEnv(env, pool), q, reply);
        assert States() == old(States())[pool := d.value.pool];
      }
    }

    // A withdrawal through a mapping contract, which takes amount and charge from the router.
    method CallUnmap(a: AssetId, q: Withdrawal, charge: nat, outFee: Option<nat>) returns (sent: Option<Sent>)
      modifies bank
      ensures match Unmap(old(bank.ledger), Acct(id), a, q, charge, outFee)
        case None => sent.None?
        case Some(done) => sent == Some(Sent(done.request, done.arrives)) && bank.ledger == done.ledger
    {
      if q.amount <= 0 || outFee.None? || (q.maxFee.Some? && q.maxFee.value < outFee.value) { return None; }
      var withheld := if q.deductFee then outFee.value else 0;
      if q.amount <= withheld { return None; }
      var ok := bank.Withdraw(Acct(id), a, q.amount + charge);
      return if ok then Some(Sent(q, q.amount - withheld)) else None;
    }

    method SettleToEVMBridge(env: Env, bridge: string, asset: string, amount: nat, to: string, info: Option<Info>,
                             maxFee: Option<int>, outFee: Option<nat>) returns (sent: Option<Sent>)
      requires env.self == id
      modifies bank
      ensures match SettleToEVM(old(bank.ledger), env, Mapped(bridge, asset), asset, amount, to, info, maxFee, outFee)
        case None => sent.None?
        case Some(done) => sent == Some(Sent(done.request, done.arrives)) && bank.ledger == done.ledger
    {
      hide Unmap;
      if info.None? || Lower(info.value.symbol) != asset { return None; }
      if info.value.proofFee.None? || info.value.proofFee.value < 0 { return None; }
      var fee := info.value.proofFee.value;
      var net := amount - fee;
      if net <= 0 { return None; }
      if maxFee.Some? && maxFee.value <= 0 { return None; }
      var deductFee := false;
      if asset == "eth" {
        deductFee := true;
      } else if info.value.tokenAddress == "" {
        return None;
      }
      // the bridge charges its proof fee on top
      sent := CallUnmap(Mapped(bridge, asset), Withdrawal(to, net, deductFee, maxFee, env.caller), fee, outFee);
    }

    method Settle(env: Env, asset: string, amount: nat, to: string, chain: string, info: Option<Info>,
                  maxFee: Option<int>,
                  outFee: Option<nat>)
      returns (sent: Option<Sent>)
      requires Valid() && env.self == id
      modifies bank
      ensures match SettleToChain(old(bank.ledger), reg, env, asset, amount, to, chain, info, maxFee, outFee)
        case None => sent.None?
        case Some(done) => sent == Some(Sent(done.request, done.arrives)) && bank.ledger == done.ledger
    {
      hide Represents, Lawful, Lower, Upper, Burn, Acct, SettleToEVM, Unmap;
      LowerTwice(asset);
      var name := Lower(asset);
      var assetChain := GetAssetChain(name);
      ChainNotEmpty(store, reg, codec, name);
      if assetChain == "" { return None; }
      if Upper(assetChain) != Upper(chain) { return None; }
      if name == "hive" || name == "hbd" {
        var ok := bank.Withdraw(Acct(id), Native(name), amount);
        return if ok then Some(Sent(Withdrawal(to, amount, false, None, ""), amount)) else None;
      }
      var mapping := GetMappingContract(name);
      if mapping.None? || mapping.value == "" { return None; }
      if Upper(chain) == "ETH" {
        sent := SettleToEVMBridge(env, mapping.value, name, amount, to, info, maxFee, outFee);
        return;
      }
      sent := CallUnmap(Mapped(mapping.value, name), Withdrawal(to, amount, true, maxFee, ""), 0, outFee);
    }

    // The end of a swap: bridge the output if another chain was asked for.
    method Bridge(env: Env, amount: nat, i: Instruction, ans: Answers) returns (r: Option<Receipt>)
      requires Valid() && env.self == id
      modifies bank
      ensures var o := SettleOutcome(Outcome(old(Now()), amount, amount, None), reg, env, i, ans);
        r == Told(o) && (o.Some? ==> Now() == o.value.world)
    {
      hide Represents, Lawful, SettleToChain, PS.View;
      if i.chain == "" { return Some(Receipt(amount, amount, None)); }
      if amount == 0 { return None; }
      var sent := Settle(env, i.assetOut, amount, i.recipient, i.chain, ans.info, i.maxFee, ans.outFee);
      return if sent.Some? then Some(Receipt(amount, sent.value.arrives, Some(sent.value.request))) else None;
    }

    method ExecuteDirectSwap(env: Env, pool: string, i: Instruction, ans: Answers) returns (r: Option<Receipt>)
      requires Valid() && env.self == id
      modifies bank, pools.Values
      ensures Valid()
      ensures var o := R.DirectSwap(old(Now()), reg, env, pool, i, ans);
        r == Told(o) && (o.Some? ==> Now() == o.value.world)
    {
      hide Represents, Lawful, PreFund, PoolSwap, SettleOutcome, PS.View, Acct;
      var ok := PreFundAsset(env, i.assetIn, i.amountIn, pool);
      if !ok { return None; }
      var res := CallSwap(env, pool, DirectParams(env, i), ans.first);
      if res.None? { return None; }
      r := Bridge(env, res.value, i, ans);
    }

    method ExecuteTwoHopSwap(env: Env, pool1: string, pool2: string, i: Instruction, ans: Answers)
      returns (r: Option<Receipt>)
      requires Valid() && env.self == id
      modifies bank, pools.Values
      ensures Valid()
      ensures var o := R.TwoHopSwap(old(Now()), reg, env, pool1, pool2, i, ans);
        r == Told(o) && (o.Some? ==> Now() == o.value.world)
    {
      hide Represents, Lawful, PreFund, PoolSwap, SettleOutcome, PS.View, Move, Acct;
      var ok := PreFundAsset(env, i.assetIn, i.amountIn, pool1);
      if !ok { return None; }
      var res1 := CallSwap(env, pool1, FirstHop(env, i), ans.first);
      if res1.None? || res1.value == 0 { return None; }
      ok := bank.Transfer(Acct(id), Acct(pool2), Native(HBD), res1.value);
      if !ok { return None; }
      var res2 := CallSwap(env, pool2, SecondHop(env, i, res1.value), ans.second);
      if res2.None? { return None; }
      r := Bridge(env, res2.value, i, ans);
    }

    // findPool.
    method Find(a: string, b: string) returns (pool: string)
      requires Valid()
      ensures pool == if Lookup(reg, a, b).Some? then Lookup(reg, a, b).value else ""
      ensures Lookup(reg, a, b).Some? <==> pool != ""
    {
      FindPoolExact(store, reg, codec, a, b);
      PoolsNamed(store, reg, codec, a, b);
      hide Represents, Lawful;
      var astA, astB := Lower(a), Lower(b);
      if Less(astB, astA) { astA, astB := astB, astA; }
      return GetStr(store, PoolKey(astA, astB));
    }

    method ExecuteSwap(env: Env, instr: Instruction, ans: Answers) returns (r: Option<Receipt>)
      requires Valid() && env.self == id
      modifies bank, pools.Values
      ensures Valid()
      ensures var o := R.ExecuteSwap(old(Now()), reg, env, instr, ans);
        r == Told(o) && (o.Some? ==> Now() == o.value.world)
    {
      hide Represents, Lawful, R.DirectSwap, R.TwoHopSwap, Lookup, Lower, PS.View;
      var i := instr.(assetIn := Lower(instr.assetIn), assetOut := Lower(instr.assetOut));
      if i.assetIn == i.assetOut { return None; }
      var direct := Find(i.assetIn, i.assetOut);
      if direct != "" {
        r := ExecuteDirectSwap(env, direct, i, ans);
        return;
      }
      if i.assetIn == HBD || i.assetOut == HBD { return None; }
      var pool1 := Find(i.assetIn, HBD);
      if pool1 == "" { return None; }
      var pool2 := Find(HBD, i.assetOut);
      if pool2 == "" { return None; }
      r := ExecuteTwoHopSwap(env, pool1, pool2, i, ans);
    }

    method ExecuteDeposit(env: Env, i: Instruction) returns (r: Option<Receipt>)
      requires Valid() && env.self == id
      modifies bank, pools.Values
      ensures Valid()
      ensures var o := R.ExecuteDeposit(old(Now()), reg, env, i);
        r == Told(o) && (o.Some? ==> Now() == o.value.world)
    {
      hide Represents, Lawful, PreFund, P.AddLiquidity, Lookup, PS.View;
      var pool := Find(i.asset0, i.asset1);
      if pool == "" || pool !in pools { return None; }
      var ok := PreFundAsset(env, i.asset0, i.amount0, pool);
      if !ok { return None; }
      ok := PreFundAsset(env, i.asset1, i.amount1, pool);
      if !ok { return None; }
      ghost var l := bank.ledger;
      var minted := pools[pool].AddLiquidity(PoolEnv(env, pool), DepositParams(i));
      if minted.None? { return None; }
      ghost var d := P.AddLiquidity(old(States()[pool]), l, PoolEnv(env, pool), DepositParams(i));
      assert States() == old(States())[pool := d.value.pool];
      return Some(Receipt(minted.value, 0, None));
    }

    method ExecuteWithdrawal(env: Env, i: Instruction) returns (r: Option<Receipt>)
      requires Valid() && env.self == id
      modifies bank, pools.Values
      ensures Valid()
      ensures var o := R.ExecuteWithdrawal(old(Now()), reg, env, i);
        r == Told(o) && (o.Some? ==> Now() == o.value.world)
    {
      hide Represents, Lawful, P.RemoveLiquidity, Lookup, PS.View;
      if i.recipient != env.caller { return None; }
      var pool := Find(i.asset0, i.asset1);
      if pool == "" || pool !in pools { return None; }
      var q := RemoveParams(i.lpAmount, i.recipient);
      var burned := pools[pool].RemoveLiquidity(PoolEnv(env, pool), q);
      if burned.None? { return None; }
      ghost var d := P.RemoveLiquidity(old(States()[pool]), old(bank.ledger), PoolEnv(env, pool), q);
      assert States() == old(States())[pool := d.value.pool];
      return Some(Receipt(burned.value, 0, None));
    }

    method ExecuteBody(env: Env, instr: Instruction, ans: Answers) returns (r: Option<Receipt>)
      requires Valid() && env.self == id
      modifies bank, pools.Values
      ensures Valid()
      ensures var o := R.Execute(old(Now()), reg, env, instr, ans);
        r == Told(o) && (o.Some? ==> Now() == o.value.world)
    {
      hide Represents, Lawful, R.ExecuteSwap, R.ExecuteDeposit, R.ExecuteWithdrawal, PS.View, Acct, Upper, Lower, Less;
      var callerIsContract := env.kind(env.caller) == "contract";
      if !callerIsContract && !ans.signed { return None; }
      if instr.kind == "" || instr.version == "" || instr.recipient == "" { return None; }
      if instr.recipient == Acct(env.self) { return None; }
      var i := instr.(chain := Upper(instr.chain));
      if i.chain == "" || i.chain == "MAGI" {
        if env.kind(i.recipient) == "unknown" { return None; }
        i := i.(chain := "");
      }
      EmptyChain();
      assert i == instr.(chain := HomeChain(instr.chain));
      if i.kind == "swap" {
        if i.assetIn == "" || i.assetOut == "" { return None; }
        r := ExecuteSwap(env, i, ans);
      } else if i.kind == "deposit" || i.kind == "withdrawal" {
        if i.asset0 == "" || i.asset1 == "" { return None; }
        var deposit := i.kind == "deposit";
        i := i.(asset0 := Lower(i.asset0), asset1 := Lower(i.asset1));
        if Less(i.asset1, i.asset0) {
          i := i.(asset0 := i.asset1, asset1 := i.asset0, amount0 := i.amount1, amount1 := i.amount0);
        }
        if deposit { r := ExecuteDeposit(env, i); } else { r := ExecuteWithdrawal(env, i); }
      } else {
        return None;
      }
    }

    // The call as the host runs it: an abort anywhere, also inside a pool's contract, undoes
    // everything every contract did.
    method Execute(env: Env, instr: Instruction, ans: Answers) returns (r: Option<Receipt>)
      requires Valid() && env.self == id
      modifies bank, pools.Values
      ensures Valid()
      ensures var o := R.Execute(old(Now()), reg, env, instr, ans);
        && r == Told(o)
        && Now() == (if o.None? then old(Now()) else o.value.world)
    {
      hide Represents, Lawful, R.Execute, PS.View;
      var savedLedger := bank.ledger;
      var savedStores := map k | k in pools :: pools[k].store;
      r := ExecuteBody(env, instr, ans);
      if r.None? {
        bank.ledger := savedLedger;
        forall k | k in pools { pools[k].store := savedStores[k]; }
        assert States() == old(States());
      }
    }
  }

  lemma EmptyChain()
    ensures Upper("") == ""
  {
  }

  lemma TokenReading(s: Store, r: Registry, c: Codec, name: string)
    requires Represents(s, r, c) && Lower(name) == name
    ensures GetStr(s, AssetKey(name)) == "" <==> name !in r.tokens
    ensures name in r.tokens ==> (
      && c.unmarshal(GetStr(s, AssetKey(name))).Some?
      && c.unmarshal(GetStr(s, AssetKey(name))).value.mapping == r.tokens[name].mapping
      && c.unmarshal(GetStr(s, AssetKey(name))).value.chain == r.tokens[name].chain)
  {
    hide ListsMatch, PoolsMatch, Lower;
  }

  lemma ChainNotEmpty(s: Store, r: Registry, c: Codec, name: string)
    requires Represents(s, r, c)
    ensures name in r.tokens ==> r.tokens[name].chain != ""
  {
    hide PoolsMatch, TokensMatch, Lists, Distinct;
    if name in r.tokens { ChainFacts(r.tokens[name].chain); }
  }

  lemma RegisteredMeans(s: Store, r: Registry, c: Codec, name: string)
    requires Represents(s, r, c) && Lower(name) == name
    ensures GetStr(s, AssetKey(name)) != "" <==> name in r.tokens
    ensures AssetKey(name) == ASSET_PREFIX + name
  {
    hide ListsMatch, PoolsMatch, Lower;
  }

  lemma PoolsNamed(s: Store, r: Registry, c: Codec, a: string, b: string)
    requires Represents(s, r, c)
    ensures Pair(a, b) in r.pools <==> FindPool(s, a, b) != ""
  {
    hide ListsMatch, TokensMatch, Lower, Less;
  }

  lemma SchemaLists(s: Store, r: Registry, c: Codec)
    requires Represents(s, r, c)
    ensures GetStr(s, CHAINS_LIST) == "" ==> r.chains == []
    ensures GetStr(s, CHAINS_LIST) != "" ==> Dedup(Split(GetStr(s, CHAINS_LIST), ',')) == r.chains
    ensures GetStr(s, TOKENS_LIST) == "" ==> r.names == []
    ensures GetStr(s, TOKENS_LIST) != "" ==> Split(GetStr(s, TOKENS_LIST), ',') == r.names
  {
    hide TokensMatch, PoolsMatch, Split, Dedup;
    forall i | 0 <= i < |r.chains| ensures r.chains[i] != "" && Trim(r.chains[i]) == r.chains[i] {
      assert r.chains[i] in r.chains;
      ChainFacts(r.chains[i]);
    }
    DedupClean(r.chains);
  }

  lemma NameInSchema(s: Store, r: Registry, c: Codec, i: nat)
    requires Represents(s, r, c) && i < |r.names|
    ensures var name := r.names[i];
      && Trim(name) == name && name != "" && GetStr(s, AssetKey(name)) != "" && name in r.tokens
      && var info := c.unmarshal(GetStr(s, AssetKey(name)));
         info.Some? && r.tokens[name] == Listed(info.value)
  {
    hide PoolsMatch, Lists;
    var name := r.names[i];
    assert name in r.names;
    assert name in r.tokens;
    ValidNameFacts(name);
    RegisteredMeans(s, r, c, name);
  }
}
