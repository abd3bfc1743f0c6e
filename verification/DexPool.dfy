/** The pool contract as it runs: entry points that read and overwrite the key/value store
    in place and move balances through the host. Each is proved to do to the store exactly
    what module Pool says it does to the state the store stands for. */
module DexPool {
  import opened Text
  import opened Bank
  import opened StableSwap
  import opened P = Pool
  import opened PoolStore
  import opened Migration

  // The fee stored when none is asked for is the default one.
  function BaseFee(q: InitParams): nat {
    if q.feeBps == 0 then DEFAULT_BASE_FEE_BPS else q.feeBps
  }

  class DexPool {
    const id: string
    const bank: Bank
    var store: Store

    constructor (id: string, bank: Bank)
      ensures this.id == id && this.bank == bank && store == map[]
    {
      this.id := id;
      this.bank := bank;
      store := map[];
    }

    ghost function State(): P.Pool
      reads this
    {
      View(store)
    }

    // What the store keeps besides the state: the fee in basis points and the claim time.
    // No entry point computes anything from them.
    ghost function Kept(): (string, string)
      reads this
    {
      (GetStr(store, FEE), GetStr(store, FEE_LAST_CLAIM))
    }

    // ---------------------------------------------------------------- storage helpers

    // setBigInt stores the magnitude of any number; what is read back is the number only
    // when it was not negative.
    method SetBigInt(key: string, val: int)
      modifies this
      ensures store == old(store)[key := Bytes(val)]
      ensures GetBigInt(store, key) == val <==> 0 <= val
    {
      BytesRoundTrip(val);
      store := store[key := Bytes(val)];
    }

    method SetReserve(side0: bool, val: nat)
      modifies this
      ensures State() == if side0 then old(State()).(r0 := val) else old(State()).(r1 := val)
      ensures Kept() == old(Kept())
    {
      hide View, Bytes;
      PutReserve0(store, val);
      PutReserve1(store, val);
      SetBigInt(if side0 then RESERVE0 else RESERVE1, val);
    }

    method SetSystemFee(side0: bool, val: nat)
      modifies this
      ensures State() == if side0 then old(State()).(fee0 := val) else old(State()).(fee1 := val)
      ensures Kept() == old(Kept())
    {
      hide View, Bytes;
      PutSystemFee0(store, val);
      PutSystemFee1(store, val);
      SetBigInt(if side0 then SYSTEM_FEE0 else SYSTEM_FEE1, val);
    }

    method SetTotalLp(val: nat)
      modifies this
      ensures State() == old(State()).(totalLp := val)
      ensures Kept() == old(Kept())
    {
      hide View, Bytes;
      PutTotalLp(store, val);
      SetBigInt(TOTAL_LP, val);
    }

    method SetLp(who: string, val: nat)
      modifies this
      ensures State() == old(State()).(lp := old(State()).lp[who := val])
      ensures Kept() == old(Kept())
    {
      hide View, Bytes;
      PutHolder(store, who, val);
      LpKeysApart(who, who);
      SetBigInt(LpKey(who), val);
    }

    // ---------------------------------------------------------------- swap

    // The reply's checks and the amounts computed from it, in the source's order.
    static method PriceReply(pricing: Pricing, rIn: nat, rOut: nat, amountIn: int, reply: Reply, refBps: Option<nat>)
      returns (r: Option<Settlement>)
      ensures r == Settle(pricing, rIn, rOut, amountIn, reply, refBps)
    {
      if rIn == 0 || rOut == 0 { return None; }
      var maxSwap := rIn / 2;
      if amountIn <= 0 || amountIn > maxSwap { return None; }
      if !Parsed(reply) { return None; }
      var amountOut, networkCredit := reply.user.value, reply.credit.value;
      var newRIn, newROut := reply.newX.value, reply.newY.value;
      if amountOut <= 0 || newRIn <= 0 || newROut <= 0 || networkCredit < 0 || newRIn < rIn { return None; }
      if pricing.OnProduct? {
        var cpmmFloor := rIn * rOut / (rIn + amountIn);
        if newROut < cpmmFloor { return None; }
      } else if !reply.stable {
        return None;
      }
      if amountOut > rOut - newROut { return None; }
      if reply.lpShare.value == 0 && reply.nodeShare.value == 0 && networkCredit == 0 && amountOut > 1 {
        amountOut := amountOut - 1;
        networkCredit := networkCredit + 1;
        newROut := newROut + 1;
      }
      var refOut := 0;
      if refBps.Some? {
        if refBps.value > 10000 { return None; }
        refOut := Cut(amountOut, refBps.value);
        amountOut := amountOut - refOut;
      }
      if networkCredit > 0 {
        newROut := newROut - networkCredit;
        if newROut < 0 { return None; }
      }
      if pricing.OnStable? {
        var floor := StableFloorY(newRIn, rIn, rOut, pricing.rateIn, pricing.rateOut, pricing.amp);
        if floor.Err? { return None; }
        if newROut * pricing.rateOut < floor.value { return None; }
      }
      return Some(Settlement(newRIn, newROut, networkCredit, refOut, amountOut));
    }

    // The effects of a swap on the store.
    method StoreSwap(inputIsAsset0: bool, s: Settlement)
      modifies this
      ensures State() == WithSwap(old(State()), inputIsAsset0, s)
      ensures Kept() == old(Kept())
    {
      hide View;
      if s.credit > 0 {
        Reading(store);
        var currentShare := GetBigInt(store, if inputIsAsset0 then SYSTEM_FEE1 else SYSTEM_FEE0);
        SetSystemFee(!inputIsAsset0, currentShare + s.credit);
      }
      SetReserve(inputIsAsset0, s.newIn);
      SetReserve(!inputIsAsset0, s.newOut);
    }

    // The swap's movements of balances: the host's node share, the input, the payments.
    method MoveFunds(env: Env, q: SwapParams, inA: AssetId, outA: AssetId, nodeMove: nat, a: int, s: Settlement)
      returns (ok: bool)
      requires env.self == id && 0 <= a
      modifies bank
      ensures var l := SwapLedger(old(bank.ledger), env, q, inA, outA, nodeMove, a, s);
        ok == l.Some? && (ok ==> bank.ledger == l.value)
    {
      hide Move;
      ok := bank.Transfer(Acct(id), NODES, Native(HBD), nodeMove);
      if !ok { return; }
      if !q.preDeposited {
        ok := bank.Transfer(q.from, Acct(id), inA, a);
        if !ok { return; }
      }
      if q.beneficiary.Some? && s.referral > 0 {
        ok := bank.Transfer(Acct(id), q.beneficiary.value, outA, s.referral);
        if !ok { return; }
      }
      ok := bank.Transfer(Acct(id), q.to, outA, s.user);
    }

    // The request's checks and what they read from the store.
    method AcceptSwap(env: Env, q: SwapParams) returns (r: Option<Plan>)
      ensures r == MakePlan(State(), env, q)
    {
      hide View, Orient;
      Reading(store);
      if q.assetIn == "" || q.assetOut == "" || q.to == "" { return None; }
      if env.kind(q.to) == "unknown" { return None; }
      var assetIn, assetOut := Lower(q.assetIn), Lower(q.assetOut);
      var asset0Name, asset1Name := GetStr(store, ASSET0_NAME), GetStr(store, ASSET1_NAME);
      var inputIsAsset0: bool;
      if asset0Name == assetIn && asset1Name == assetOut {
        inputIsAsset0 := true;
      } else if asset1Name == assetIn && asset0Name == assetOut {
        inputIsAsset0 := false;
      } else {
        return None;
      }
      var asset0 := NewAsset(asset0Name, GetStr(store, ASSET0_MAPPING));
      var asset1 := NewAsset(asset1Name, GetStr(store, ASSET1_MAPPING));
      if asset0.None? || asset1.None? { return None; }
      var inputAsset := if inputIsAsset0 then asset0.value else asset1.value;
      var outputAsset := if inputIsAsset0 then asset1.value else asset0.value;
      var rIn := GetBigInt(store, if inputIsAsset0 then RESERVE0 else RESERVE1);
      var rOut := GetBigInt(store, if inputIsAsset0 then RESERVE1 else RESERVE0);
      if q.amountIn.None? { return None; }
      var curve := CurveOf(GetStr(store, CURVE), GetStr(store, AMP), GetStr(store, DECIMALS0),
        GetStr(store, DECIMALS1));
      var pricing := Orient(curve, inputIsAsset0);
      if pricing.None? { return None; }
      if env.kind(q.from) == "unknown" { return None; }
      if q.preDeposited {
        var routerId := GetStr(store, ROUTER);
        if routerId == "" || env.caller != Acct(routerId) { return None; }
      } else if q.from != env.caller {
        return None;
      }
      if q.beneficiary.Some? && q.refBps.Some? && env.kind(q.beneficiary.value) == "unknown" { return None; }
      return Some(Plan(inputIsAsset0, inputAsset, outputAsset, pricing.value, rIn, rOut, q.amountIn.value));
    }

    // The source's swap; an abort leaves it half done.
    method SwapBody(env: Env, q: SwapParams, reply: Reply) returns (r: Option<nat>)
      requires env.self == id
      modifies this, bank
      ensures Kept() == old(Kept())
      ensures match P.Swap(old(State()), old(bank.ledger), env, q, reply)
        case None => r.None?
        case Some(done) => r == Some(done.amount) && State() == done.pool && bank.ledger == done.ledger
    {
      hide View;
      var plan := AcceptSwap(env, q);
      if plan.None? { return None; }
      var s := PriceReply(plan.value.pricing, plan.value.rIn, plan.value.rOut, plan.value.a, reply,
                          if q.beneficiary.Some? then q.refBps else None);
      if s.None? { return None; }
      if q.minOut.Some? {
        if q.minOut.value.None? || s.value.user < q.minOut.value.value { return None; }
      }
      StoreSwap(plan.value.inIs0, s.value);
      var ok := MoveFunds(env, q, plan.value.inA, plan.value.outA, reply.nodeMove, plan.value.a, s.value);
      if !ok { return None; }
      return Some(s.value.user);
    }

    // The call as the host runs it: an abort undoes everything.
    method Swap(env: Env, q: SwapParams, reply: Reply) returns (r: Option<nat>)
      requires env.self == id
      modifies this, bank
      ensures Kept() == old(Kept())
      ensures match P.Swap(old(State()), old(bank.ledger), env, q, reply)
        case None => r.None? && store == old(store) && bank.ledger == old(bank.ledger)
        case Some(done) => r == Some(done.amount) && State() == done.pool && bank.ledger == done.ledger
    {
      hide View, P.Swap;
      var savedStore, savedLedger := store, bank.ledger;
      r := SwapBody(env, q, reply);
      if r.None? {
        store := savedStore;
        bank.ledger := savedLedger;
      }
    }

    // ---------------------------------------------------------------- liquidity

    method MintedBody(amt0: nat, amt1: nat) returns (minted: Option<nat>)
      ensures minted == Minted(State(), amt0, amt1)
    {
      hide View, Sqrt, Proportion;
      Reading(store);
      var r0, r1, totalLP := GetBigInt(store, RESERVE0), GetBigInt(store, RESERVE1), GetBigInt(store, TOTAL_LP);
      if totalLP == 0 {
        return Some(Sqrt(amt0 * amt1));
      }
      if r0 == 0 || r1 == 0 { return None; }   // division by zero
      var m0 := Proportion(amt0, totalLP, r0);
      var m1 := Proportion(amt1, totalLP, r1);
      minted := Some(m0);
      if m1 < m0 { minted := Some(m1); }
    }

    method StoreAdd(amt0: nat, amt1: nat, provider: string, minted: nat)
      modifies this
      ensures State() == WithAdd(old(State()), amt0, amt1, provider, minted)
      ensures Kept() == old(Kept())
    {
      hide View;
      Reading(store);
      var r0, r1, totalLP := GetBigInt(store, RESERVE0), GetBigInt(store, RESERVE1), GetBigInt(store, TOTAL_LP);
      var currentLP := GetBigInt(store, LpKey(provider));
      SetReserve(true, r0 + amt0);
      SetReserve(false, r1 + amt1);
      SetTotalLp(totalLP + minted);
      SetLp(provider, currentLP + minted);
    }

    method AddBody(env: Env, q: AddParams) returns (r: Option<nat>)
      requires env.self == id
      modifies this, bank
      ensures Kept() == old(Kept())
      ensures match P.AddLiquidity(old(State()), old(bank.ledger), env, q)
        case None => r.None?
        case Some(done) => r == Some(done.amount) && State() == done.pool && bank.ledger == done.ledger
    {
      hide View, Move, Minted, WithAdd, WithRemove;
      Reading(store);
      if q.amt0.None? || q.amt1.None? { return None; }
      var amt0, amt1 := q.amt0.value, q.amt1.value;
      if amt0 <= 0 || amt1 <= 0 || q.recipient == "" { return None; }
      if env.kind(q.recipient) == "unknown" { return None; }
      var asset0 := NewAsset(GetStr(store, ASSET0_NAME), GetStr(store, ASSET0_MAPPING));
      var asset1 := NewAsset(GetStr(store, ASSET1_NAME), GetStr(store, ASSET1_MAPPING));
      if asset0.None? || asset1.None? { return None; }
      if q.pre0 || q.pre1 {
        var routerId := GetStr(store, ROUTER);
        if routerId == "" || env.caller != Acct(routerId) { return None; }
      }
      var ok := true;
      if !q.pre0 { ok := bank.Transfer(env.caller, Acct(id), asset0.value, amt0); }
      if !ok { return None; }
      if !q.pre1 { ok := bank.Transfer(env.caller, Acct(id), asset1.value, amt1); }
      if !ok { return None; }
      var minted := MintedBody(amt0, amt1);
      if minted.None? || minted.value <= 0 { return None; }
      if q.minLp.Some? {
        if q.minLp.value.None? || minted.value < q.minLp.value.value { return None; }
      }
      StoreAdd(amt0, amt1, q.recipient, minted.value);
      return Some(minted.value);
    }

    method AddLiquidity(env: Env, q: AddParams) returns (r: Option<nat>)
      requires env.self == id
      modifies this, bank
      ensures Kept() == old(Kept())
      ensures match P.AddLiquidity(old(State()), old(bank.ledger), env, q)
        case None => r.None? && store == old(store) && bank.ledger == old(bank.ledger)
        case Some(done) => r == Some(done.amount) && State() == done.pool && bank.ledger == done.ledger
    {
      hide View, P.AddLiquidity;
      var savedStore, savedLedger := store, bank.ledger;
      r := AddBody(env, q);
      if r.None? {
        store := savedStore;
        bank.ledger := savedLedger;
      }
    }

    // What a withdrawal takes from the store, and the two amounts it pays.
    method StoreRemove(who: string, lpAmount: nat) returns (amt0: nat, amt1: nat)
      requires 0 < lpAmount <= State().totalLp && lpAmount <= Lp(State(), who)
      modifies this
      ensures State() == WithRemove(old(State()), who, lpAmount)
      ensures Kept() == old(Kept())
      ensures amt0 == Share(old(State()).r0, lpAmount, old(State()).totalLp)
      ensures amt1 == Share(old(State()).r1, lpAmount, old(State()).totalLp)
    {
      hide View;
      Reading(store);
      var userLP, totalLP := GetBigInt(store, LpKey(who)), GetBigInt(store, TOTAL_LP);
      var r0, r1 := GetBigInt(store, RESERVE0), GetBigInt(store, RESERVE1);
      ShareBound(r0, lpAmount, totalLP);
      ShareBound(r1, lpAmount, totalLP);
      amt0, amt1 := r0 * lpAmount / totalLP, r1 * lpAmount / totalLP;
      // no difference below can be negative, so the source's underflow refusal is never taken
      SetLp(who, userLP - lpAmount);
      SetTotalLp(totalLP - lpAmount);
      SetReserve(true, r0 - amt0);
      SetReserve(false, r1 - amt1);
    }

    method RemoveBody(env: Env, q: RemoveParams) returns (r: Option<nat>)
      requires env.self == id
      modifies this, bank
      ensures Kept() == old(Kept())
      ensures match P.RemoveLiquidity(old(State()), old(bank.ledger), env, q)
        case None => r.None?
        case Some(done) => r == Some(done.amount) && State() == done.pool && bank.ledger == done.ledger
    {
      hide View, Move, Minted, WithAdd, WithRemove;
      Reading(store);
      if q.lpAmount.None? || q.lpAmount.value <= 0 || q.recipient == "" { return None; }
      if env.kind(q.recipient) == "unknown" { return None; }
      var lpAmount := q.lpAmount.value;
      var routerId := GetStr(store, ROUTER);
      var isRouter := routerId != "" && env.caller == Acct(routerId);
      if env.caller != q.recipient && !isRouter { return None; }
      var userLP, totalLP := GetBigInt(store, LpKey(q.recipient)), GetBigInt(store, TOTAL_LP);
      if lpAmount > userLP || lpAmount > totalLP { return None; }
      var asset0 := NewAsset(GetStr(store, ASSET0_NAME), GetStr(store, ASSET0_MAPPING));
      var asset1 := NewAsset(GetStr(store, ASSET1_NAME), GetStr(store, ASSET1_MAPPING));
      var amt0, amt1 := StoreRemove(q.recipient, lpAmount);
      if asset0.None? || asset1.None? { return None; }
      var ok := true;
      if amt0 > 0 { ok := bank.Transfer(Acct(id), q.recipient, asset0.value, amt0); }
      if !ok { return None; }
      if amt1 > 0 { ok := bank.Transfer(Acct(id), q.recipient, asset1.value, amt1); }
      if !ok { return None; }
      return Some(lpAmount);
    }

    method RemoveLiquidity(env: Env, q: RemoveParams) returns (r: Option<nat>)
      requires env.self == id
      modifies this, bank
      ensures Kept() == old(Kept())
      ensures match P.RemoveLiquidity(old(State()), old(bank.ledger), env, q)
        case None => r.None? && store == old(store) && bank.ledger == old(bank.ledger)
        case Some(done) => r == Some(done.amount) && State() == done.pool && bank.ledger == done.ledger
    {
      hide View, P.RemoveLiquidity;
      var savedStore, savedLedger := store, bank.ledger;
      r := RemoveBody(env, q);
      if r.None? {
        store := savedStore;
        bank.ledger := savedLedger;
      }
    }

    // ---------------------------------------------------------------- fees

    method PayFeeOut(env: Env, owner: string, asset: Option<AssetId>, fee: nat) returns (ok: bool)
      requires env.self == id
      modifies bank
      ensures var l := PayFee(old(bank.ledger), env, owner, asset, fee);
        ok == l.Some? && (ok ==> bank.ledger == l.value)
    {
      if fee == 0 { return true; }
      if asset.None? { return false; }
      if asset.value.Native? {
        ok := bank.Withdraw(Acct(id), asset.value, fee);
      } else {
        ok := bank.Transfer(Acct(id), owner, asset.value, fee);
      }
    }

    method ClaimBody(env: Env) returns (r: Option<nat>)
      requires env.self == id
      modifies this, bank
      ensures r.Some? ==> env.stamp.Some? && Kept() == (old(Kept()).0, env.stamp.value)
      ensures match P.ClaimFees(old(State()), old(bank.ledger), env)
        case None => r.None?
        case Some(done) => r == Some(done.amount) && State() == done.pool && bank.ledger == done.ledger
    {
      hide View;
      Reading(store);
      if env.owner.None? || env.owner.value == "" { return None; }
      var owner := env.owner.value;
      if env.caller != owner { return None; }
      var f0, f1 := GetBigInt(store, SYSTEM_FEE0), GetBigInt(store, SYSTEM_FEE1);
      var asset0 := NewAsset(GetStr(store, ASSET0_NAME), GetStr(store, ASSET0_MAPPING));
      var asset1 := NewAsset(GetStr(store, ASSET1_NAME), GetStr(store, ASSET1_MAPPING));
      if f0 > 0 { SetSystemFee(true, 0); }
      var ok := PayFeeOut(env, owner, asset0, f0);
      if !ok { return None; }
      if f1 > 0 { SetSystemFee(false, 0); }
      ok := PayFeeOut(env, owner, asset1, f1);
      if !ok { return None; }
      if env.stamp.None? { return None; }
      PutUnseen(store, env.stamp.value);
      store := store[FEE_LAST_CLAIM := env.stamp.value];
      return Some(0);
    }

    method ClaimFees(env: Env) returns (r: Option<nat>)
      requires env.self == id
      modifies this, bank
      ensures r.Some? ==> env.stamp.Some? && Kept() == (old(Kept()).0, env.stamp.value)
      ensures match P.ClaimFees(old(State()), old(bank.ledger), env)
        case None => r.None? && store == old(store) && bank.ledger == old(bank.ledger)
        case Some(done) => r == Some(done.amount) && State() == done.pool && bank.ledger == done.ledger
    {
      hide View, P.ClaimFees;
      var savedStore, savedLedger := store, bank.ledger;
      r := ClaimBody(env);
      if r.None? {
        store := savedStore;
        bank.ledger := savedLedger;
      }
    }

    // ---------------------------------------------------------------- opening and migrating

    method SetName(side0: bool, val: string)
      modifies this
      ensures store == old(store)[if side0 then ASSET0_NAME else ASSET1_NAME := val]
      ensures State() == if side0 then old(State()).(name0 := val) else old(State()).(name1 := val)
    {
      hide View;
      PutName0(store, val);
      PutName1(store, val);
      store := store[if side0 then ASSET0_NAME else ASSET1_NAME := val];
    }

    method SetMapping(side0: bool, val: string)
      modifies this
      ensures store == old(store)[if side0 then ASSET0_MAPPING else ASSET1_MAPPING := val]
      ensures State() == if side0 then old(State()).(map0 := val) else old(State()).(map1 := val)
    {
      hide View;
      PutMapping0(store, val);
      PutMapping1(store, val);
      store := store[if side0 then ASSET0_MAPPING else ASSET1_MAPPING := val];
    }

    method SetRouter(val: string)
      modifies this
      ensures store == old(store)[ROUTER := val] && State() == old(State()).(router := val)
    {
      hide View;
      PutRouter(store, val);
      store := store[ROUTER := val];
    }

    method SetVersion(val: string)
      modifies this
      ensures store == old(store)[MIGRATE_VER := val] && State() == old(State()).(version := val)
    {
      hide View;
      PutVersion(store, val);
      store := store[MIGRATE_VER := val];
    }

    method InitBody(env: Env, q: InitParams) returns (ok: bool)
      modifies this
      ensures ok ==> env.stamp.Some? && Kept() == (Bytes(BaseFee(q)), env.stamp.value) && BaseFee(q) <= 10000
      ensures var p := P.Init(old(State()), env, q);
        ok == p.Some? && (ok ==> State() == p.value)
    {
      Reading(store);
      if env.owner.None? || env.caller != env.owner.value { return false; }
      if GetStr(store, MIGRATE_VER) != "" { return false; }
      var o := Ordered(q);
      if o.asset0 == o.asset1 { return false; }
      if o.map0 != "" && !ContractId(env, o.map0) { return false; }
      if o.map1 != "" && !ContractId(env, o.map1) { return false; }
      if NewAsset(o.asset0, o.map0).None? || NewAsset(o.asset1, o.map1).None? { return false; }
      var feeBps := BaseFee(o);
      if feeBps > 10000 { return false; }
      var curve := InitCurve(o);
      if curve.None? || env.stamp.None? { return false; }
      if o.router == "" || !ContractId(env, o.router) { return false; }
      StoreInit(o, feeBps, env.stamp.value, curve.value);
      return true;
    }

    method StoreInit(o: InitParams, feeBps: nat, stamp: string, curve: Curve)
      requires InitCurve(o) == Some(curve)
      modifies this
      ensures Kept() == (Bytes(feeBps), stamp)
      ensures State() == P.Pool(o.asset0, o.asset1, o.map0, o.map1, 0, 0, 0, 0, 0, old(State()).lp, o.router,
        if o.curve == "" then old(State()).curve else curve, VERSION)
    {
      hide View;
      SetName(true, o.asset0);
      SetName(false, o.asset1);
      SetMapping(true, o.map0);
      SetMapping(false, o.map1);
      SetReserve(true, 0);
      SetReserve(false, 0);
      PutUnseen(store, Bytes(feeBps));
      SetBigInt(FEE, feeBps);
      SetTotalLp(0);
      SetSystemFee(true, 0);
      SetSystemFee(false, 0);
      PutUnseen(store, stamp);
      store := store[FEE_LAST_CLAIM := stamp];
      SetRouter(o.router);
      if o.curve == "stable" {
        PutCurve(store, o.amp, o.dec0.value, o.dec1.value);
        store := store[CURVE := "stable"][AMP := Decimal(o.amp)];
        store := store[DECIMALS0 := Decimal(o.dec0.value)][DECIMALS1 := Decimal(o.dec1.value)];
      }
      SetVersion(VERSION);
    }

    method Init(env: Env, q: InitParams) returns (ok: bool)
      modifies this
      ensures ok ==> env.stamp.Some? && GetStr(store, FEE_LAST_CLAIM) == env.stamp.value
      ensures ok ==> GetBigInt(store, FEE) == (if q.feeBps == 0 then 8 else q.feeBps) <= 10000
      ensures var p := P.Init(old(State()), env, q);
        ok == p.Some? && (if ok then State() == p.value else store == old(store))
    {
      hide View, P.Init;
      var savedStore := store;
      ok := InitBody(env, q);
      if !ok { store := savedStore; }
      BytesRoundTrip(BaseFee(q));
    }

    // Version "": cache the asset names, and take the router from the payload.
    method MigrateV1(router: Option<string>, parse: AssetReader)
      requires Consistent(store, parse) && State().version == ""
      modifies this
      ensures Consistent(store, parse) && State().version == "1"
      ensures var p := old(Meaning(store, parse));
        Meaning(store, parse) == (if router.Some? then p.(router := router.value) else p).(version := "1")
      ensures Described(store, parse)
      ensures GetStr(store, FEE_LAST_CLAIM) == old(GetStr(store, FEE_LAST_CLAIM))
    {
      hide View;
      var name0, name1 := parse(GetStr(store, OLD_ASSET0)).value.0, parse(GetStr(store, OLD_ASSET1)).value.0;
      SetName(false, name0);   // the key of asset1's name in the later layouts
      OldNameIsForeign();
      PutForeign(store, OLD_NAME1, name1);
      store := store[OLD_NAME1 := name1];
      if router.Some? { SetRouter(router.value); }
      SetVersion("1");
    }

    // Version 1: one key for each name and mapping contract. "a1n" is read before it is
    // given its new meaning.
    method MigrateV2(parse: AssetReader)
      requires Consistent(store, parse) && State().version == "1"
      modifies this
      ensures Consistent(store, parse) && State().version == "2"
      ensures Meaning(store, parse) == old(Meaning(store, parse)).(version := "2")
      ensures GetStr(store, FEE_LAST_CLAIM) == old(GetStr(store, FEE_LAST_CLAIM))
    {
      hide View;
      var oldAsset0Name, oldAsset1Name := GetStr(store, OLD_NAME0), GetStr(store, OLD_NAME1);
      var asset0Mapping, asset1Mapping := MappingOf(store, OLD_ASSET0, parse), MappingOf(store, OLD_ASSET1, parse);
      SetName(true, oldAsset0Name);
      SetName(false, oldAsset1Name);
      SetMapping(true, asset0Mapping);
      SetMapping(false, asset1Mapping);
      SetVersion("2");
    }

    // Version 2: the claim time in binary; stampOf is the date parser.
    method MigrateV3(parse: AssetReader, stampOf: string -> Option<string>) returns (ok: bool)
      requires Consistent(store, parse) && State().version == "2"
      modifies this
      ensures ok <==> old(GetStr(store, FEE_LAST_CLAIM)) == "" || stampOf(old(GetStr(store, FEE_LAST_CLAIM))).Some?
      ensures ok ==> Consistent(store, parse) && State().version == "3"
      ensures ok ==> Meaning(store, parse) == old(Meaning(store, parse)).(version := "3")
    {
      hide View;
      var oldTs := GetStr(store, FEE_LAST_CLAIM);
      if oldTs != "" {
        var t := stampOf(oldTs);
        if t.None? { return false; }
        PutUnseen(store, t.value);
        store := store[FEE_LAST_CLAIM := t.value];
      }
      SetVersion("3");
      return true;
    }

    // Version 3: asset0 and asset1 in byte order of their names.
    method MigrateV4(parse: AssetReader)
      requires Consistent(store, parse) && State().version == "3"
      modifies this
      ensures Consistent(store, parse)
      ensures State() == Migrated(old(State()), None)
    {
      hide View;
      Reading(store);
      var a0n, a1n := GetStr(store, ASSET0_NAME), GetStr(store, ASSET1_NAME);
      if Less(a1n, a0n) {
        SetName(true, a1n);
        SetName(false, a0n);
        Reading(store);
        var m0, m1 := GetStr(store, ASSET0_MAPPING), GetStr(store, ASSET1_MAPPING);
        SetMapping(true, m1);
        SetMapping(false, m0);
        Reading(store);
        var r0, r1 := GetBigInt(store, RESERVE0), GetBigInt(store, RESERVE1);
        SetReserve(true, r1);
        SetReserve(false, r0);
        Reading(store);
        var f0, f1 := GetBigInt(store, SYSTEM_FEE0), GetBigInt(store, SYSTEM_FEE1);
        SetSystemFee(true, f1);
        SetSystemFee(false, f0);
      }
      SetVersion("4");
    }

    // From any layout, the versions run in turn and reach the current one with the meaning
    // kept; an unreadable claim time aborts.
    method Migrate(env: Env, router: Option<string>, parse: AssetReader, stampOf: string -> Option<string>)
      returns (r: Option<string>)
      requires Consistent(store, parse)
      modifies this
      ensures r.None? ==> store == old(store)
      ensures r.Some? <==> (env.owner.Some? && env.caller == env.owner.value
        && (old(State()).version in {"3", VERSION} || old(GetStr(store, FEE_LAST_CLAIM)) == ""
            || stampOf(old(GetStr(store, FEE_LAST_CLAIM))).Some?))
      ensures r.Some? ==> r.value == VERSION && State() == Migrated(old(Meaning(store, parse)), router)
      ensures old(State()).version == VERSION ==> store == old(store)
    {
      hide View, Less, Meaning, Migrated, Mirror, Consistent;
      Reading(store);
      if env.owner.None? || env.caller != env.owner.value { return None; }
      MigratedInSteps(Meaning(store, parse), router);
      MeaningVersion(store, parse);
      var savedStore := store;
      var version := GetStr(store, MIGRATE_VER);
      VersionOrder(version);
      VersionOrder("2");
      VersionOrder("3");
      if Less(version, "1") { MigrateV1(router, parse); }
      if Less(version, "2") { MigrateV2(parse); version := "2"; }
      if Less(version, "3") {
        var ok := MigrateV3(parse, stampOf);
        if !ok { store := savedStore; return None; }
        version := "3";
      }
      MeaningNow(store, parse);
      if Less(version, "4") { MigrateV4(parse); version := "4"; }
      Reading(store);
      return Some(GetStr(store, MIGRATE_VER));
    }
  }

  lemma VersionOrder(v: string)
    requires v in {"", "1", "2", "3", "4"}
    ensures Less(v, "1") <==> v == ""
    ensures Less(v, "2") <==> v in {"", "1"}
    ensures Less(v, "3") <==> v in {"", "1", "2"}
    ensures Less(v, "4") <==> v in {"", "1", "2", "3"}
  {
  }
}
