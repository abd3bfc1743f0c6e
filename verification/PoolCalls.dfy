/** Runs of calls on one pool, and the two sides of a pool being interchangeable. */
module PoolCalls {
  import opened Text
  import opened Bank
  import opened P = Pool
  import opened Migration

  datatype Call = SwapCall(env: Env, swap: SwapParams, reply: Reply)
                | AddCall(env: Env, add: AddParams)
                | RemoveCall(env: Env, remove: RemoveParams)
                | ClaimCall(env: Env)

  function Step(p: P.Pool, l: Ledger, c: Call): Option<Done> {
    match c
    case SwapCall(env, q, reply) => Swap(p, l, env, q, reply)
    case AddCall(env, q) => AddLiquidity(p, l, env, q)
    case RemoveCall(env, q) => RemoveLiquidity(p, l, env, q)
    case ClaimCall(env) => ClaimFees(p, l, env)
  }

  // The pool and the ledger after a run; a refused call changes nothing.
  function Run(p: P.Pool, l: Ledger, cs: seq<Call>): (P.Pool, Ledger)
    decreases cs
  {
    if cs == [] then (p, l)
    else
      var d := Step(p, l, cs[0]);
      if d.Some? then Run(d.value.pool, d.value.ledger, cs[1..]) else Run(p, l, cs[1..])
  }

  // ------------------------------------------------------------------ exchanging the sides

  // A call made to the pool with its sides exchanged: a swap names its assets, a deposit
  // lists its amounts in the order of the sides.
  function MirrorCall(c: Call): Call {
    match c
    case AddCall(env, q) => AddCall(env, q.(amt0 := q.amt1, amt1 := q.amt0, pre0 := q.pre1, pre1 := q.pre0))
    case _ => c
  }

  function MirrorCalls(cs: seq<Call>): seq<Call> {
    if cs == [] then [] else [MirrorCall(cs[0])] + MirrorCalls(cs[1..])
  }

  function MirrorDone(d: Option<Done>): Option<Done> {
    if d.None? then None else Some(d.value.(pool := Mirror(d.value.pool)))
  }

  predicate SidesDiffer(p: P.Pool) {
    Lower(p.name0) != Lower(p.name1)
  }

  lemma SidesAreAssets(p: P.Pool)
    requires SidesDiffer(p)
    ensures Asset0(p).Some? && Asset1(p).Some? ==> Asset0(p).value != Asset1(p).value
  {
  }

  lemma MirrorPlan(p: P.Pool, env: Env, q: SwapParams)
    requires SidesDiffer(p)
    ensures var plan, plan' := MakePlan(p, env, q), MakePlan(Mirror(p), env, q);
      && (plan.Some? <==> plan'.Some?)
      && (plan.Some? ==> plan'.value == plan.value.(inIs0 := !plan.value.inIs0))
  {
    hide Lower;
  }

  lemma MirrorSwap(p: P.Pool, l: Ledger, env: Env, q: SwapParams, reply: Reply)
    requires SidesDiffer(p)
    ensures Swap(Mirror(p), l, env, q, reply) == MirrorDone(Swap(p, l, env, q, reply))
  {
    hide Settle, SwapLedger, MakePlan, SlippageOk, Referral, SidesDiffer;
    MirrorPlan(p, env, q);
  }

  lemma MirrorMinted(p: P.Pool, amt0: nat, amt1: nat)
    ensures Minted(Mirror(p), amt1, amt0) == Minted(p, amt0, amt1)
  {
    assert amt0 * amt1 == amt1 * amt0;
  }

  lemma DrawsCommute(l: Ledger, env: Env, pre0: bool, a: AssetId, m: nat, pre1: bool, b: AssetId, n: nat)
    requires a != b
    ensures var x := Draw(l, env, pre0, a, m); var y := Draw(l, env, pre1, b, n);
      (if x.None? then None else Draw(x.value, env, pre1, b, n))
        == (if y.None? then None else Draw(y.value, env, pre0, a, m))
  {
    hide Move;
    MovesCommute(l, env.caller, Acct(env.self), a, m, env.caller, Acct(env.self), b, n);
  }

  lemma PaysCommute(l: Ledger, me: string, to: string, a: AssetId, m: nat, b: AssetId, n: nat)
    requires a != b
    ensures var x := Pay(l, me, to, a, m); var y := Pay(l, me, to, b, n);
      (if x.None? then None else Pay(x.value, me, to, b, n)) == (if y.None? then None else Pay(y.value, me, to, a, m))
  {
    hide Move;
    MovesCommute(l, me, to, a, m, me, to, b, n);
  }

  lemma PayFeesCommute(l: Ledger, env: Env, owner: string, a: Option<AssetId>, m: nat, b: Option<AssetId>, n: nat)
    requires a.Some? && b.Some? ==> a.value != b.value
    ensures var x := PayFee(l, env, owner, a, m); var y := PayFee(l, env, owner, b, n);
      (if x.None? then None else PayFee(x.value, env, owner, b, n))
        == (if y.None? then None else PayFee(y.value, env, owner, a, m))
  {
    hide Move, Burn;
    var me := Acct(env.self);
    if a.Some? && b.Some? {
      MovesCommute(l, me, owner, a.value, m, me, owner, b.value, n);
      BurnCommutesWithMove(l, me, a.value, m, me, owner, b.value, n);
      BurnCommutesWithMove(l, me, b.value, n, me, owner, a.value, m);
      BurnsCommute(l, me, a.value, m, me, b.value, n);
    }
  }

  lemma MirrorAdd(p: P.Pool, l: Ledger, env: Env, q: AddParams)
    requires SidesDiffer(p)
    ensures Step(Mirror(p), l, MirrorCall(AddCall(env, q))) == MirrorDone(AddLiquidity(p, l, env, q))
  {
    hide Draw, Minted, NewAsset;
    SidesAreAssets(p);
    if q.amt0.Some? && q.amt1.Some? && 0 < q.amt0.value && 0 < q.amt1.value && Asset0(p).Some? && Asset1(p).Some? {
      DrawsCommute(l, env, q.pre0, Asset0(p).value, q.amt0.value, q.pre1, Asset1(p).value, q.amt1.value);
      MirrorMinted(p, q.amt0.value, q.amt1.value);
    }
  }

  lemma MirrorRemove(p: P.Pool, l: Ledger, env: Env, q: RemoveParams)
    requires SidesDiffer(p)
    ensures RemoveLiquidity(Mirror(p), l, env, q) == MirrorDone(RemoveLiquidity(p, l, env, q))
  {
    hide Pay, Share;
    SidesAreAssets(p);
    if MayRemove(p, env, q) && Asset0(p).Some? && Asset1(p).Some? {
      var lp := q.lpAmount.value;
      PaysCommute(l, Acct(env.self), q.recipient,
                  Asset0(p).value, Share(p.r0, lp, p.totalLp), Asset1(p).value, Share(p.r1, lp, p.totalLp));
    }
  }

  lemma MirrorClaim(p: P.Pool, l: Ledger, env: Env)
    requires SidesDiffer(p)
    ensures ClaimFees(Mirror(p), l, env) == MirrorDone(ClaimFees(p, l, env))
  {
    hide PayFee;
    SidesAreAssets(p);
    if env.owner.Some? {
      PayFeesCommute(l, env, env.owner.value, Asset0(p), p.fee0, Asset1(p), p.fee1);
    }
  }

  lemma StepKeepsSides(p: P.Pool, l: Ledger, c: Call)
    ensures var d := Step(p, l, c);
      d.Some? ==> d.value.pool.name0 == p.name0 && d.value.pool.name1 == p.name1
  {
    hide Settle, SwapLedger, MakePlan, Move, Minted, PayFee;
  }

  lemma MirrorStep(p: P.Pool, l: Ledger, c: Call)
    requires SidesDiffer(p)
    ensures Step(Mirror(p), l, MirrorCall(c)) == MirrorDone(Step(p, l, c))
  {
    match c
    case SwapCall(env, q, reply) => MirrorSwap(p, l, env, q, reply);
    case AddCall(env, q) => MirrorAdd(p, l, env, q);
    case RemoveCall(env, q) => MirrorRemove(p, l, env, q);
    case ClaimCall(env) => MirrorClaim(p, l, env);
  }

  // A pool whose sides were exchanged and one whose were not stay the same pool up to that
  // exchange through any run of calls, and leave the same ledger.
  lemma {:induction false} MirrorRun(p: P.Pool, l: Ledger, cs: seq<Call>)
    requires SidesDiffer(p)
    ensures Run(Mirror(p), l, MirrorCalls(cs)) == (Mirror(Run(p, l, cs).0), Run(p, l, cs).1)
    decreases cs
  {
    if cs != [] {
      MirrorStep(p, l, cs[0]);
      StepKeepsSides(p, l, cs[0]);
      var d := Step(p, l, cs[0]);
      assert MirrorCalls(cs)[1..] == MirrorCalls(cs[1..]);
      if d.Some? {
        MirrorRun(d.value.pool, d.value.ledger, cs[1..]);
      } else {
        MirrorRun(p, l, cs[1..]);
      }
    }
  }

  // ------------------------------------------------------------------ calls after a migration

  // No call reads or writes the layout's version.
  lemma VersionStep(p: P.Pool, l: Ledger, c: Call, v: string)
    ensures Step(p.(version := v), l, c) == WithVersion(Step(p, l, c), v)
    ensures Step(p, l, c).Some? ==> Step(p, l, c).value.pool.version == p.version
  {
    hide Settle, SwapLedger, Move, Draw, Pay, Share, PayFee, NewAsset, Orient, Lower, SlippageOk;
  }

  function WithVersion(d: Option<Done>, v: string): Option<Done> {
    if d.None? then None else Some(d.value.(pool := d.value.pool.(version := v)))
  }

  lemma {:induction false} VersionRun(p: P.Pool, l: Ledger, cs: seq<Call>, v: string)
    ensures Run(p.(version := v), l, cs) == (Run(p, l, cs).0.(version := v), Run(p, l, cs).1)
    decreases cs
  {
    if cs != [] {
      VersionStep(p, l, cs[0], v);
      var d := Step(p, l, cs[0]);
      if d.Some? {
        VersionRun(d.value.pool, d.value.ledger, cs[1..], v);
      } else {
        VersionRun(p, l, cs[1..], v);
      }
      hide Step;
    }
  }

  // Whether migrating p exchanges its sides.
  predicate Exchanges(p: P.Pool) {
    p.version != VERSION && Less(p.name1, p.name0)
  }

  // The calls as they are made to the migrated pool.
  function AfterMigration(p: P.Pool, cs: seq<Call>): seq<Call> {
    if Exchanges(p) then MirrorCalls(cs) else cs
  }

  // Migrating first and calling then comes to the same as calling first and migrating then,
  // with the same ledger, for a pool of any layout and any run. The router of the payload
  // counts from the migration on, so it is set before the calls on either side.
  lemma MigratedRun(p: P.Pool, router: Option<string>, l: Ledger, cs: seq<Call>)
    requires SidesDiffer(p)
    ensures var q := if p.version == "" && router.Some? then p.(router := router.value) else p;
      Run(Migrated(p, router), l, AfterMigration(p, cs)) == (Migrated(Run(q, l, cs).0, None), Run(q, l, cs).1)
  {
    hide Less, Run, Step, SidesDiffer;
    var q := if p.version == "" && router.Some? then p.(router := router.value) else p;
    SidesDifferSame(p, q);
    RunKeepsNames(q, l, cs);
    if p.version != VERSION {
      if Exchanges(p) {
        MirrorRun(q, l, cs);
        VersionRun(Mirror(q), l, MirrorCalls(cs), VERSION);
      } else {
        VersionRun(q, l, cs, VERSION);
      }
    }
  }

  lemma SidesDifferSame(p: P.Pool, q: P.Pool)
    requires SidesDiffer(p) && p.name0 == q.name0 && p.name1 == q.name1
    ensures SidesDiffer(q)
  {
  }

  lemma {:induction false} RunKeepsNames(p: P.Pool, l: Ledger, cs: seq<Call>)
    ensures var q := Run(p, l, cs).0; q.name0 == p.name0 && q.name1 == p.name1 && q.version == p.version
    decreases cs
  {
    if cs != [] {
      StepKeepsSides(p, l, cs[0]);
      VersionStep(p, l, cs[0], p.version);
      var d := Step(p, l, cs[0]);
      if d.Some? {
        RunKeepsNames(d.value.pool, d.value.ledger, cs[1..]);
      } else {
        RunKeepsNames(p, l, cs[1..]);
      }
      hide Step;
    }
  }
}
