/** The layouts a pool's store has had, and what migrating to the current one must keep. */
module Migration {
  import opened Text
  import opened P = Pool
  import opened PoolStore

  // Keys of the first two layouts: asset descriptions as JSON, then cached names.
  const OLD_ASSET0 := "a1"
  const OLD_ASSET1 := "a2"
  const OLD_NAME0 := "a1n"
  const OLD_NAME1 := "a2n"

  // The JSON reader of an asset description: its name and mapping contract.
  type AssetReader = string -> Option<(string, string)>

  function MappingOf(s: Store, key: string, parse: AssetReader): string {
    var a := parse(GetStr(s, key));
    if a.Some? then a.value.1 else ""
  }

  function NameOf(s: Store, key: string, parse: AssetReader): string {
    var a := parse(GetStr(s, key));
    if a.Some? then a.value.0 else ""
  }

  // The state a store stands for in whichever layout it is. "a1n" is the name of asset0 up
  // to version 1 and the name of asset1 from version 2 on.
  function Meaning(s: Store, parse: AssetReader): P.Pool {
    var v := View(s).version;
    if v == "" then
      View(s).(name0 := NameOf(s, OLD_ASSET0, parse), name1 := NameOf(s, OLD_ASSET1, parse),
               map0 := MappingOf(s, OLD_ASSET0, parse), map1 := MappingOf(s, OLD_ASSET1, parse))
    else if v == "1" then
      View(s).(name0 := GetStr(s, OLD_NAME0), name1 := GetStr(s, OLD_NAME1),
               map0 := MappingOf(s, OLD_ASSET0, parse), map1 := MappingOf(s, OLD_ASSET1, parse))
    else View(s)
  }

  // The description of an asset is one entry: up to version 1 the name that goes with a mapping
  // contract is the one described with it. At version 1 the cached names are copies.
  predicate Described(s: Store, parse: AssetReader) {
    var a0, a1 := parse(GetStr(s, OLD_ASSET0)), parse(GetStr(s, OLD_ASSET1));
    && a0.Some? && a1.Some?
    && (View(s).version == "1" ==> GetStr(s, OLD_NAME0) == a0.value.0 && GetStr(s, OLD_NAME1) == a1.value.0)
  }

  // Migrating a store with such entries leaves each asset with the mapping contract it was
  // described with, and with its own reserve and fees.
  lemma DescribedAssets(s: Store, parse: AssetReader, router: Option<string>)
    requires Consistent(s, parse) && Described(s, parse) && View(s).version in {"", "1"}
    requires parse(GetStr(s, OLD_ASSET0)).value.0 != parse(GetStr(s, OLD_ASSET1)).value.0
    ensures var m := Migrated(Meaning(s, parse), router);
      var a0, a1 := parse(GetStr(s, OLD_ASSET0)).value, parse(GetStr(s, OLD_ASSET1)).value;
      && Holding(m, a0.0) == Some((a0.1, GetBigInt(s, RESERVE0), GetBigInt(s, SYSTEM_FEE0)))
      && Holding(m, a1.0) == Some((a1.1, GetBigInt(s, RESERVE1), GetBigInt(s, SYSTEM_FEE1)))
  {
    Reading(s);
    MigrationKeepsMeaning(Meaning(s, parse), router);
    hide View, Migrated;
  }

  // A layout some version of the contract wrote. Curves came with version 4.
  predicate Consistent(s: Store, parse: AssetReader) {
    && View(s).version in {"", "1", "2", "3", VERSION}
    && (View(s).version == "" ==> parse(GetStr(s, OLD_ASSET0)).Some? && parse(GetStr(s, OLD_ASSET1)).Some?)
    && (View(s).version != VERSION ==> View(s).curve == Product)
  }

  // The same pool with its two sides exchanged.
  function Mirror(p: P.Pool): P.Pool {
    p.(name0 := p.name1, name1 := p.name0, map0 := p.map1, map1 := p.map0, r0 := p.r1, r1 := p.r0,
       fee0 := p.fee1, fee1 := p.fee0,
       curve := if p.curve.Stable? then Stable(p.curve.amp, p.curve.dec1, p.curve.dec0) else p.curve)
  }

  // The state migration must reach from p; router is the payload's router, used at version "".
  function Migrated(p: P.Pool, router: Option<string>): P.Pool {
    if p.version == VERSION then p
    else
      var r := if p.version == "" && router.Some? then p.(router := router.value) else p;
      (if Less(p.name1, p.name0) then Mirror(r) else r).(version := VERSION)
  }

  // Taking the router at version "" and ordering the sides at version 3 is the whole of it.
  lemma MigratedInSteps(p: P.Pool, router: Option<string>)
    ensures Migrated(p, router).version == VERSION
    ensures p.version == VERSION ==> Migrated(p, router) == p
    ensures p.version != VERSION ==>
      Migrated((if p.version == "" && router.Some? then p.(router := router.value) else p).(version := "3"), None)
      == Migrated(p, router)
  {
  }

  lemma MeaningVersion(s: Store, parse: AssetReader)
    requires Consistent(s, parse)
    ensures Meaning(s, parse).version == View(s).version && View(s).version in {"", "1", "2", "3", "4"}
  {
  }

  lemma MeaningNow(s: Store, parse: AssetReader)
    requires View(s).version in {"2", "3", VERSION}
    ensures Meaning(s, parse) == View(s)
  {
  }

  // What the pool holds of the asset with a given name: mapping contract, reserve, fee bucket.
  function Holding(p: P.Pool, name: string): Option<(string, nat, nat)> {
    if name == p.name0 then Some((p.map0, p.r0, p.fee0))
    else if name == p.name1 then Some((p.map1, p.r1, p.fee1))
    else None
  }

  // Migration orders the names and keeps everything else: each asset's mapping contract,
  // reserve and fees, and every holder's shares; doing it again changes nothing.
  lemma MigrationKeepsMeaning(p: P.Pool, router: Option<string>)
    requires p.name0 != p.name1
    ensures var m := Migrated(p, router);
      && m.version == VERSION
      && (p.version != VERSION ==> Less(m.name0, m.name1))
      && (forall name :: Holding(m, name) == Holding(p, name))
      && m.totalLp == p.totalLp && m.lp == p.lp
      && Migrated(m, router) == m
  {
    LessTotal(p.name0, p.name1);
  }

  // Writing a key that no part of the state is read from.
  lemma PutForeign(s: Store, key: string, v: string)
    requires key !in FIXED_KEYS && !IsLpKey(key)
    ensures View(s[key := v]) == View(s)
  {
    PutOther(s, key, v);
    assert Fixed(s[key := v]) == Fixed(s);
  }

  lemma OldAssetsAreForeign()
    ensures OLD_ASSET0 !in FIXED_KEYS && !IsLpKey(OLD_ASSET0)
    ensures OLD_ASSET1 !in FIXED_KEYS && !IsLpKey(OLD_ASSET1)
  {
    assert LP_PREFIX[0] == 'l' && OLD_ASSET0[0] == 'a' && OLD_ASSET1[0] == 'a';
  }

  lemma OldNameIsForeign()
    ensures OLD_NAME1 !in FIXED_KEYS && !IsLpKey(OLD_NAME1)
  {
    assert LP_PREFIX[0] == 'l' && OLD_NAME1[0] == 'a';
  }
}
