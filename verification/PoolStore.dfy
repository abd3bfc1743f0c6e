/** The pool's key/value store and the state it stands for. */
module PoolStore {
  import opened Text
  import opened Pool

  type Store = map<string, string>

  const ASSET0_NAME := "a0n"
  const ASSET0_MAPPING := "a0m"
  const ASSET1_NAME := "a1n"
  const ASSET1_MAPPING := "a1m"
  const RESERVE0 := "r0"
  const RESERVE1 := "r1"
  const FEE := "fee"
  const TOTAL_LP := "tlp"
  const LP_PREFIX := "lp-"
  const SYSTEM_FEE0 := "f0"
  const SYSTEM_FEE1 := "f1"
  const FEE_LAST_CLAIM := "flc"
  const ROUTER := "rtr"
  const MIGRATE_VER := "mv"
  const CURVE := "cv"
  const AMP := "amp"
  const DECIMALS0 := "d0"
  const DECIMALS1 := "d1"

  const FIXED_KEYS := [ASSET0_NAME, ASSET0_MAPPING, ASSET1_NAME, ASSET1_MAPPING, RESERVE0, RESERVE1, FEE, TOTAL_LP,
                       SYSTEM_FEE0, SYSTEM_FEE1, FEE_LAST_CLAIM, ROUTER, MIGRATE_VER, CURVE, AMP, DECIMALS0, DECIMALS1]

  function GetStr(s: Store, key: string): string {
    if key in s then s[key] else ""
  }

  function GetBigInt(s: Store, key: string): nat {
    SetBytes(GetStr(s, key))
  }

  predicate IsLpKey(key: string) {
    LP_PREFIX <= key
  }

  function LpKey(who: string): string {
    LP_PREFIX + who
  }

  // Shares are stored apart from everything else: no holder's key is a fixed key, and
  // different holders have different keys.
  lemma LpKeysApart(who: string, other: string)
    ensures LpKey(who) !in FIXED_KEYS
    ensures LpKey(who) == LpKey(other) <==> who == other
    ensures IsLpKey(LpKey(who)) && LpKey(who)[3..] == who
  {
    assert LpKey(who)[1] == 'p';
    assert LpKey(who)[3..] == who && LpKey(other)[3..] == other;
  }

  function Holders(s: Store): set<string> {
    set key | key in s && IsLpKey(key) :: key[3..]
  }

  function LpTable(s: Store): map<string, nat> {
    map who | who in Holders(s) :: GetBigInt(s, LpKey(who))
  }

  lemma LpKeyOfHolder(s: Store, who: string)
    ensures who in Holders(s) <==> LpKey(who) in s
  {
    LpKeysApart(who, who);
    if who in Holders(s) {
      var key :| key in s && IsLpKey(key) && key[3..] == who;
      assert key == LP_PREFIX + key[3..];
    }
  }

  lemma PutOther(s: Store, key: string, v: string)
    requires !IsLpKey(key)
    ensures LpTable(s[key := v]) == LpTable(s)
  {
    forall who ensures who in Holders(s[key := v]) <==> who in Holders(s) {
      LpKeyOfHolder(s, who);
      LpKeyOfHolder(s[key := v], who);
      LpKeysApart(who, who);
    }
    assert Holders(s[key := v]) == Holders(s);
    forall who | who in Holders(s) ensures GetBigInt(s[key := v], LpKey(who)) == GetBigInt(s, LpKey(who)) {
      LpKeysApart(who, who);
    }
  }

  lemma PutLp(s: Store, who: string, n: nat)
    ensures LpTable(s[LpKey(who) := Bytes(n)]) == LpTable(s)[who := n]
  {
    var t := s[LpKey(who) := Bytes(n)];
    forall w ensures w in Holders(t) <==> w in Holders(s) || w == who {
      LpKeyOfHolder(s, w);
      LpKeyOfHolder(t, w);
      LpKeysApart(w, who);
    }
    assert Holders(t) == Holders(s) + {who};
    BytesRoundTrip(n);
    forall w | w in Holders(t) ensures GetBigInt(t, LpKey(w)) == if w == who then n else GetBigInt(s, LpKey(w)) {
      LpKeysApart(w, who);
      LpKeyOfHolder(s, w);
    }
  }

  // loadStablePool's reading of the curve keys.
  function CurveOf(curve: string, amp: string, dec0: string, dec1: string): Curve {
    if curve != "stable" then Product
    else
      var a, d0, d1 := ParseDecimal(amp), ParseDecimal(dec0), ParseDecimal(dec1);
      if a.None? || d0.None? || d1.None? then Unreadable else Stable(a.value, d0.value, d1.value)
  }

  // The strings under the fixed keys, in the order of FIXED_KEYS.
  function Fixed(s: Store): (f: seq<string>)
    ensures |f| == |FIXED_KEYS|
  {
    seq(|FIXED_KEYS|, i requires 0 <= i < |FIXED_KEYS| => GetStr(s, FIXED_KEYS[i]))
  }

  function Decode(f: seq<string>, lp: map<string, nat>): Pool
    requires |f| == |FIXED_KEYS|
  {
    Pool(f[0], f[2], f[1], f[3], SetBytes(f[4]), SetBytes(f[5]), SetBytes(f[8]), SetBytes(f[9]), SetBytes(f[7]),
         lp, f[11], CurveOf(f[13], f[14], f[15], f[16]), f[12])
  }

  // The state a store stands for, in the current layout.
  function View(s: Store): Pool {
    Decode(Fixed(s), LpTable(s))
  }

  // A store with nothing in it stands for the pool with nothing in it.
  lemma EmptyView()
    ensures View(map[]) == Pool("", "", "", "", 0, 0, 0, 0, 0, map[], "", Product, "")
  {
    assert Holders(map[]) == {};
    assert forall i :: 0 <= i < |FIXED_KEYS| ==> Fixed(map[])[i] == "";
  }

  lemma FixedKeysDiffer()
    ensures |FIXED_KEYS| == 17
    ensures forall i, j :: 0 <= i < j < |FIXED_KEYS| ==> FIXED_KEYS[i] != FIXED_KEYS[j]
    ensures forall i :: 0 <= i < |FIXED_KEYS| ==> !IsLpKey(FIXED_KEYS[i])
  {
    assert LP_PREFIX[0] == 'l' && forall i :: 0 <= i < |FIXED_KEYS| ==> FIXED_KEYS[i][0] != 'l';
  }

  // Writing one fixed key changes one string and no share.
  lemma PutFixed(s: Store, i: nat, v: string)
    requires i < |FIXED_KEYS|
    ensures Fixed(s[FIXED_KEYS[i] := v]) == Fixed(s)[i := v]
    ensures LpTable(s[FIXED_KEYS[i] := v]) == LpTable(s)
  {
    FixedKeysDiffer();
    PutOther(s, FIXED_KEYS[i], v);
  }

  // Storing a number in a fixed key changes that one number of the state, and reading it
  // back gives the number stored.
  lemma PutReserve0(s: Store, n: nat)
    ensures View(s[RESERVE0 := Bytes(n)]) == View(s).(r0 := n)
  {
    hide Fixed, LpTable, SetBytes, Bytes, CurveOf;
    BytesRoundTrip(n);
    PutFixed(s, 4, Bytes(n));
  }

  lemma PutReserve1(s: Store, n: nat)
    ensures View(s[RESERVE1 := Bytes(n)]) == View(s).(r1 := n)
  {
    hide Fixed, LpTable, SetBytes, Bytes, CurveOf;
    BytesRoundTrip(n);
    PutFixed(s, 5, Bytes(n));
  }

  lemma PutSystemFee0(s: Store, n: nat)
    ensures View(s[SYSTEM_FEE0 := Bytes(n)]) == View(s).(fee0 := n)
  {
    hide Fixed, LpTable, SetBytes, Bytes, CurveOf;
    BytesRoundTrip(n);
    PutFixed(s, 8, Bytes(n));
  }

  lemma PutSystemFee1(s: Store, n: nat)
    ensures View(s[SYSTEM_FEE1 := Bytes(n)]) == View(s).(fee1 := n)
  {
    hide Fixed, LpTable, SetBytes, Bytes, CurveOf;
    BytesRoundTrip(n);
    PutFixed(s, 9, Bytes(n));
  }

  lemma PutTotalLp(s: Store, n: nat)
    ensures View(s[TOTAL_LP := Bytes(n)]) == View(s).(totalLp := n)
  {
    hide Fixed, LpTable, SetBytes, Bytes, CurveOf;
    BytesRoundTrip(n);
    PutFixed(s, 7, Bytes(n));
  }

  lemma PutName0(s: Store, v: string)
    ensures View(s[ASSET0_NAME := v]) == View(s).(name0 := v)
  {
    hide Fixed, LpTable, SetBytes, Bytes, CurveOf;
    PutFixed(s, 0, v);
  }

  lemma PutName1(s: Store, v: string)
    ensures View(s[ASSET1_NAME := v]) == View(s).(name1 := v)
  {
    hide Fixed, LpTable, SetBytes, Bytes, CurveOf;
    PutFixed(s, 2, v);
  }

  lemma PutMapping0(s: Store, v: string)
    ensures View(s[ASSET0_MAPPING := v]) == View(s).(map0 := v)
  {
    hide Fixed, LpTable, SetBytes, Bytes, CurveOf;
    PutFixed(s, 1, v);
  }

  lemma PutMapping1(s: Store, v: string)
    ensures View(s[ASSET1_MAPPING := v]) == View(s).(map1 := v)
  {
    hide Fixed, LpTable, SetBytes, Bytes, CurveOf;
    PutFixed(s, 3, v);
  }

  lemma PutRouter(s: Store, v: string)
    ensures View(s[ROUTER := v]) == View(s).(router := v)
  {
    hide Fixed, LpTable, SetBytes, Bytes, CurveOf;
    PutFixed(s, 11, v);
  }

  lemma PutVersion(s: Store, v: string)
    ensures View(s[MIGRATE_VER := v]) == View(s).(version := v)
  {
    hide Fixed, LpTable, SetBytes, Bytes, CurveOf;
    PutFixed(s, 12, v);
  }

  // The four curve keys, which are written together.
  lemma PutCurve(s: Store, amp: nat, dec0: nat, dec1: nat)
    ensures View(s[CURVE := "stable"][AMP := Decimal(amp)][DECIMALS0 := Decimal(dec0)][DECIMALS1 := Decimal(dec1)])
         == View(s).(curve := Stable(amp, dec0, dec1))
  {
    hide Fixed, LpTable, SetBytes, ParseDecimal, Decimal;
    DecimalRoundTrip(amp);
    DecimalRoundTrip(dec0);
    DecimalRoundTrip(dec1);
    PutFourFixed(s, Decimal(amp), Decimal(dec0), Decimal(dec1));
  }

  lemma PutFourFixed(s: Store, amp: string, dec0: string, dec1: string)
    ensures var t := s[CURVE := "stable"][AMP := amp][DECIMALS0 := dec0][DECIMALS1 := dec1];
      Fixed(t) == Fixed(s)[13 := "stable"][14 := amp][15 := dec0][16 := dec1] && LpTable(t) == LpTable(s)
  {
    hide Fixed, LpTable;
    PutFixed(s, 13, "stable");
    PutFixed(s[CURVE := "stable"], 14, amp);
    PutFixed(s[CURVE := "stable"][AMP := amp], 15, dec0);
    PutFixed(s[CURVE := "stable"][AMP := amp][DECIMALS0 := dec0], 16, dec1);
  }

  lemma PutHolder(s: Store, who: string, n: nat)
    ensures View(s[LpKey(who) := Bytes(n)]) == View(s).(lp := View(s).lp[who := n])
  {
    PutLp(s, who, n);
    FixedKeysDiffer();
    LpKeysApart(who, who);
    assert Fixed(s[LpKey(who) := Bytes(n)]) == Fixed(s);
  }

  // Keys the state does not depend on.
  lemma PutUnseen(s: Store, v: string)
    ensures View(s[FEE := v]) == View(s)
    ensures View(s[FEE_LAST_CLAIM := v]) == View(s)
  {
    hide Fixed, LpTable, SetBytes, CurveOf;
    PutFixed(s, 6, v);
    PutFixed(s, 10, v);
  }

  // The state field by field, as the getters read it.
  lemma Reading(s: Store)
    ensures View(s).name0 == GetStr(s, ASSET0_NAME) && View(s).name1 == GetStr(s, ASSET1_NAME)
    ensures View(s).map0 == GetStr(s, ASSET0_MAPPING) && View(s).map1 == GetStr(s, ASSET1_MAPPING)
    ensures View(s).r0 == GetBigInt(s, RESERVE0) && View(s).r1 == GetBigInt(s, RESERVE1)
    ensures View(s).fee0 == GetBigInt(s, SYSTEM_FEE0) && View(s).fee1 == GetBigInt(s, SYSTEM_FEE1)
    ensures View(s).totalLp == GetBigInt(s, TOTAL_LP)
    ensures View(s).router == GetStr(s, ROUTER) && View(s).version == GetStr(s, MIGRATE_VER)
    ensures View(s).curve == CurveOf(GetStr(s, CURVE), GetStr(s, AMP), GetStr(s, DECIMALS0), GetStr(s, DECIMALS1))
    ensures forall who :: Lp(View(s), who) == GetBigInt(s, LpKey(who))
  {
    forall who ensures Lp(View(s), who) == GetBigInt(s, LpKey(who)) { LpKeyOfHolder(s, who); }
  }
}
