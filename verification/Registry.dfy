/** The router's registry: comma-joined lists and dash-joined keys in a key/value store, and
    the tokens, chains and pairs they stand for. */
module Registry {
  import opened Text

  type Store = map<string, string>

  const VERSION_KEY := "version"
  const POOL_PREFIX := "pool-"
  const ASSET_PREFIX := "asset-"
  const CHAINS_LIST := "chains"
  const TOKENS_LIST := "tokens"
  const VALID_CHAINS: set<string> := {"HIVE", "MAGI", "BTC", "ETH", "SOL", "SUI", "LTC", "DASH", "DOGE", "BCH"}

  datatype TokenInfo = TokenInfo(mapping: string, chain: string, description: string, decimals: int)

  // The JSON library. A description may be altered on the way; the other fields are read
  // back as they were written.
  datatype Codec = Codec(marshal: TokenInfo -> string, unmarshal: string -> Option<TokenInfo>)

  ghost predicate Lawful(c: Codec) {
    forall t: TokenInfo :: c.marshal(t) != "" && c.unmarshal(c.marshal(t)).Some?
      && c.unmarshal(c.marshal(t)).value.mapping == t.mapping && c.unmarshal(c.marshal(t)).value.chain == t.chain
      && c.unmarshal(c.marshal(t)).value.decimals == t.decimals
  }

  datatype Token = Token(mapping: string, chain: string, decimals: int)

  // What the registry keeps of a stored entry.
  function Listed(t: TokenInfo): Token {
    Token(t.mapping, t.chain, t.decimals)
  }

  datatype Registry = Registry(tokens: map<string, Token>, names: seq<string>, chains: seq<string>,
                               pools: map<(string, string), string>)

  function GetStr(s: Store, key: string): string {
    if key in s then s[key] else ""
  }

  function AssetKey(name: string): string {
    ASSET_PREFIX + Lower(name)
  }

  function PoolKey(a: string, b: string): string {
    POOL_PREFIX + a + "-" + b
  }

  predicate NameChar(c: char) {
    'a' <= c <= 'z' || '0' <= c <= '9'
  }

  predicate ValidName(name: string) {
    name != "" && forall i :: 0 <= i < |name| ==> NameChar(name[i])
  }

  // isValidTokenName, as the source scans it.
  method IsValidTokenName(name: string) returns (ok: bool)
    ensures ok <==> ValidName(name)
  {
    if name == "" { return false; }
    var i := 0;
    while i < |name|
      invariant 0 <= i <= |name|
      invariant forall j :: 0 <= j < i ==> NameChar(name[j])
    {
      if !NameChar(name[i]) { return false; }
      i := i + 1;
    }
    return true;
  }

  lemma ValidNameFacts(name: string)
    requires ValidName(name)
    ensures Lower(name) == name && ',' !in name && '-' !in name
    ensures Trim(name) == name
  {
    assert forall c | c in name :: NameChar(c) && !Space(c);
    TrimNoSpace(name);
  }

  // ------------------------------------------------------------------ keys

  // A dash-joined key determines its two names, as long as the registered ones have no dash.
  lemma PoolKeyInjective(a: string, b: string, x: string, y: string)
    requires '-' !in x && '-' !in y
    ensures PoolKey(a, b) == PoolKey(x, y) <==> a == x && b == y
  {
    var u, v := a + "-" + b, x + "-" + y;
    assert PoolKey(a, b)[5..] == u && PoolKey(x, y)[5..] == v;
    assert u[|a|] == '-' && v[|x|] == '-';
    assert forall i :: 0 <= i < |x| ==> v[i] == x[i];
    assert forall i {:trigger v[i]} :: |x| < i < |v| ==> v[i] == y[i - |x| - 1];
    if u == v {
      assert |a| == |x|;
      assert a == u[..|a|] && x == v[..|x|];
      assert b == u[|a| + 1..] && y == v[|x| + 1..];
    }
  }

  lemma KeysApart(name: string, a: string, b: string)
    ensures ASSET_PREFIX + name != PoolKey(a, b)
    ensures ASSET_PREFIX + name !in {CHAINS_LIST, TOKENS_LIST, VERSION_KEY}
    ensures PoolKey(a, b) !in {CHAINS_LIST, TOKENS_LIST, VERSION_KEY}
  {
    assert (ASSET_PREFIX + name)[0] == 'a' && PoolKey(a, b)[0] == 'p';
  }

  lemma AssetKeyInjective(x: string, y: string)
    ensures ASSET_PREFIX + x == ASSET_PREFIX + y <==> x == y
  {
    assert (ASSET_PREFIX + x)[6..] == x && (ASSET_PREFIX + y)[6..] == y;
  }

  // ------------------------------------------------------------------ lists

  // The comma-joined form of a list; no list is the empty string.
  ghost predicate Lists(text: string, items: seq<string>) {
    if items == [] then text == "" else text != "" && Split(text, ',') == items
  }

  lemma ListsAppend(text: string, items: seq<string>, item: string)
    requires Lists(text, items) && item != "" && ',' !in item
    ensures Lists(if text == "" then item else text + "," + item, items + [item])
  {
    if text == "" {
      SplitNoSeparator(item, ',');
      assert items + [item] == [item];
    } else {
      SplitAppend(text, ',', item);
      assert text + "," + item == text + [','] + item;
    }
  }

  // updateTokensList and updateChainsList.
  function AddToList(text: string, item: string): string {
    if text == "" then item
    else if item in Split(text, ',') then text
    else text + "," + item
  }

  function AddOnce(items: seq<string>, item: string): seq<string> {
    if item in items then items else items + [item]
  }

  lemma AddToListMeans(text: string, items: seq<string>, item: string)
    requires Lists(text, items) && item != "" && ',' !in item
    ensures Lists(AddToList(text, item), AddOnce(items, item))
  {
    ListsAppend(text, items, item);
  }

  predicate Distinct(items: seq<string>) {
    forall i, j :: 0 <= i < j < |items| ==> items[i] != items[j]
  }

  // The list parser of the schema query: trimmed, without blanks and repetitions.
  function Dedup(parts: seq<string>): (out: seq<string>)
  {
    if parts == [] then []
    else
      var out, p := Dedup(parts[..|parts| - 1]), Trim(parts[|parts| - 1]);
      if p == "" || p in out then out else out + [p]
  }

  // What is kept: each trimmed part that is not blank, once.
  lemma {:induction false} DedupContents(parts: seq<string>)
    ensures Distinct(Dedup(parts))
    ensures forall p :: p in Dedup(parts) <==> p != "" && exists i :: 0 <= i < |parts| && Trim(parts[i]) == p
  {
    if parts != [] {
      var n := |parts| - 1;
      var rest := parts[..n];
      DedupContents(rest);
      forall p ensures p in Dedup(parts) <==> p != "" && exists i :: 0 <= i < |parts| && Trim(parts[i]) == p {
        if i :| 0 <= i < |rest| && Trim(rest[i]) == p { assert Trim(parts[i]) == p; }
        if i :| 0 <= i < |parts| && Trim(parts[i]) == p { assert i < n ==> Trim(rest[i]) == p; }
      }
    }
  }

  // And in the order of their first appearance: each part kept comes after what the parts
  // before it left.
  lemma {:induction false} DedupInOrder(parts: seq<string>, k: nat)
    requires k <= |parts|
    ensures Dedup(parts[..k]) <= Dedup(parts)
    decreases |parts|
  {
    if k < |parts| {
      var rest := parts[..|parts| - 1];
      DedupInOrder(rest, k);
      assert rest[..k] == parts[..k];
    } else {
      assert parts[..k] == parts;
    }
  }

  method SplitChains(s: string) returns (out: seq<string>)
    ensures out == if s == "" then [] else Dedup(Split(s, ','))
    ensures Distinct(out)
    ensures forall p :: p in out <==> p != "" && exists i :: 0 <= i < |Split(s, ',')| && Trim(Split(s, ',')[i]) == p
  {
    if s == "" {
      assert Split(s, ',') == [""] && Trim("") == "";
      return [];
    }
    var parts := Split(s, ',');
    DedupContents(parts);
    var seen: set<string> := {};
    out := [];
    var i := 0;
    while i < |parts|
      invariant 0 <= i <= |parts|
      invariant out == Dedup(parts[..i])
      invariant forall p :: p in seen <==> p in out
    {
      var p := Trim(parts[i]);
      assert parts[..i + 1][..i] == parts[..i];
      if p != "" && p !in seen {
        seen := seen + {p};
        out := out + [p];
      }
      i := i + 1;
    }
    assert parts[..i] == parts;
  }

  // On a list of distinct, clean items the parser is the identity.
  lemma {:induction false} DedupClean(items: seq<string>)
    requires Distinct(items) && forall i :: 0 <= i < |items| ==> items[i] != "" && Trim(items[i]) == items[i]
    ensures Dedup(items) == items
  {
    if items != [] {
      var n := |items| - 1;
      DedupClean(items[..n]);
      assert items[n] !in items[..n];
      assert items == items[..n] + [items[n]];
    }
  }

  // ------------------------------------------------------------------ what the store stands for

  ghost predicate TokensMatch(s: Store, r: Registry, c: Codec) {
    && (forall x {:trigger x in r.tokens} :: x in r.tokens ==> ValidName(x))
    && (forall x {:trigger GetStr(s, ASSET_PREFIX + x)} :: GetStr(s, ASSET_PREFIX + x) != "" <==> x in r.tokens)
    && (forall x {:trigger r.tokens[x]} :: x in r.tokens ==>
          var info := c.unmarshal(GetStr(s, ASSET_PREFIX + x));
          info.Some? && r.tokens[x] == Listed(info.value))
  }

  ghost predicate ListsMatch(s: Store, r: Registry) {
    && Lists(GetStr(s, TOKENS_LIST), r.names) && Lists(GetStr(s, CHAINS_LIST), r.chains)
    && Distinct(r.names) && Distinct(r.chains)
    && (forall x :: x in r.names <==> x in r.tokens)
    && (forall x :: x in r.tokens ==> r.tokens[x].chain in r.chains)
    && (forall h :: h in r.chains ==> h in VALID_CHAINS && exists x :: x in r.tokens && r.tokens[x].chain == h)
  }

  ghost predicate PoolsMatch(s: Store, r: Registry) {
    && (forall a, b {:trigger (a, b) in r.pools} :: (a, b) in r.pools ==>
          a in r.tokens && b in r.tokens && Less(a, b) && r.pools[(a, b)] != "")
    && (forall a, b {:trigger GetStr(s, PoolKey(a, b))} ::
          GetStr(s, PoolKey(a, b)) == if (a, b) in r.pools then r.pools[(a, b)] else "")
  }

  ghost predicate Represents(s: Store, r: Registry, c: Codec) {
    TokensMatch(s, r, c) && ListsMatch(s, r) && PoolsMatch(s, r)
  }

  const NONE := Registry(map[], [], [], map[])

  lemma EmptyRepresentsNothing(c: Codec)
    ensures Represents(map[], NONE, c)
  {
  }

  // The pair a pool is registered under: the lower-case names in byte order.
  function Pair(a: string, b: string): (string, string) {
    var x, y := Lower(a), Lower(b);
    if Less(y, x) then (y, x) else (x, y)
  }

  // Both names, without regard to case, the smaller one first.
  lemma PairExact(a: string, b: string)
    ensures Pair(a, b) == (Lower(a), Lower(b)) || Pair(a, b) == (Lower(b), Lower(a))
    ensures Lower(a) != Lower(b) ==> Less(Pair(a, b).0, Pair(a, b).1)
    ensures Pair(b, a) == Pair(a, b)
  {
    LessTotal(Lower(a), Lower(b));
    hide Less, Lower;
  }

  function FindPool(s: Store, a: string, b: string): string {
    var pair := Pair(a, b);
    GetStr(s, PoolKey(pair.0, pair.1))
  }

  // A lookup finds a pool exactly when that unordered pair was registered, whatever strings
  // are asked for.
  lemma FindPoolExact(s: Store, r: Registry, c: Codec, a: string, b: string)
    requires Represents(s, r, c)
    ensures FindPool(s, a, b) == (if Pair(a, b) in r.pools then r.pools[Pair(a, b)] else "")
    ensures Pair(a, b) == Pair(b, a)
    ensures FindPool(s, a, b) != "" ==> Pair(a, b).0 in r.tokens && Pair(a, b).1 in r.tokens
  {
    LessTotal(Lower(a), Lower(b));
  }

  // ------------------------------------------------------------------ registrations over values

  datatype TokenParams = TokenParams(name: string, mapping: string, chain: string, description: string)

  // The mapping contract's answer to getInfo: its symbol, and its decimals if they parse.
  datatype Info = Info(symbol: string, decimals: Option<int>, proofFee: Option<int>, tokenAddress: string)

  function UpperChar(c: char): char {
    if 'a' <= c <= 'z' then (c as int - 32) as char else c
  }

  function Upper(s: string): string {
    seq(|s|, i requires 0 <= i < |s| => UpperChar(s[i]))
  }

  // No lower-case letter survives, and the two cases say the same of a text.
  lemma UpperExact(s: string)
    ensures forall i :: 0 <= i < |s| ==> !LowerLetter(Upper(s)[i])
    ensures Lower(Upper(s)) == Lower(s) && Upper(Lower(s)) == Upper(s)
  {
  }

  predicate TokenAllowed(r: Registry, q: TokenParams, contractOk: bool, info: Option<Info>) {
    var name := Lower(q.name);
    && q.name != "" && q.chain != "" && ValidName(name) && Upper(q.chain) in VALID_CHAINS
    && name !in r.tokens
    && (q.mapping != "" ==> contractOk && info.Some? && Lower(info.value.symbol) == name && info.value.decimals.Some?)
  }

  // Which tokens are accepted: a new name of letters and digits, on one of ten chains, and with
  // a mapping contract only one that answers for that very name and gives its decimals.
  lemma TokenRules(r: Registry, q: TokenParams, contractOk: bool, info: Option<Info>)
    ensures TokenAllowed(r, q, contractOk, info) <==>
      && q.name != ""
      && (forall i :: 0 <= i < |q.name| ==> var c := Lower(q.name)[i]; 'a' <= c <= 'z' || '0' <= c <= '9')
      && Lower(q.chain) in {"hive", "magi", "btc", "eth", "sol", "sui", "ltc", "dash", "doge", "bch"}
      && Lower(q.name) !in r.tokens
      && (q.mapping == "" || (contractOk && info.Some? && Lower(info.value.symbol) == Lower(q.name)
                              && info.value.decimals.Some?))
  {
    UpperExact(q.chain);
    ChainCases(q.chain);
    hide Upper;
  }

  lemma ChainCases(chain: string)
    ensures Upper(chain) in VALID_CHAINS <==>
      Lower(chain) in {"hive", "magi", "btc", "eth", "sol", "sui", "ltc", "dash", "doge", "bch"}
    ensures Upper(chain) in VALID_CHAINS ==> chain != ""
  {
    UpperExact(chain);
    assert Upper("hive") == "HIVE" && Upper("magi") == "MAGI" && Upper("btc") == "BTC" && Upper("eth") == "ETH";
    assert Upper("sol") == "SOL" && Upper("sui") == "SUI" && Upper("ltc") == "LTC";
    assert Upper("dash") == "DASH" && Upper("doge") == "DOGE" && Upper("bch") == "BCH";
    assert Lower("HIVE") == "hive" && Lower("MAGI") == "magi" && Lower("BTC") == "btc" && Lower("ETH") == "eth";
    assert Lower("SOL") == "sol" && Lower("SUI") == "sui" && Lower("LTC") == "ltc";
    assert Lower("DASH") == "dash" && Lower("DOGE") == "doge" && Lower("BCH") == "bch";
    assert Upper("") == "";
  }

  // Which pairs are accepted: two different registered names, without regard to case, that no
  // pool is registered for in either order.
  lemma PoolRules(r: Registry, a: string, b: string, contractOk: bool)
    ensures PoolAllowed(r, a, b, contractOk) <==>
      && Lower(a) != Lower(b) && Lower(a) in r.tokens && Lower(b) in r.tokens && contractOk
      && (if Less(Lower(a), Lower(b)) then (Lower(a), Lower(b)) !in r.pools else (Lower(b), Lower(a)) !in r.pools)
  {
    LessTotal(Lower(a), Lower(b));
    hide Less, Lower;
  }

  // A mapped token has the decimals its mapping contract gives; the native ones have three.
  function Decimals(q: TokenParams, info: Option<Info>): int {
    if q.mapping != "" && info.Some? && info.value.decimals.Some? then info.value.decimals.value else 3
  }

  function WithToken(r: Registry, q: TokenParams, info: Option<Info>): Registry {
    var name, chain := Lower(q.name), Upper(q.chain);
    r.(tokens := r.tokens[name := Token(q.mapping, chain, Decimals(q, info))],
       names := r.names + [name], chains := AddOnce(r.chains, chain))
  }

  predicate PoolAllowed(r: Registry, a: string, b: string, contractOk: bool) {
    Lower(a) != Lower(b) && Lower(a) in r.tokens && Lower(b) in r.tokens && contractOk && Pair(a, b) !in r.pools
  }

  function WithPool(r: Registry, a: string, b: string, id: string): Registry {
    if id == "" then r else r.(pools := r.pools[Pair(a, b) := id])
  }

  lemma ChainFacts(h: string)
    requires h in VALID_CHAINS
    ensures h != "" && ',' !in h && Trim(h) == h
  {
    assert forall c | c in h :: 'A' <= c <= 'Z';
    TrimNoSpace(h);
  }

  // The store after a token registration stands for the registry with the token.
  lemma TokenRepresented(s: Store, r: Registry, c: Codec, q: TokenParams, info: Option<Info>, t: TokenInfo)
    requires Represents(s, r, c) && Lawful(c)
    requires ValidName(Lower(q.name)) && Lower(q.name) !in r.tokens && Upper(q.chain) in VALID_CHAINS
    requires Listed(t) == Token(q.mapping, Upper(q.chain), Decimals(q, info))
    ensures var s1 := s[ASSET_PREFIX + Lower(q.name) := c.marshal(t)];
      var s2 := s1[CHAINS_LIST := AddToList(GetStr(s1, CHAINS_LIST), Upper(q.chain))];
      var s3 := s2[TOKENS_LIST := AddToList(GetStr(s2, TOKENS_LIST), Lower(q.name))];
      Represents(s3, WithToken(r, q, info), c)
  {
    var name, chain := Lower(q.name), Upper(q.chain);
    ValidNameFacts(name);
    ChainFacts(chain);
    AddToListMeans(GetStr(s, CHAINS_LIST), r.chains, chain);
    AddToListMeans(GetStr(s, TOKENS_LIST), r.names, name);
    var chainsText, tokensText := AddToList(GetStr(s, CHAINS_LIST), chain), AddToList(GetStr(s, TOKENS_LIST), name);
    var s3 := s[ASSET_PREFIX + name := c.marshal(t)][CHAINS_LIST := chainsText][TOKENS_LIST := tokensText];
    TokenLookups(s, name, c.marshal(t), chainsText, tokensText);
    var r' := WithToken(r, q, info);
    hide Lists, AddToList, PoolKey, ValidName, Lower, Upper, GetStr, Distinct;
    TokensStillMatch(s, s3, r, r', c, name, t);
    PoolsStillMatch(s, s3, r, r');
    ListsStillMatch(s3, r, r', name, Listed(t));
  }

  // What the store holds after the three writes of a token registration.
  lemma TokenLookups(s: Store, name: string, v: string, chainsText: string, tokensText: string)
    ensures var s1 := s[ASSET_PREFIX + name := v];
      GetStr(s1, CHAINS_LIST) == GetStr(s, CHAINS_LIST)
      && GetStr(s1[CHAINS_LIST := chainsText], TOKENS_LIST) == GetStr(s, TOKENS_LIST)
    ensures var s3 := s[ASSET_PREFIX + name := v][CHAINS_LIST := chainsText][TOKENS_LIST := tokensText];
      && GetStr(s3, CHAINS_LIST) == chainsText && GetStr(s3, TOKENS_LIST) == tokensText
      && (forall x :: GetStr(s3, ASSET_PREFIX + x) == if x == name then v else GetStr(s, ASSET_PREFIX + x))
      && (forall a, b :: GetStr(s3, PoolKey(a, b)) == GetStr(s, PoolKey(a, b)))
  {
    var s3 := s[ASSET_PREFIX + name := v][CHAINS_LIST := chainsText][TOKENS_LIST := tokensText];
    KeysApart(name, "", "");
    forall x ensures GetStr(s3, ASSET_PREFIX + x) == if x == name then v else GetStr(s, ASSET_PREFIX + x) {
      KeysApart(x, "", "");
      AssetKeyInjective(x, name);
    }
    forall a, b ensures GetStr(s3, PoolKey(a, b)) == GetStr(s, PoolKey(a, b)) {
      KeysApart(name, a, b);
    }
  }

  lemma TokensStillMatch(s: Store, s': Store, r: Registry, r': Registry, c: Codec, name: string, t: TokenInfo)
    requires TokensMatch(s, r, c) && Lawful(c) && ValidName(name)
    requires r'.tokens == r.tokens[name := Listed(t)]
    requires forall x :: GetStr(s', ASSET_PREFIX + x) == if x == name then c.marshal(t) else GetStr(s, ASSET_PREFIX + x)
    ensures TokensMatch(s', r', c)
  {
    hide GetStr, ValidName;
  }

  lemma PoolsStillMatch(s: Store, s': Store, r: Registry, r': Registry)
    requires PoolsMatch(s, r) && r'.pools == r.pools && forall x :: x in r.tokens ==> x in r'.tokens
    requires forall a, b :: GetStr(s', PoolKey(a, b)) == GetStr(s, PoolKey(a, b))
    ensures PoolsMatch(s', r')
  {
    hide GetStr, PoolKey, Less;
  }

  lemma ListsStillMatch(s: Store, r: Registry, r': Registry, name: string, t: Token)
    requires name !in r.tokens && t.chain in VALID_CHAINS
    requires r' == r.(tokens := r.tokens[name := t], names := r.names + [name], chains := AddOnce(r.chains, t.chain))
    requires Lists(GetStr(s, TOKENS_LIST), r.names + [name]) && Lists(GetStr(s, CHAINS_LIST), r'.chains)
    requires Distinct(r.names) && Distinct(r.chains)
    requires forall x :: x in r.names <==> x in r.tokens
    requires forall x :: x in r.tokens ==> r.tokens[x].chain in r.chains
    requires forall h :: h in r.chains ==> h in VALID_CHAINS && exists x :: x in r.tokens && r.tokens[x].chain == h
    ensures ListsMatch(s, r')
  {
    forall h | h in r'.chains ensures h in VALID_CHAINS && exists x :: x in r'.tokens && r'.tokens[x].chain == h {
      if h in r.chains {
        var x :| x in r.tokens && r.tokens[x].chain == h;
        assert r'.tokens[x].chain == h;
      } else {
        assert r'.tokens[name].chain == h;
      }
    }
  }

  // The store after a pool registration stands for the registry with the pair.
  lemma PoolRepresented(s: Store, r: Registry, c: Codec, a: string, b: string, id: string)
    requires Represents(s, r, c)
    requires Lower(a) != Lower(b) && Lower(a) in r.tokens && Lower(b) in r.tokens && Pair(a, b) !in r.pools
    ensures Represents(s[PoolKey(Pair(a, b).0, Pair(a, b).1) := id], WithPool(r, a, b, id), c)
  {
    hide Lists, PoolKey, ValidName, Lower, Less, GetStr, Distinct, PoolsMatch, TokensMatch, ListsMatch;
    var pair := Pair(a, b);
    var s' := s[PoolKey(pair.0, pair.1) := id];
    LessTotal(Lower(a), Lower(b));
    TokenNameValid(s, r, c, pair.0);
    TokenNameValid(s, r, c, pair.1);
    PoolLookups(s, pair.0, pair.1, id);
    TokensUntouched(s, s', r, WithPool(r, a, b, id), c);
    ListsUntouched(s, s', r, WithPool(r, a, b, id));
    PairAdded(s, s', r, pair.0, pair.1, id);
  }

  lemma TokenNameValid(s: Store, r: Registry, c: Codec, x: string)
    requires TokensMatch(s, r, c) && x in r.tokens
    ensures ValidName(x) && '-' !in x
  {
    ValidNameFacts(x);
  }

  lemma ListsUntouched(s: Store, s': Store, r: Registry, r': Registry)
    requires ListsMatch(s, r) && r' == r.(pools := r'.pools)
    requires GetStr(s', CHAINS_LIST) == GetStr(s, CHAINS_LIST) && GetStr(s', TOKENS_LIST) == GetStr(s, TOKENS_LIST)
    ensures ListsMatch(s', r')
  {
    hide Lists, GetStr, Distinct;
  }

  lemma PoolLookups(s: Store, a: string, b: string, id: string)
    requires '-' !in a && '-' !in b
    ensures var s' := s[PoolKey(a, b) := id];
      && GetStr(s', CHAINS_LIST) == GetStr(s, CHAINS_LIST) && GetStr(s', TOKENS_LIST) == GetStr(s, TOKENS_LIST)
      && (forall x :: GetStr(s', ASSET_PREFIX + x) == GetStr(s, ASSET_PREFIX + x))
      && (forall x, y :: GetStr(s', PoolKey(x, y)) == if x == a && y == b then id else GetStr(s, PoolKey(x, y)))
  {
    var s' := s[PoolKey(a, b) := id];
    KeysApart("", a, b);
    forall x ensures GetStr(s', ASSET_PREFIX + x) == GetStr(s, ASSET_PREFIX + x) { KeysApart(x, a, b); }
    forall x, y ensures GetStr(s', PoolKey(x, y)) == if x == a && y == b then id else GetStr(s, PoolKey(x, y)) {
      PoolKeyInjective(x, y, a, b);
    }
  }

  lemma TokensUntouched(s: Store, s': Store, r: Registry, r': Registry, c: Codec)
    requires TokensMatch(s, r, c) && r'.tokens == r.tokens
    requires forall x :: GetStr(s', ASSET_PREFIX + x) == GetStr(s, ASSET_PREFIX + x)
    ensures TokensMatch(s', r', c)
  {
    hide GetStr, ValidName;
  }

  lemma PairAdded(s: Store, s': Store, r: Registry, a: string, b: string, id: string)
    requires PoolsMatch(s, r) && a in r.tokens && b in r.tokens && Less(a, b) && (a, b) !in r.pools
    requires forall x, y :: GetStr(s', PoolKey(x, y)) == if x == a && y == b then id else GetStr(s, PoolKey(x, y))
    ensures PoolsMatch(s', if id == "" then r else r.(pools := r.pools[(a, b) := id]))
  {
    hide GetStr, PoolKey, Less;
  }
}
