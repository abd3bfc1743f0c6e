/** The balances of all accounts, as the host keeps them, and the asset a name stands for. */
module Bank {
  import opened Text

  // A native asset of the chain, or a token kept by a mapping contract.
  datatype AssetId = Native(name: string) | Mapped(contract: string, name: string)

  type Ledger = map<(string, AssetId), nat>

  const HIVE_ASSETS: set<string> := {"hbd", "hive", "hive_consensus", "hbd_savings"}
  const HBD := "hbd"
  const NODES := "pendulum:nodes"

  // The ledger account of a contract.
  function Acct(id: string): string {
    "contract:" + id
  }

  lemma AcctFacts(a: string, b: string)
    ensures Acct(a) == Acct(b) <==> a == b
    ensures Acct(a) != NODES
  {
    assert Acct(a)[9..] == a && Acct(b)[9..] == b;
    assert Acct(a)[0] == 'c' && NODES[0] == 'p';
  }

  // asset.NewAsset: the native assets have fixed names, every other asset needs a
  // mapping contract.
  function NewAsset(name: string, mapping: string): Option<AssetId> {
    if Lower(name) in HIVE_ASSETS then Some(Native(Lower(name)))
    else if mapping == "" then None
    else Some(Mapped(mapping, Lower(name)))
  }

  function Bal(l: Ledger, who: string, a: AssetId): nat {
    if (who, a) in l then l[(who, a)] else 0
  }

  // n at one entry of the ledger, zero at every other.
  function At(who: string, b: AssetId, at: string, a: AssetId, n: nat): nat {
    if (who, b) == (at, a) then n else 0
  }

  // Moves n units; refused when the payer does not hold them.
  function Move(l: Ledger, from: string, to: string, a: AssetId, n: nat): Option<Ledger> {
    if Bal(l, from, a) < n then None
    else
      var l1 := l[(from, a) := Bal(l, from, a) - n];
      Some(l1[(to, a) := Bal(l1, to, a) + n])
  }

  // Takes n units off the ledger: a withdrawal to another chain.
  function Burn(l: Ledger, from: string, a: AssetId, n: nat): Option<Ledger> {
    if Bal(l, from, a) < n then None else Some(l[(from, a) := Bal(l, from, a) - n])
  }

  // Every balance after a move or a withdrawal.
  lemma MoveBalances(l: Ledger, from: string, to: string, a: AssetId, n: nat)
    ensures var r := Move(l, from, to, a, n);
      && (r.Some? <==> n <= Bal(l, from, a))
      && (r.Some? ==> forall who, b ::
            Bal(r.value, who, b) == Bal(l, who, b) - At(who, b, from, a, n) + At(who, b, to, a, n))
  {
  }

  lemma BurnBalances(l: Ledger, from: string, a: AssetId, n: nat)
    ensures var r := Burn(l, from, a, n);
      && (r.Some? <==> n <= Bal(l, from, a))
      && (r.Some? ==> forall who, b :: Bal(r.value, who, b) == Bal(l, who, b) - At(who, b, from, a, n))
  {
  }

  // Moves of different assets can be made in either order.
  lemma MovesCommute(l: Ledger, f1: string, t1: string, a: AssetId, m: nat, f2: string, t2: string, b: AssetId, n: nat)
    requires a != b
    ensures var ab := Move(l, f1, t1, a, m); var ba := Move(l, f2, t2, b, n);
      (if ab.Some? then Move(ab.value, f2, t2, b, n) else None)
        == (if ba.Some? then Move(ba.value, f1, t1, a, m) else None)
  {
    var ab, ba := Move(l, f1, t1, a, m), Move(l, f2, t2, b, n);
    if ab.Some? && ba.Some? {
      var x1, x2 := Bal(l, f1, a) - m, Bal(l[(f1, a) := Bal(l, f1, a) - m], t1, a) + m;
      var y1, y2 := Bal(l, f2, b) - n, Bal(l[(f2, b) := Bal(l, f2, b) - n], t2, b) + n;
      UpdatesCommute(l, (f1, a), x1, (t1, a), x2, (f2, b), y1, (t2, b), y2);
    }
  }

  lemma BurnCommutesWithMove(l: Ledger, f1: string, a: AssetId, m: nat, f2: string, t2: string, b: AssetId, n: nat)
    requires a != b
    ensures var ab := Burn(l, f1, a, m); var ba := Move(l, f2, t2, b, n);
      (if ab.Some? then Move(ab.value, f2, t2, b, n) else None) == (if ba.Some? then Burn(ba.value, f1, a, m) else None)
  {
    var ab, ba := Burn(l, f1, a, m), Move(l, f2, t2, b, n);
    if ab.Some? && ba.Some? {
      var x := Bal(l, f1, a) - m;
      var y1, y2 := Bal(l, f2, b) - n, Bal(l[(f2, b) := Bal(l, f2, b) - n], t2, b) + n;
      UpdatesCommute(l, (f1, a), x, (f1, a), x, (f2, b), y1, (t2, b), y2);
      assert l[(f1, a) := x][(f1, a) := x] == l[(f1, a) := x];
      assert ba.value[(f1, a) := x][(f1, a) := x] == ba.value[(f1, a) := x];
    }
  }

  lemma BurnsCommute(l: Ledger, f1: string, a: AssetId, m: nat, f2: string, b: AssetId, n: nat)
    requires a != b
    ensures var ab := Burn(l, f1, a, m); var ba := Burn(l, f2, b, n);
      (if ab.Some? then Burn(ab.value, f2, b, n) else None) == (if ba.Some? then Burn(ba.value, f1, a, m) else None)
  {
    var ab, ba := Burn(l, f1, a, m), Burn(l, f2, b, n);
    if ab.Some? && ba.Some? {
      assert ab.value[(f2, b) := Bal(l, f2, b) - n] == ba.value[(f1, a) := Bal(l, f1, a) - m];
    }
  }

  lemma UpdatesCommute<K, V>(l: map<K, V>, k1: K, v1: V, k2: K, v2: V, k3: K, v3: V, k4: K, v4: V)
    requires k1 != k3 && k1 != k4 && k2 != k3 && k2 != k4
    ensures l[k1 := v1][k2 := v2][k3 := v3][k4 := v4] == l[k3 := v3][k4 := v4][k1 := v1][k2 := v2]
  {
  }

  // The host's ledger, updated in place.
  class Bank {
    var ledger: Ledger

    method Transfer(from: string, to: string, a: AssetId, n: nat) returns (ok: bool)
      modifies this
      ensures ok <==> Move(old(ledger), from, to, a, n).Some?
      ensures ledger == if ok then Move(old(ledger), from, to, a, n).value else old(ledger)
    {
      var held := Bal(ledger, from, a);
      if held < n { return false; }
      ledger := ledger[(from, a) := held - n];
      var have := Bal(ledger, to, a);
      ledger := ledger[(to, a) := have + n];
      return true;
    }

    method Withdraw(from: string, a: AssetId, n: nat) returns (ok: bool)
      modifies this
      ensures ok <==> Burn(old(ledger), from, a, n).Some?
      ensures ledger == if ok then Burn(old(ledger), from, a, n).value else old(ledger)
    {
      var held := Bal(ledger, from, a);
      if held < n { return false; }
      ledger := ledger[(from, a) := held - n];
      return true;
    }
  }
}
