/** Balances and what they add up to. */
module Ledger {
  import opened Types

  type Balances = map<Address, nat>

  function BalanceOf(m: Balances, a: Address): nat {
    if a in m then m[a] else 0
  }

  function Credit(m: Balances, a: Address, amount: nat): Balances {
    m[a := BalanceOf(m, a) + amount]
  }

  function Debit(m: Balances, a: Address, amount: nat): Balances
    requires amount <= BalanceOf(m, a)
  {
    m[a := BalanceOf(m, a) - amount]
  }

  ghost function SumOf(m: Balances, who: set<Address>): nat {
    if who == {} then 0 else
    var a :| a in who;
    BalanceOf(m, a) + SumOf(m, who - {a})
  }

  /** The balances of all accounts together. */
  ghost function Wealth(m: Balances): nat {
    SumOf(m, m.Keys)
  }

  lemma {:induction false} SumSplit(m: Balances, who: set<Address>, a: Address)
    requires a in who
    ensures SumOf(m, who) == BalanceOf(m, a) + SumOf(m, who - {a})
    decreases |who|
  {
    var b :| b in who && SumOf(m, who) == BalanceOf(m, b) + SumOf(m, who - {b});
    if a != b {
      SumSplit(m, who - {b}, a);
      SumSplit(m, who - {a}, b);
      assert who - {b} - {a} == who - {a} - {b};
    }
  }

  lemma {:induction false} SumAgrees(m: Balances, r: Balances, who: set<Address>)
    requires forall a :: a in who ==> BalanceOf(m, a) == BalanceOf(r, a)
    ensures SumOf(m, who) == SumOf(r, who)
    decreases |who|
  {
    if who != {} {
      var a :| a in who;
      SumSplit(m, who, a);
      SumSplit(r, who, a);
      SumAgrees(m, r, who - {a});
    }
  }

  /** Changing one balance changes the sum by as much. */
  lemma WealthUpdate(m: Balances, a: Address, v: nat)
    ensures Wealth(m[a := v]) == Wealth(m) - BalanceOf(m, a) + v
  {
    var r := m[a := v];
    var others := m.Keys - {a};
    assert r.Keys - {a} == others;
    SumSplit(r, r.Keys, a);
    SumAgrees(m, r, others);
    if a in m {
      SumSplit(m, m.Keys, a);
    } else {
      assert others == m.Keys;
    }
  }

  /** Deleting accounts takes exactly what they hold out of the sum. */
  lemma {:induction false} WealthWithout(m: Balances, gone: set<Address>)
    ensures Wealth(m) == Wealth(m - gone) + SumOf(m, gone)
    decreases |gone|
  {
    if gone == {} {
      assert m - gone == m;
    } else {
      var a :| a in gone;
      var rest := gone - {a};
      WealthWithout(m, rest);
      SumSplit(m, gone, a);
      OneFewer(m, gone, a);
      WealthWithoutOne(m - rest, a);
    }
  }

  lemma OneFewer(m: Balances, gone: set<Address>, a: Address)
    requires a in gone
    ensures m - gone == (m - (gone - {a})) - {a} && BalanceOf(m - (gone - {a}), a) == BalanceOf(m, a)
  {
  }

  lemma WealthWithoutOne(m: Balances, a: Address)
    ensures Wealth(m) == Wealth(m - {a}) + BalanceOf(m, a)
  {
    var r := m - {a};
    assert r.Keys == m.Keys - {a};
    SumAgrees(m, r, r.Keys);
    if a in m {
      SumSplit(m, m.Keys, a);
    } else {
      assert r == m;
    }
  }

  lemma {:induction false} NothingHeld(m: Balances, who: set<Address>)
    ensures SumOf(m, who) == 0 <==> forall a :: a in who ==> BalanceOf(m, a) == 0
    decreases |who|
  {
    if who != {} {
      var a :| a in who;
      SumSplit(m, who, a);
      NothingHeld(m, who - {a});
    }
  }
}
