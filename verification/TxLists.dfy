/**
 txList of core/tx_list.go: an account's transactions with cached cost and gas caps.  `List`
 is the list as a value, which the pool stores per account; the class `TxList` is the list
 the source keeps, updated in place, with every operation proved to act as on the value.
 */
module TxLists {
  import opened Types
  import opened TxListSpec
  import opened TxSortedMap

  datatype List = List(strict: bool, items: Items, costcap: nat, gascap: nat)

  function NewList(strict: bool): List {
    List(strict, map[], 0, 0)
  }

  ghost predicate Bounded(l: List) {
    forall n :: n in l.items ==> l.items[n].cost <= l.costcap && l.items[n].gas <= l.gascap
  }

  ghost predicate WellFormed(l: List) {
    KeyedByNonce(l.items) && Bounded(l)
  }

  /** A replacement must beat the old price and the old price raised by the bump percentage. */
  predicate Outbids(old_: Tx, tx: Tx, bump: nat) {
    old_.price < tx.price && old_.price * (100 + bump) / 100 <= tx.price
  }

  /** Without the division: raised by the bump percentage the old price is less than one above the new one. */
  ghost predicate Raised(old_: nat, price: nat, bump: nat) {
    old_ < price && old_ * (100 + bump) < 100 * (price + 1)
  }

  lemma OutbidsRaises(old_: Tx, tx: Tx, bump: nat)
    ensures Outbids(old_, tx, bump) <==> Raised(old_.price, tx.price, bump)
  {
    Hundredth(old_.price * (100 + bump), tx.price);
  }

  lemma Hundredth(x: nat, y: nat)
    ensures x / 100 <= y <==> x < 100 * (y + 1)
  {
  }

  /** Whether Add accepts the transaction. */
  predicate Accepts(l: List, tx: Tx, bump: nat) {
    tx.nonce in l.items ==> Outbids(l.items[tx.nonce], tx, bump)
  }

  function Insert(l: List, tx: Tx): (r: List)
    ensures WellFormed(l) ==> WellFormed(r)
    ensures r.items == l.items[tx.nonce := tx] && r.strict == l.strict
  {
    l.(items := l.items[tx.nonce := tx],
       costcap := if l.costcap < tx.cost then tx.cost else l.costcap,
       gascap := if l.gascap < tx.gas then tx.gas else l.gascap)
  }

  predicate Unaffordable(tx: Tx, costLimit: nat, gasLimit: nat) {
    tx.cost > costLimit || tx.gas > gasLimit
  }

  function Exceeding(costLimit: nat, gasLimit: nat): Tx -> bool {
    (tx: Tx) => Unaffordable(tx, costLimit, gasLimit)
  }

  function Above(nonce: nat): Tx -> bool {
    (tx: Tx) => tx.nonce > nonce
  }

  /** What Filter throws out. */
  function Costly(items: Items, costLimit: nat, gasLimit: nat): Items {
    map n | n in items && Unaffordable(items[n], costLimit, gasLimit) :: items[n]
  }

  /** The nonce from which a strict list stops being executable once the costly ones are gone. */
  function GapAt(l: List, costLimit: nat, gasLimit: nat): nat {
    var costly := Costly(l.items, costLimit, gasLimit);
    if l.strict && costly != map[] then Least(costly) else Top(l.items)
  }

  /** What a strict list hands back because a lower nonce was thrown out. */
  function Invalidated(l: List, costLimit: nat, gasLimit: nat): Items {
    map n | n in l.items && !Unaffordable(l.items[n], costLimit, gasLimit) && GapAt(l, costLimit, gasLimit) < n
      :: l.items[n]
  }

  function Affordable(l: List, costLimit: nat, gasLimit: nat): Items {
    map n | n in l.items && !Unaffordable(l.items[n], costLimit, gasLimit) && n <= GapAt(l, costLimit, gasLimit)
      :: l.items[n]
  }

  /** The list after Filter: the caps are lowered only when something might exceed the limits. */
  function Filtered(l: List, costLimit: nat, gasLimit: nat): List {
    if l.costcap <= costLimit && l.gascap <= gasLimit then l
    else List(l.strict, Affordable(l, costLimit, gasLimit), costLimit, gasLimit)
  }

  /** Trusting the caps is sound: the contents are always what the full scan would leave. */
  lemma FilteredItems(l: List, costLimit: nat, gasLimit: nat)
    requires WellFormed(l)
    ensures WellFormed(Filtered(l, costLimit, gasLimit))
    ensures Filtered(l, costLimit, gasLimit).items == Affordable(l, costLimit, gasLimit)
  {
    if l.costcap <= costLimit && l.gascap <= gasLimit {
      ShortCircuit(l, costLimit, gasLimit);
    }
  }

  /** Filtering partitions the contents three ways; what stays is affordable and, if strict, free of new gaps. */
  lemma FilterPartitions(l: List, costLimit: nat, gasLimit: nat)
    ensures var c, i := Costly(l.items, costLimit, gasLimit), Invalidated(l, costLimit, gasLimit);
            var a := Affordable(l, costLimit, gasLimit);
            && c.Keys !! i.Keys !! a.Keys
            && c.Keys + i.Keys + a.Keys == l.items.Keys
            && (forall n :: n in a ==> a[n].cost <= costLimit && a[n].gas <= gasLimit)
            && (l.strict ==> forall n, d :: n in a && d in l.items && d < n ==> d in a)
  {
    forall n, d | n in Affordable(l, costLimit, gasLimit) && d in l.items && d < n && l.strict
      ensures d in Affordable(l, costLimit, gasLimit)
    {
      var costly := Costly(l.items, costLimit, gasLimit);
      assert Unaffordable(l.items[d], costLimit, gasLimit) ==> d in costly;
    }
  }

  class TxList {
    const strict: bool
    const txs: SortedMap
    var costcap: nat
    var gascap: nat

    ghost predicate Valid()
      reads this, txs
    {
      txs.Valid() && Bounded(Value())
    }

    ghost function Value(): List
      reads this, txs
    {
      List(strict, txs.items, costcap, gascap)
    }

    constructor (strict: bool)
      ensures Valid() && Value() == NewList(strict) && fresh(txs)
    {
      this.strict := strict;
      this.costcap, this.gascap := 0, 0;
      this.txs := new SortedMap();
    }

    /** Inserts the transaction unless one it does not outbid has its nonce. */
    method Add(tx: Tx, bump: nat) returns (inserted: bool, replaced: Option<Tx>)
      requires Valid()
      modifies this, txs
      ensures Valid()
      ensures inserted == Accepts(old(Value()), tx, bump)
      ensures inserted <==>
                tx.nonce in old(Value()).items ==> Raised(old(Value()).items[tx.nonce].price, tx.price, bump)
      ensures Value() == if inserted then Insert(old(Value()), tx) else old(Value())
      ensures inserted && tx.nonce in old(Value()).items ==> replaced == Some(old(Value()).items[tx.nonce])
      ensures !inserted || tx.nonce !in old(Value()).items ==> replaced == None
    {
      replaced := None;
      if tx.nonce in txs.items {
        var before := txs.items[tx.nonce];
        OutbidsRaises(before, tx, bump);
        var threshold := before.price * (100 + bump) / 100;
        if before.price >= tx.price || threshold > tx.price {
          return false, None;
        }
        replaced := Some(before);
      }
      txs.Put(tx);
      if costcap < tx.cost { costcap := tx.cost; }
      if gascap < tx.gas { gascap := tx.gas; }
      inserted := true;
    }

    method Forward(threshold: nat) returns (removed: seq<Tx>)
      requires Valid()
      modifies txs
      ensures Valid() && Value() == old(Value()).(items := AtLeast(old(Value()).items, threshold))
      ensures removed == Flatten(Below(old(Value()).items, threshold))
    {
      removed := txs.Forward(threshold);
    }

    /**
     Throws out what exceeds either limit.  The early return on the cached caps never skips
     anything: the contents end up as the full scan would leave them.
     */
    method Filter(costLimit: nat, gasLimit: nat) returns (removed: seq<Tx>, invalids: seq<Tx>)
      requires Valid()
      modifies this, txs
      ensures Valid()
      ensures Value() == Filtered(old(Value()), costLimit, gasLimit)
      ensures txs.items == Affordable(old(Value()), costLimit, gasLimit)
      ensures multiset(removed) == multiset(Costly(old(Value()).items, costLimit, gasLimit).Values)
      ensures multiset(invalids) == multiset(Invalidated(old(Value()), costLimit, gasLimit).Values)
    {
      ghost var l := Value();
      if costcap <= costLimit && gascap <= gasLimit {
        ShortCircuit(l, costLimit, gasLimit);
        return [], [];
      }
      costcap, gascap := costLimit, gasLimit;
      removed := txs.Filter(Exceeding(costLimit, gasLimit));
      assert Picked(l.items, Exceeding(costLimit, gasLimit), l.items.Keys)
          == Costly(l.items, costLimit, gasLimit).Values by { CostlyValues(l.items, costLimit, gasLimit); }
      invalids := [];
      if strict && |removed| > 0 {
        var lowest := LowestNonce(removed, l, costLimit, gasLimit);
        ghost var kept := txs.items;
        invalids := txs.Filter(Above(lowest));
        AboveGap(l, kept, costLimit, gasLimit, lowest);
      } else {
        NoGap(l, costLimit, gasLimit, removed);
      }
    }

    method Cap(threshold: nat) returns (drops: seq<Tx>)
      requires Valid()
      modifies txs
      ensures Valid()
      ensures Value() == old(Value()).(items := Below(old(Value()).items, CutOff(old(Value()).items, threshold)))
      ensures drops == Reverse(Flatten(AtLeast(old(Value()).items, CutOff(old(Value()).items, threshold))))
    {
      drops := txs.Cap(threshold);
    }

    /** Deletes by nonce; a strict list also hands back everything above. */
    method Remove(tx: Tx) returns (ok: bool, invalids: seq<Tx>)
      requires Valid()
      modifies txs
      ensures Valid() && ok == (tx.nonce in old(Value()).items)
      ensures !ok ==> Value() == old(Value()) && invalids == []
      ensures ok && !strict ==> txs.items == old(txs.items) - {tx.nonce} && invalids == []
      ensures ok && strict ==> txs.items == Below(old(txs.items), tx.nonce)
      ensures ok && strict ==> multiset(invalids) == multiset(AtLeast(old(txs.items), tx.nonce + 1).Values)
    {
      ghost var was := txs.items;
      ok := txs.Remove(tx.nonce);
      invalids := [];
      if ok && strict {
        ghost var rest := txs.items;
        var nonce := tx.nonce;
        invalids := txs.Filter(Above(nonce));
        AboveRemoved(was, rest, nonce);
      }
    }

    method Ready(start: nat) returns (ready: seq<Tx>)
      requires Valid()
      modifies txs
      ensures Valid()
      ensures Value() == old(Value()).(items := AtLeast(old(Value()).items, ReadyEnd(old(Value()).items, start)))
      ensures ready == Listing(old(Value()).items, 0, ReadyEnd(old(Value()).items, start))
    {
      ready := txs.Ready(start);
    }
  }

  lemma ShortCircuit(l: List, costLimit: nat, gasLimit: nat)
    requires Bounded(l) && l.costcap <= costLimit && l.gascap <= gasLimit
    ensures Affordable(l, costLimit, gasLimit) == l.items
    ensures Costly(l.items, costLimit, gasLimit) == map[] && Invalidated(l, costLimit, gasLimit) == map[]
  {
    assert Costly(l.items, costLimit, gasLimit) == map[];
  }

  lemma CostlyValues(items: Items, costLimit: nat, gasLimit: nat)
    ensures Picked(items, Exceeding(costLimit, gasLimit), items.Keys)
         == Costly(items, costLimit, gasLimit).Values
  {
    var costly := Costly(items, costLimit, gasLimit);
    forall n | n in costly ensures items[n] in costly.Values {
      assert costly[n] in costly.Values;
    }
  }

  method LowestNonce(removed: seq<Tx>, ghost l: List, costLimit: nat, gasLimit: nat) returns (lowest: nat)
    requires removed != [] && KeyedByNonce(l.items)
    requires multiset(removed) == multiset(Costly(l.items, costLimit, gasLimit).Values)
    ensures Costly(l.items, costLimit, gasLimit) != map[]
    ensures lowest == Least(Costly(l.items, costLimit, gasLimit))
  {
    ghost var costly := Costly(l.items, costLimit, gasLimit);
    lowest := removed[0].nonce;
    for i := 1 to |removed|
      invariant forall j :: 0 <= j < i ==> lowest <= removed[j].nonce
      invariant exists j :: 0 <= j < i && lowest == removed[j].nonce
    {
      if removed[i].nonce < lowest { lowest := removed[i].nonce; }
    }
    assert forall tx :: tx in removed <==> tx in multiset(removed);
    var j :| 0 <= j < |removed| && lowest == removed[j].nonce;
    assert removed[j] in removed;
    assert removed[j] in costly.Values;
    assert lowest in costly;
    assert costly[Least(costly)] in costly.Values;
    assert costly[Least(costly)] in removed;
  }

  lemma AboveGap(l: List, kept: Items, costLimit: nat, gasLimit: nat, lowest: nat)
    requires KeyedByNonce(l.items) && l.strict
    requires kept == Rejected(l.items, Exceeding(costLimit, gasLimit))
    requires Costly(l.items, costLimit, gasLimit) != map[] && lowest == Least(Costly(l.items, costLimit, gasLimit))
    ensures Rejected(kept, Above(lowest)) == Affordable(l, costLimit, gasLimit)
    ensures Picked(kept, Above(lowest), kept.Keys) == Invalidated(l, costLimit, gasLimit).Values
  {
    var gone := Invalidated(l, costLimit, gasLimit);
    forall n | n in gone ensures kept[n] in gone.Values {
      assert gone[n] in gone.Values;
    }
  }

  lemma NoGap(l: List, costLimit: nat, gasLimit: nat, removed: seq<Tx>)
    requires multiset(removed) == multiset(Costly(l.items, costLimit, gasLimit).Values)
    requires !l.strict || removed == []
    ensures Rejected(l.items, Exceeding(costLimit, gasLimit)) == Affordable(l, costLimit, gasLimit)
    ensures Invalidated(l, costLimit, gasLimit) == map[]
  {
    var costly := Costly(l.items, costLimit, gasLimit);
    assert forall n :: n in costly ==> costly[n] in multiset(costly.Values);
  }

  lemma AboveRemoved(was: Items, rest: Items, nonce: nat)
    requires KeyedByNonce(was) && rest == was - {nonce}
    ensures Rejected(rest, Above(nonce)) == Below(was, nonce)
    ensures Picked(rest, Above(nonce), rest.Keys) == AtLeast(was, nonce + 1).Values
  {
    var above := AtLeast(was, nonce + 1);
    forall n | n in above ensures rest[n] in above.Values {
      assert above[n] in above.Values;
    }
  }
}
