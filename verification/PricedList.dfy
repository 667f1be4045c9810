/**
 txPricedList of core/tx_list.go: a price-ordered heap over the whole pool that is cleaned up
 lazily, so it may hold transactions that left the pool (stale ones) and even repeat some.
 */
module PricedList {
  import opened Types
  import Heap

  type Lookup = map<Hash, Tx>

  /** Cheapest first; at equal price the higher nonce first. */
  function PriceKey(tx: Tx): Heap.Key {
    Heap.Key(tx.price, 0 - tx.nonce)
  }

  predicate IsLocal(tx: Tx, locals: set<Address>) {
    tx.signed && tx.sender in locals
  }

  /** No two transactions share a hash: `preimage` names the one each hash stands for. */
  ghost predicate Genuine(preimage: Hash -> Tx, tx: Tx) {
    preimage(tx.hash) == tx
  }

  ghost predicate GenuineLookup(preimage: Hash -> Tx, all: Lookup) {
    forall h :: h in all ==> all[h].hash == h && Genuine(preimage, all[h])
  }

  /** Every pool transaction outside `missing` is in the heap. */
  ghost predicate Covers(items: seq<Tx>, all: Lookup, missing: set<Tx>) {
    forall h :: h in all ==> all[h] in items || all[h] in missing
  }

  class PriceList {
    var items: seq<Tx>
    var stales: int
    ghost const preimage: Hash -> Tx

    ghost predicate Valid()
      reads this
    {
      && Heap.IsHeap(items, PriceKey)
      && forall tx :: tx in items ==> Genuine(preimage, tx)
    }

    constructor (ghost preimage: Hash -> Tx)
      ensures Valid() && items == [] && stales == 0 && this.preimage == preimage
    {
      items, stales := [], 0;
      this.preimage := preimage;
    }

    method Put(tx: Tx)
      requires Valid() && Genuine(preimage, tx)
      modifies this
      ensures Valid() && multiset(items) == multiset(old(items)) + multiset{tx}
      ensures |items| == |old(items)| + 1 && stales == old(stales)
      ensures forall x :: x in items <==> x in old(items) || x == tx
    {
      items := Heap.Push(items, PriceKey, tx);
      assert forall x :: x in items <==> x in multiset(items);
    }

    /** Counts one more stale entry and rebuilds the heap from the pool once a quarter is stale. */
    method Removed(all: Lookup)
      requires Valid() && GenuineLookup(preimage, all)
      modifies this
      ensures Valid()
      ensures forall h :: h in all && all[h] in old(items) ==> all[h] in items
      ensures old(stales) + 1 <= |old(items)| / 4 ==> items == old(items)
    {
      stales := stales + 1;
      if stales <= |items| / 4 {
        return;
      }
      stales := 0;
      var fresh_ := ListAll(all);
      items := Heap.Init(fresh_, PriceKey);
      assert forall x :: x in items <==> x in multiset(items);
      assert forall x :: x in fresh_ <==> x in multiset(fresh_);
    }

    /**
     Picks the remote transactions priced below the threshold, exactly those, and takes them
     off the heap.
     */
    method Cap(threshold: nat, locals: set<Address>, all: Lookup) returns (drop: seq<Tx>)
      requires Valid() && GenuineLookup(preimage, all) && Covers(items, all, {})
      modifies this
      ensures Valid()
      ensures forall tx :: tx in drop <==>
                tx.hash in all && all[tx.hash] == tx && !IsLocal(tx, locals) && tx.price < threshold
      ensures Covers(items, all, set tx | tx in drop)
    {
      drop := [];
      var save: seq<Tx> := [];
      var done := false;
      while |items| > 0 && !done
        invariant Valid()
        invariant forall tx :: tx in drop ==> Remote(tx, all, locals) && tx.price < threshold
        invariant forall tx :: tx in save ==> Genuine(preimage, tx) && (IsLocal(tx, locals) || tx.price >= threshold)
        invariant done ==> forall tx :: tx in items ==> tx.price >= threshold
        invariant CoveredByThree(items, save, drop, all)
        decreases |items|, !done
      {
        var tx, rest := PopCheapest();
        if tx.hash !in all {
          stales := stales - 1;
        } else if tx.price >= threshold {
          save := save + [tx];
          done := true;
        } else if IsLocal(tx, locals) {
          save := save + [tx];
        } else {
          drop := drop + [tx];
        }
      }
      forall tx | Remote(tx, all, locals) && tx.price < threshold ensures tx in drop {
        assert all[tx.hash] in items || all[tx.hash] in save || all[tx.hash] in drop;
      }
      PushBack(save);
    }

    /**
     Whether the offered transaction is no dearer than everything in the pool; senders marked
     local are exempt.
     */
    method Underpriced(tx: Tx, locals: set<Address>, all: Lookup) returns (r: bool)
      requires Valid() && GenuineLookup(preimage, all) && Covers(items, all, {})
      modifies this
      ensures Valid() && Covers(items, all, {}) && multiset(items) <= multiset(old(items))
      ensures r <==> all != map[] && !IsLocal(tx, locals) && forall h :: h in all ==> tx.price <= all[h].price
    {
      if IsLocal(tx, locals) {
        return false;
      }
      while |items| > 0 && items[0].hash !in all
        invariant Valid() && Covers(items, all, {}) && multiset(items) <= multiset(old(items))
        decreases |items|
      {
        var head, rest := PopCheapest();
        stales := stales - 1;
      }
      if |items| == 0 {
        assert all == map[];
        return false;
      }
      Heap.RootIsLeastOfAll(items, PriceKey);
      assert items[0] in items;
      return items[0].price >= tx.price;
    }

    /**
     Takes the `count` cheapest remote entries off the heap.  Nothing dropped is dearer than a
     remote transaction that is kept, and fewer than `count` are dropped only when no remote
     transaction is left.  A transaction that is on the heap twice counts twice, and all its
     entries are dropped if it is cheaper than another one dropped.
     */
    method Discard(count: int, locals: set<Address>, all: Lookup) returns (drop: seq<Tx>)
      requires Valid() && GenuineLookup(preimage, all) && Covers(items, all, {})
      modifies this
      ensures Valid()
      ensures forall tx :: tx in drop ==> Remote(tx, all, locals)
      ensures Covers(items, all, set tx | tx in drop)
      ensures forall d, k :: d in drop && Remote(k, all, locals) && k !in drop ==> d.price <= k.price
      ensures |drop| <= (if count < 0 then 0 else count)
      ensures |drop| < count ==> forall k :: Remote(k, all, locals) ==> k in drop
      ensures multiset(drop) <= multiset(old(items))
      ensures forall t, d :: Remote(t, all, locals) && d in drop && t.price < d.price ==>
                multiset(drop)[t] == multiset(old(items))[t]
    {
      drop := [];
      var save: seq<Tx> := [];
      var left := count;
      while |items| > 0 && left > 0
        invariant Valid()
        invariant forall tx :: tx in drop ==> Remote(tx, all, locals)
        invariant forall tx :: tx in save ==> Genuine(preimage, tx) && IsLocal(tx, locals)
        invariant forall d, x :: d in drop && x in items ==> d.price <= x.price
        invariant CoveredByThree(items, save, drop, all)
        invariant |drop| + left == count && (left < 0 ==> drop == [])
        invariant multiset(items) + multiset(drop) <= multiset(old(items))
        invariant forall t :: Remote(t, all, locals) ==>
                    multiset(items)[t] + multiset(drop)[t] == multiset(old(items))[t]
        decreases |items|
      {
        var tx, rest := PopCheapest();
        if tx.hash !in all {
          stales := stales - 1;
        } else if IsLocal(tx, locals) {
          save := save + [tx];
        } else {
          drop := drop + [tx];
          left := left - 1;
        }
      }
      forall k | Remote(k, all, locals) ensures k in items || k in drop {
        assert all[k.hash] in items || all[k.hash] in save || all[k.hash] in drop;
      }
      PushBack(save);
    }

    method PopCheapest() returns (tx: Tx, ghost was: seq<Tx>)
      requires Valid() && |items| > 0
      modifies this`items
      ensures Valid() && was == old(items) && tx == was[0] && tx in was && Genuine(preimage, tx)
      ensures |items| == |was| - 1
      ensures multiset(was) == multiset(items) + multiset{tx}
      ensures forall x :: x in was <==> x in items || x == tx
      ensures forall x :: x in items ==> tx.price <= x.price
    {
      was := items;
      tx, items := Heap.Pop(items, PriceKey);
      assert forall x :: x in items <==> x in multiset(items);
      assert forall x :: x in was <==> x in multiset(was);
      forall x | x in items ensures tx.price <= x.price {
        assert !Heap.Less(PriceKey(x), PriceKey(tx));
      }
    }

    method PushBack(save: seq<Tx>)
      requires Valid() && forall tx :: tx in save ==> Genuine(preimage, tx)
      modifies this
      ensures Valid() && forall x :: x in items <==> x in old(items) || x in save
    {
      for i := 0 to |save|
        invariant Valid()
        invariant forall x :: x in items <==> x in old(items) || x in save[..i]
      {
        Put(save[i]);
        assert save[..i + 1] == save[..i] + [save[i]];
      }
      assert save[..|save|] == save;
    }
  }

  /** A pool transaction of an account not marked local. */
  ghost predicate Remote(tx: Tx, all: Lookup, locals: set<Address>) {
    tx.hash in all && all[tx.hash] == tx && !IsLocal(tx, locals)
  }

  ghost predicate CoveredByThree(items: seq<Tx>, save: seq<Tx>, drop: seq<Tx>, all: Lookup) {
    forall h :: h in all ==> all[h] in items || all[h] in save || all[h] in drop
  }

  method ListAll(all: Lookup) returns (s: seq<Tx>)
    ensures forall tx :: tx in s <==> exists h :: h in all && all[h] == tx
  {
    s := [];
    var todo := all.Keys;
    while todo != {}
      invariant todo <= all.Keys
      invariant forall tx :: tx in s <==> exists h :: h in all && h !in todo && all[h] == tx
      decreases todo
    {
      var h :| h in todo;
      s, todo := s + [all[h]], todo - {h};
    }
  }

  /** No remote pool transaction is on the heap twice. */
  ghost predicate NoTwins(items: seq<Tx>, all: Lookup, locals: set<Address>) {
    forall t :: Remote(t, all, locals) ==> multiset(items)[t] <= 1
  }

  /** Then as many transactions are dropped as entries. */
  lemma DistinctDrop(drop: seq<Tx>, items: seq<Tx>, all: Lookup, locals: set<Address>)
    requires NoTwins(items, all, locals) && multiset(drop) <= multiset(items)
    requires forall tx :: tx in drop ==> Remote(tx, all, locals)
    ensures |set tx | tx in drop| == |drop|
  {
    forall tx ensures multiset(drop)[tx] <= 1 {
      assert tx in drop <==> tx in multiset(drop);
    }
    OnceEach(drop);
  }

  lemma {:induction false} OnceEach(s: seq<Tx>)
    requires forall x :: multiset(s)[x] <= 1
    ensures |set x | x in s| == |s|
  {
    if s != [] {
      var last, rest := s[|s| - 1], s[..|s| - 1];
      assert s == rest + [last];
      assert multiset(s) == multiset(rest) + multiset{last};
      forall x ensures multiset(rest)[x] <= multiset(s)[x] && (x == last ==> multiset(rest)[x] < multiset(s)[x]) {
      }
      OnceEach(rest);
      assert last !in multiset(rest);
      assert (set x | x in s) == (set x | x in rest) + {last};
    }
  }

  /** A remote transaction by its hash, which is its price too. */
  function Priced(h: Hash): Tx {
    Tx(h, 0, h, h, 0, 0, 0, 0, true, false, [])
  }

  const FOUR: Lookup := map[1 := Priced(1), 2 := Priced(2), 3 := Priced(3), 4 := Priced(4)]

  method ListFour() returns (list: PriceList)
    ensures list.Valid() && list.preimage == Priced && list.stales == 0 && fresh(list)
    ensures |list.items| == 4 && multiset(list.items) == multiset{Priced(1), Priced(2), Priced(3), Priced(4)}
  {
    list := new PriceList(Priced);
    list.Put(Priced(1));
    list.Put(Priced(2));
    list.Put(Priced(3));
    list.Put(Priced(4));
  }

  const TWIN: multiset<Tx> := multiset{Priced(1), Priced(1), Priced(2), Priced(3), Priced(4)}

  /** A transaction that leaves the pool and comes back while its old entry is still on the heap is there twice. */
  method ListTwin() returns (list: PriceList)
    ensures list.Valid() && fresh(list) && list.preimage == Priced && multiset(list.items) == TWIN
  {
    list := ListFour();
    list.Removed(FOUR - {1});
    list.Put(Priced(1));
    assert TWIN == multiset{Priced(1), Priced(2), Priced(3), Priced(4)} + multiset{Priced(1)};
  }

  /** Asked to drop two of four transactions, Discard then names this one twice. */
  method TwinNamedTwice() returns (list: PriceList, drop: seq<Tx>)
    ensures drop == [Priced(1), Priced(1)] && |FOUR| == 4
  {
    list := ListTwin();
    ghost var items := list.items;
    FourListed(items);
    drop := list.Discard(2, {}, FOUR);
    TwinFirst(items, FOUR, drop);
  }

  lemma FourListed(items: seq<Tx>)
    requires multiset(items) == TWIN
    ensures Covers(items, FOUR, {}) && GenuineLookup(Priced, FOUR) && |FOUR| == 4
  {
    assert forall x :: x in items <==> x in multiset(items);
    assert FOUR.Keys == {1, 2, 3, 4};
  }

  lemma TwinFirst(items: seq<Tx>, all: Lookup, drop: seq<Tx>)
    requires all == map[1 := Priced(1), 2 := Priced(2), 3 := Priced(3), 4 := Priced(4)]
    requires multiset(items) == TWIN
    requires |drop| <= 2 && (|drop| < 2 ==> forall k :: Remote(k, all, {}) ==> k in drop)
    requires forall tx :: tx in drop ==> Remote(tx, all, {})
    requires forall t, d :: Remote(t, all, {}) && d in drop && t.price < d.price ==>
               multiset(drop)[t] == multiset(items)[t]
    ensures drop == [Priced(1), Priced(1)]
  {
    forall d | d in drop ensures d == Priced(1) {
      assert Remote(d, all, {});
      if d != Priced(1) {
        assert Remote(Priced(1), all, {}) && Priced(1).price < d.price;
        assert multiset(drop)[Priced(1)] == 2;
        TwoAndOne(drop, Priced(1), d);
      }
    }
    assert Remote(Priced(1), all, {}) && Remote(Priced(2), all, {});
    assert |drop| == 2;
    assert drop[0] in drop && drop[1] in drop;
  }

  lemma TwoAndOne(s: seq<Tx>, a: Tx, b: Tx)
    requires multiset(s)[a] >= 2 && b in s && a != b
    ensures |s| >= 3
  {
    assert b in multiset(s);
    assert multiset{a, a, b} <= multiset(s);
    assert |multiset(s)| == |s|;
    var rest := multiset(s) - multiset{a, a, b};
    assert multiset(s) == rest + multiset{a, a, b};
  }
}
