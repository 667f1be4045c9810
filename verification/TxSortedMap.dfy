/**
 txSortedMap of core/tx_list.go: the nonce map, its heap index and its cached listing, all
 updated in place and each operation proved against its meaning on the nonce map.
 */
module TxSortedMap {
  import opened Types
  import opened TxListSpec
  import Heap

  function NonceKey(n: nat): Heap.Key {
    Heap.Key(n, 0)
  }

  /** The index holds every nonce once, the lowest first. */
  ghost predicate IndexOf(index: seq<nat>, items: Items) {
    Heap.IsHeap(index, NonceKey) && multiset(index) == multiset(items.Keys)
  }

  lemma IndexFacts(index: seq<nat>, items: Items)
    requires IndexOf(index, items)
    ensures |index| == |items|
    ensures forall n :: n in index <==> n in items
    ensures index != [] ==> items != map[] && index[0] == Least(items)
    ensures index == [] ==> items == map[]
  {
    assert |multiset(index)| == |multiset(items.Keys)|;
    assert forall n :: n in index <==> n in multiset(index);
    if index != [] {
      Heap.RootIsLeastOfAll(index, NonceKey);
      assert index[0] in index;
      assert !Heap.Less(NonceKey(Least(items)), NonceKey(index[0]));
    }
  }

  /** Sorting the index lists the nonces in strictly ascending order. */
  lemma SortedIndex(sorted: seq<nat>, items: Items)
    requires Heap.Sorted(sorted, NonceKey) && multiset(sorted) == multiset(items.Keys)
    ensures |sorted| == |items| && forall n :: n in sorted <==> n in items
    ensures forall i, j :: 0 <= i < j < |sorted| ==> sorted[i] < sorted[j]
  {
    assert |multiset(sorted)| == |multiset(items.Keys)|;
    assert forall n :: n in sorted <==> n in multiset(sorted);
    forall i, j | 0 <= i < j < |sorted| ensures sorted[i] < sorted[j] {
      assert !Heap.Less(NonceKey(sorted[j]), NonceKey(sorted[i]));
      NoRepeat(sorted, items.Keys, i, j);
    }
  }

  lemma NoRepeat(s: seq<nat>, keys: set<nat>, i: int, j: int)
    requires multiset(s) == multiset(keys) && 0 <= i < j < |s|
    ensures s[i] != s[j]
  {
    assert s == s[..j] + s[j..];
    assert s[i] in s[..j] && s[j] in s[j..];
    assert multiset(s) == multiset(s[..j]) + multiset(s[j..]);
    assert s[i] in multiset(s[..j]) && s[j] in multiset(s[j..]);
    assert multiset(keys)[s[j]] <= 1;
  }

  class SortedMap {
    var items: Items
    var index: seq<nat>
    var cache: Option<seq<Tx>>

    ghost predicate Valid()
      reads this
    {
      && KeyedByNonce(items)
      && IndexOf(index, items)
      && (cache.Some? ==> cache.value == Flatten(items))
    }

    constructor ()
      ensures Valid() && items == map[] && fresh(this)
    {
      items, index, cache := map[], [], None;
    }

    method Put(tx: Tx)
      requires Valid()
      modifies this
      ensures Valid() && items == old(items)[tx.nonce := tx]
    {
      if tx.nonce !in items {
        assert multiset(items[tx.nonce := tx].Keys) == multiset(items.Keys) + multiset{tx.nonce};
        index := Heap.Push(index, NonceKey, tx.nonce);
      } else {
        assert items[tx.nonce := tx].Keys == items.Keys;
      }
      items, cache := items[tx.nonce := tx], None;
    }

    /** Removes and returns, in nonce order, everything below the threshold. */
    method Forward(threshold: nat) returns (removed: seq<Tx>)
      requires Valid()
      modifies this
      ensures Valid()
      ensures items == AtLeast(old(items), threshold)
      ensures removed == Flatten(Below(old(items), threshold))
    {
      ghost var was := items;
      removed, index, items := PopBelow(index, items, threshold);
      if cache.Some? {
        FlattenSplit(was, threshold);
        cache := Some(cache.value[|removed|..]);
      }
    }

    /** Removes and returns, in any order, every transaction the test picks. */
    method Filter(pick: Tx -> bool) returns (removed: seq<Tx>)
      requires Valid()
      modifies this
      ensures Valid()
      ensures items == Rejected(old(items), pick)
      ensures multiset(removed) == multiset(Picked(old(items), pick, old(items).Keys))
    {
      ghost var was := items;
      removed, items := PickOut(items, pick);
      if |removed| > 0 {
        index := IndexKeys(items.Keys);
        index := Heap.Init(index, NonceKey);
        cache := None;
      } else {
        assert |multiset(removed)| == 0;
        NothingPicked(was, pick);
      }
    }

    /** Drops the highest nonces until no more than the threshold remain. */
    method Cap(threshold: nat) returns (drops: seq<Tx>)
      requires Valid()
      modifies this
      ensures Valid()
      ensures items == Below(old(items), CutOff(old(items), threshold))
      ensures drops == Reverse(Flatten(AtLeast(old(items), CutOff(old(items), threshold))))
    {
      FlattenSorted(items);
      if |items| <= threshold {
        assert items == Below(items, Top(items));
        assert AtLeast(items, Top(items)) == map[];
        ListingEmpty(map[], 0, Top(map[]));
        return [];
      }
      drops, index, items := CapContents(index, items, threshold);
      if cache.Some? {
        cache := Some(cache.value[..|cache.value| - |drops|]);
      }
    }

    /** Deletes one nonce and tells whether it was there. */
    method Remove(nonce: nat) returns (ok: bool)
      requires Valid()
      modifies this
      ensures Valid() && ok == (nonce in old(items)) && items == old(items) - {nonce}
    {
      IndexFacts(index, items);
      if nonce !in items {
        return false;
      }
      var i := 0;
      while index[i] != nonce
        invariant 0 <= i < |index| && nonce in index[i..]
        decreases |index| - i
      {
        i := i + 1;
      }
      index := Heap.TakeOut(index, NonceKey, i);
      TakenFromIndex(index, items, nonce);
      items, cache := items - {nonce}, None;
      return true;
    }

    /** Hands over the maximal run from the lowest nonce, provided that nonce does not exceed start. */
    method Ready(start: nat) returns (ready: seq<Tx>)
      requires Valid()
      modifies this
      ensures Valid()
      ensures items == AtLeast(old(items), ReadyEnd(old(items), start))
      ensures ready == Listing(old(items), 0, ReadyEnd(old(items), start))
      ensures ready != [] <==> old(items) != map[] && Least(old(items)) <= start
    {
      IndexFacts(index, items);
      if |index| == 0 || index[0] > start {
        return [];
      }
      ready, index, items := PopRun(index, items);
      cache := None;
    }

    /** Lists the contents in nonce order, keeping the listing for the next call. */
    method Flat() returns (txs: seq<Tx>)
      requires Valid()
      modifies this`cache
      ensures Valid() && txs == Flatten(items) && cache == Some(txs)
    {
      if cache.None? {
        var sorted := Heap.Sort(index, NonceKey);
        SortedIndex(sorted, items);
        FlattenByIndex(items, sorted, 0, Top(items));
        var contents := items;
        txs := seq(|sorted|, i requires 0 <= i < |sorted| => contents[sorted[i]]);
        assert txs == Flatten(items);
        cache := Some(txs);
      }
      return cache.value;
    }
  }

  lemma Cancel<T>(a: multiset<T>, b: multiset<T>, x: T)
    requires a + multiset{x} == b + multiset{x}
    ensures a == b
  {
    assert a == (a + multiset{x}) - multiset{x};
    assert b == (b + multiset{x}) - multiset{x};
  }

  lemma TakenFromIndex(index: seq<nat>, items: Items, nonce: nat)
    requires nonce in items
    requires multiset(index) + multiset{nonce} == multiset(items.Keys)
    ensures multiset(index) == multiset((items - {nonce}).Keys)
  {
    assert (items - {nonce}).Keys == items.Keys - {nonce};
    assert multiset(items.Keys - {nonce}) + multiset{nonce} == multiset(items.Keys);
    Cancel(multiset(index), multiset(items.Keys - {nonce}), nonce);
  }

  /** What popping the lowest nonce does to the index and to the part of the contents left. */
  lemma PopLeast(index: seq<nat>, items: Items, nonce: nat, was: Items, reached: nat)
    requires Heap.IsHeap(index, NonceKey) && multiset(index) + multiset{nonce} == multiset(items.Keys)
    requires items == AtLeast(was, reached) && items != map[] && nonce == Least(items)
    ensures IndexOf(index, items - {nonce})
    ensures reached <= nonce && items - {nonce} == AtLeast(was, nonce + 1)
    ensures Listing(was, 0, nonce + 1) == Listing(was, 0, reached) + [items[nonce]]
  {
    TakenFromIndex(index, items, nonce);
    assert reached <= nonce;
    forall n | reached <= n < nonce ensures n !in was {
      assert n in was ==> n in items;
    }
    ListingConcat(was, 0, reached, nonce);
    ListingEmpty(was, reached, nonce);
  }

  /** The loop of Forward. */
  method PopBelow(index: seq<nat>, items: Items, threshold: nat)
    returns (removed: seq<Tx>, restIndex: seq<nat>, rest: Items)
    requires KeyedByNonce(items) && IndexOf(index, items)
    ensures KeyedByNonce(rest) && IndexOf(restIndex, rest)
    ensures rest == AtLeast(items, threshold)
    ensures removed == Flatten(Below(items, threshold))
  {
    removed, restIndex, rest := [], index, items;
    ghost var reached := 0;
    IndexFacts(index, items);
    assert rest == AtLeast(items, reached);
    while |restIndex| > 0 && restIndex[0] < threshold
      invariant IndexOf(restIndex, rest)
      invariant 0 <= reached <= threshold
      invariant rest == AtLeast(items, reached)
      invariant removed == Listing(items, 0, reached)
      decreases |restIndex|
    {
      IndexFacts(restIndex, rest);
      var nonce;
      nonce, restIndex := Heap.Pop(restIndex, NonceKey);
      PopLeast(restIndex, rest, nonce, items, reached);
      removed := removed + [rest[nonce]];
      rest := rest - {nonce};
      reached := nonce + 1;
    }
    IndexFacts(restIndex, rest);
    NoneBetween(items, rest, reached, threshold);
    FlattenOfBelow(items, threshold);
  }

  lemma NoneBetween(items: Items, rest: Items, reached: nat, threshold: nat)
    requires reached <= threshold && rest == AtLeast(items, reached)
    requires rest == map[] || threshold <= Least(rest)
    ensures rest == AtLeast(items, threshold)
    ensures Listing(items, 0, threshold) == Listing(items, 0, reached)
  {
    forall n | reached <= n < threshold ensures n !in items {
      assert n in items ==> n in rest;
    }
    ListingConcat(items, 0, reached, threshold);
    ListingEmpty(items, reached, threshold);
  }

  /** The loop of Ready: pops the consecutive run that starts at the lowest nonce. */
  method PopRun(index: seq<nat>, items: Items)
    returns (ready: seq<Tx>, restIndex: seq<nat>, rest: Items)
    requires KeyedByNonce(items) && IndexOf(index, items) && index != []
    ensures KeyedByNonce(rest) && IndexOf(restIndex, rest)
    ensures items != map[] && ready != []
    ensures rest == AtLeast(items, Least(items) + RunLength(items, Least(items)))
    ensures ready == Listing(items, 0, Least(items) + RunLength(items, Least(items)))
  {
    IndexFacts(index, items);
    ready, restIndex, rest := [], index, items;
    var first := index[0];
    var next := first;
    ListingEmpty(items, 0, first);
    assert rest == AtLeast(items, next);
    while |restIndex| > 0 && restIndex[0] == next
      invariant IndexOf(restIndex, rest)
      invariant first <= next && (next == first ==> restIndex == index)
      invariant rest == AtLeast(items, next)
      invariant ready == Listing(items, 0, next) && (next > first ==> ready != [])
      invariant forall k :: first <= k < next ==> k in items
      decreases |restIndex|
    {
      IndexFacts(restIndex, rest);
      ready := ready + [rest[next]];
      var popped;
      popped, restIndex := Heap.Pop(restIndex, NonceKey);
      PopLeast(restIndex, rest, next, items, next);
      rest := rest - {next};
      next := next + 1;
    }
    IndexFacts(restIndex, rest);
    RunEnds(items, rest, next);
  }

  lemma RunEnds(items: Items, rest: Items, next: nat)
    requires items != map[] && Least(items) <= next && rest == AtLeast(items, next)
    requires rest == map[] || Least(rest) != next
    requires forall k :: Least(items) <= k < next ==> k in items
    ensures next == Least(items) + RunLength(items, Least(items))
  {
    assert next in items ==> next in rest;
  }

  ghost function Rejected(items: Items, pick: Tx -> bool): Items {
    map n | n in items && !pick(items[n]) :: items[n]
  }

  ghost function Picked(items: Items, pick: Tx -> bool, among: set<nat>): set<Tx> {
    set n | n in items && n in among && pick(items[n]) :: items[n]
  }

  /** The first loop of Filter, which visits the map in any order. */
  method PickOut(items: Items, pick: Tx -> bool) returns (removed: seq<Tx>, rest: Items)
    requires KeyedByNonce(items)
    ensures rest == Rejected(items, pick)
    ensures multiset(removed) == multiset(Picked(items, pick, items.Keys))
  {
    removed, rest := [], items;
    var todo := items.Keys;
    while todo != {}
      invariant todo <= items.Keys
      invariant forall n :: n in rest <==> n in items && (n in todo || !pick(items[n]))
      invariant forall n :: n in rest ==> rest[n] == items[n]
      invariant multiset(removed) == multiset(Picked(items, pick, items.Keys - todo))
      decreases todo
    {
      var nonce :| nonce in todo;
      PickedGrows(items, pick, items.Keys - todo, nonce);
      assert items.Keys - (todo - {nonce}) == (items.Keys - todo) + {nonce};
      todo := todo - {nonce};
      if pick(items[nonce]) {
        removed := removed + [items[nonce]];
        rest := rest - {nonce};
      }
    }
    assert items.Keys - todo == items.Keys;
  }

  lemma PickedGrows(items: Items, pick: Tx -> bool, among: set<nat>, n: nat)
    requires KeyedByNonce(items) && n in items && n !in among
    ensures items[n] !in Picked(items, pick, among)
    ensures Picked(items, pick, among + {n})
         == Picked(items, pick, among) + if pick(items[n]) then {items[n]} else {}
  {
  }

  lemma NothingPicked(items: Items, pick: Tx -> bool)
    requires multiset(Picked(items, pick, items.Keys)) == multiset{}
    ensures Rejected(items, pick) == items
  {
    forall n | n in items ensures !pick(items[n]) {
      assert items[n] !in multiset(Picked(items, pick, items.Keys));
    }
  }

  method IndexKeys(keys: set<nat>) returns (index: seq<nat>)
    ensures multiset(index) == multiset(keys)
  {
    index := [];
    var rest := keys;
    while rest != {}
      invariant rest <= keys && multiset(index) == multiset(keys - rest)
      decreases rest
    {
      var n :| n in rest;
      assert keys - (rest - {n}) == (keys - rest) + {n};
      index, rest := index + [n], rest - {n};
    }
    assert keys - rest == keys;
  }

  method CapContents(index: seq<nat>, items: Items, threshold: nat)
    returns (drops: seq<Tx>, restIndex: seq<nat>, rest: Items)
    requires KeyedByNonce(items) && IndexOf(index, items) && threshold < |items|
    ensures KeyedByNonce(rest) && IndexOf(restIndex, rest)
    ensures rest == Below(items, CutOff(items, threshold))
    ensures drops == Reverse(Flatten(AtLeast(items, CutOff(items, threshold))))
    ensures |drops| <= |Flatten(items)| && Flatten(items)[..|Flatten(items)| - |drops|] == Flatten(rest)
  {
    var sorted := Heap.Sort(index, NonceKey);
    SortedIndex(sorted, items);
    FlattenByIndex(items, sorted, 0, Top(items));
    CutOffSplits(items, threshold);
    assert sorted[threshold] in sorted;
    drops, rest := DropFrom(items, sorted, threshold);
    DropsReversed(items, sorted, threshold, drops);
    PrefixIndex(items, sorted, threshold);
    restIndex := Heap.Init(sorted[..threshold], NonceKey);
  }

  /** The loop of Cap, over the sorted index. */
  method DropFrom(items: Items, sorted: seq<nat>, threshold: nat) returns (drops: seq<Tx>, rest: Items)
    requires threshold < |sorted|
    requires forall i, j :: 0 <= i < j < |sorted| ==> sorted[i] < sorted[j]
    requires forall n :: n in sorted <==> n in items
    ensures rest == Below(items, sorted[threshold])
    ensures |drops| == |sorted| - threshold
    ensures forall i :: 0 <= i < |drops| ==> drops[i] == items[sorted[|sorted| - 1 - i]]
  {
    drops, rest := [], items;
    var size := |sorted|;
    while size > threshold
      invariant threshold <= size <= |sorted|
      invariant size == |sorted| ==> rest == items
      invariant size < |sorted| ==> rest == Below(items, sorted[size])
      invariant |drops| == |sorted| - size
      invariant forall i :: 0 <= i < |drops| ==> drops[i] == items[sorted[|sorted| - 1 - i]]
    {
      var n := sorted[size - 1];
      assert n in sorted;
      BelowStep(items, rest, sorted, size);
      drops := drops + [rest[n]];
      rest := rest - {n};
      size := size - 1;
    }
  }

  lemma BelowStep(items: Items, rest: Items, sorted: seq<nat>, size: nat)
    requires 0 < size <= |sorted|
    requires forall i, j :: 0 <= i < j < |sorted| ==> sorted[i] < sorted[j]
    requires forall n :: n in sorted <==> n in items
    requires rest == if size < |sorted| then Below(items, sorted[size]) else items
    ensures rest - {sorted[size - 1]} == Below(items, sorted[size - 1])
  {
    forall n | n in items ensures n in rest && n != sorted[size - 1] <==> n < sorted[size - 1] {
      var i :| 0 <= i < |sorted| && sorted[i] == n;
    }
  }

  lemma DropsReversed(items: Items, sorted: seq<nat>, threshold: nat, drops: seq<Tx>)
    requires threshold < |sorted| == |Flatten(items)| && |drops| == |sorted| - threshold
    requires forall n :: n in sorted <==> n in items
    requires forall i :: 0 <= i < |sorted| ==> Flatten(items)[i] == items[sorted[i]]
    requires forall i :: 0 <= i < |drops| ==> drops[i] == items[sorted[|sorted| - 1 - i]]
    ensures drops == Reverse(Flatten(items)[threshold..])
  {
    ReverseElements(Flatten(items)[threshold..]);
  }

  lemma PrefixIndex(items: Items, sorted: seq<nat>, k: nat)
    requires k < |sorted|
    requires forall i, j :: 0 <= i < j < |sorted| ==> sorted[i] < sorted[j]
    requires forall n :: n in sorted <==> n in items
    ensures multiset(sorted[..k]) == multiset(Below(items, sorted[k]).Keys)
  {
    forall n ensures n in sorted[..k] <==> n in Below(items, sorted[k]) {
      if n in Below(items, sorted[k]) {
        var i :| 0 <= i < |sorted| && sorted[i] == n;
        assert sorted[..k][i] == n;
      }
    }
    AscendingIsSet(sorted[..k], Below(items, sorted[k]).Keys);
  }

  lemma {:induction false} AscendingIsSet(s: seq<nat>, keys: set<nat>)
    requires forall i, j :: 0 <= i < j < |s| ==> s[i] < s[j]
    requires forall n :: n in s <==> n in keys
    ensures multiset(s) == multiset(keys)
  {
    if s == [] {
      assert keys == {};
    } else {
      var last := s[|s| - 1];
      assert last in s;
      AscendingLast(s, last);
      var short := s[..|s| - 1];
      assert s == short + [last];
      AscendingIsSet(short, keys - {last});
      assert keys == (keys - {last}) + {last};
    }
  }
}
