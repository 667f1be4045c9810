/** Counting the transactions of all accounts, and how a cap on single accounts changes the count. */
module PoolTotals {
  import opened Types
  import opened TxLists
  import opened PoolBooks
  import Heap

  function Len(m: Lists, a: Address): nat {
    if a in m then |m[a].items| else 0
  }

  /** The number of transactions the given accounts hold. */
  ghost function TotalOf(m: Lists, who: set<Address>): nat {
    if who == {} then 0 else
    var a :| a in who;
    Len(m, a) + TotalOf(m, who - {a})
  }

  ghost function Total(m: Lists): nat {
    TotalOf(m, m.Keys)
  }

  lemma {:induction false} TotalSplit(m: Lists, who: set<Address>, a: Address)
    requires a in who
    ensures TotalOf(m, who) == Len(m, a) + TotalOf(m, who - {a})
    decreases |who|
  {
    var b :| b in who && TotalOf(m, who) == Len(m, b) + TotalOf(m, who - {b});
    if a != b {
      TotalSplit(m, who - {b}, a);
      TotalSplit(m, who - {a}, b);
      assert who - {b} - {a} == who - {a} - {b};
    }
  }

  lemma {:induction false} TotalAgrees(m: Lists, r: Lists, who: set<Address>)
    requires forall a :: a in who ==> Len(m, a) == Len(r, a)
    ensures TotalOf(m, who) == TotalOf(r, who)
    decreases |who|
  {
    if who != {} {
      var a :| a in who;
      TotalSplit(m, who, a);
      TotalSplit(r, who, a);
      TotalAgrees(m, r, who - {a});
    }
  }

  /** Changing one account's list changes the total by the difference of its lengths. */
  lemma TotalUpdate(m: Lists, a: Address, l: List)
    ensures Total(m[a := l]) == Total(m) - Len(m, a) + |l.items|
  {
    var r := m[a := l];
    TotalSplit(r, r.Keys, a);
    TotalAgrees(m, r, m.Keys - {a});
    assert r.Keys - {a} == m.Keys - {a};
    if a in m {
      TotalSplit(m, m.Keys, a);
    } else {
      assert m.Keys - {a} == m.Keys;
    }
  }

  lemma TotalDelete(m: Lists, a: Address)
    requires a in m
    ensures Total(m - {a}) == Total(m) - |m[a].items|
  {
    TotalSplit(m, m.Keys, a);
    assert (m - {a}).Keys == m.Keys - {a};
    TotalAgrees(m, m - {a}, m.Keys - {a});
  }

  /** No account has more transactions than before. */
  ghost predicate NoLonger(was: Lists, now: Lists) {
    forall a {:trigger Len(now, a)} :: Len(now, a) <= Len(was, a)
  }

  lemma NoLongerTotal(was: Lists, now: Lists)
    requires NoLonger(was, now)
    ensures Total(now) <= Total(was)
  {
    var who := was.Keys + now.Keys;
    TotalAtMost(was, now, who);
    TotalPadded(was, who);
    TotalPadded(now, who);
  }

  lemma {:induction false} TotalAtMost(was: Lists, now: Lists, who: set<Address>)
    requires NoLonger(was, now)
    ensures TotalOf(now, who) <= TotalOf(was, who)
    decreases |who|
  {
    if who != {} {
      var a :| a in who;
      TotalSplit(was, who, a);
      TotalSplit(now, who, a);
      TotalAtMost(was, now, who - {a});
    }
  }

  /** Accounts without a list add nothing. */
  lemma {:induction false} TotalPadded(m: Lists, who: set<Address>)
    requires m.Keys <= who
    ensures TotalOf(m, who) == Total(m)
    decreases |who|
  {
    if a :| a in who && a !in m {
      TotalSplit(m, who, a);
      TotalPadded(m, who - {a});
    } else {
      assert who == m.Keys;
    }
  }

  /** The limit on pending transactions, which binds remote accounts above their allowance only. */
  ghost predicate PendingWithin(pending: Lists, locals: set<Address>, slots: nat, allowance: nat) {
    Total(pending) <= slots || forall a :: a in pending && a !in locals ==> Len(pending, a) <= allowance
  }

  /** The limit on queued transactions, which binds remote accounts only. */
  ghost predicate QueueWithin(queue: Lists, locals: set<Address>, limit: nat) {
    Total(queue) <= limit || forall a :: a in queue && a !in locals ==> Len(queue, a) == 0
  }

  /** Losing transactions, or more accounts being local, exceeds no limit. */
  lemma StillWithin(was: Lists, now: Lists, locals: set<Address>, more: set<Address>, limit: nat, allowance: nat)
    requires NoLonger(was, now) && locals <= more
    ensures PendingWithin(was, locals, limit, allowance) ==> PendingWithin(now, more, limit, allowance)
    ensures QueueWithin(was, locals, limit) ==> QueueWithin(now, more, limit)
  {
    NoLongerTotal(was, now);
    assert forall a :: a !in was ==> Len(was, a) == 0;
  }

  /** The counting loops of the source. */
  method Count(m: Lists) returns (n: nat)
    ensures n == Total(m)
  {
    n := 0;
    var todo := m.Keys;
    while todo != {}
      invariant todo <= m.Keys && n + TotalOf(m, todo) == Total(m)
      decreases todo
    {
      var a :| a in todo;
      TotalSplit(m, todo, a);
      n, todo := n + |m[a].items|, todo - {a};
    }
  }

  /** Every listed account has the same number of transactions. */
  ghost predicate Level(m: Lists, who: seq<Address>, len: nat) {
    forall i :: 0 <= i < |who| ==> Len(m, who[i]) == len
  }

  ghost predicate Distinct(who: seq<Address>) {
    forall i, j :: 0 <= i < j < |who| ==> who[i] != who[j]
  }

  /** Outside the given accounts nothing changed, and nobody gained a transaction. */
  ghost predicate CutOnly(was: Lists, now: Lists, who: seq<Address>) {
    && was.Keys == now.Keys
    && (forall a :: a in was && a !in who ==> now[a] == was[a])
    && forall a :: a in was ==> |now[a].items| <= |was[a].items|
  }

  datatype Spammer = Spammer(who: Address, len: nat)

  /** Longest list first. */
  function SpamKey(s: Spammer): Heap.Key {
    Heap.Key(0 - s.len, 0)
  }

  /** The remote accounts above their allowance that have not been singled out yet. */
  function Suspects(m: Lists, locals: set<Address>, slots: nat, done: seq<Address>): set<Spammer> {
    set a | a in m && a !in locals && a !in done && |m[a].items| > slots :: Spammer(a, |m[a].items|)
  }

  method ListSpammers(m: Lists, locals: set<Address>, slots: nat) returns (heap: seq<Spammer>)
    ensures Heap.IsHeap(heap, SpamKey)
    ensures multiset(heap) == multiset(Suspects(m, locals, slots, []))
  {
    heap := [];
    var todo := m.Keys;
    while todo != {}
      invariant todo <= m.Keys && Heap.IsHeap(heap, SpamKey)
      invariant multiset(heap) == multiset(set a | a in m && a !in todo && a !in locals && |m[a].items| > slots ::
                                           Spammer(a, |m[a].items|))
      decreases todo
    {
      var a :| a in todo;
      ghost var seen :=
        set x | x in m && x !in todo && x !in locals && |m[x].items| > slots :: Spammer(x, |m[x].items|);
      todo := todo - {a};
      ghost var now := set x | x in m && x !in todo && x !in locals && |m[x].items| > slots :: Spammer(x, |m[x].items|);
      if a !in locals && |m[a].items| > slots {
        assert now == seen + {Spammer(a, |m[a].items|)} && Spammer(a, |m[a].items|) !in seen;
        heap := Heap.Push(heap, SpamKey, Spammer(a, |m[a].items|));
      } else {
        assert now == seen;
      }
    }
    assert Suspects(m, locals, slots, []) ==
      set a | a in m && a !in todo && a !in locals && |m[a].items| > slots :: Spammer(a, |m[a].items|);
  }

  /** Popping the spammer queue yields a remote account that none left in the queue exceeds. */
  method PopSpammer(heap: seq<Spammer>, ghost m: Lists, ghost locals: set<Address>, ghost slots: nat,
                    ghost done: seq<Address>)
    returns (who: Address, rest: seq<Spammer>)
    requires Heap.IsHeap(heap, SpamKey) && heap != []
    requires multiset(heap) == multiset(Suspects(m, locals, slots, done))
    ensures Heap.IsHeap(rest, SpamKey) && |rest| < |heap|
    ensures multiset(rest) == multiset(Suspects(m, locals, slots, done + [who]))
    ensures who in m && who !in locals && who !in done && |m[who].items| > slots
    ensures forall a :: a in m && a !in locals && a !in done && |m[a].items| > slots ==> |m[a].items| <= |m[who].items|
  {
    var s;
    s, rest := Heap.Pop(heap, SpamKey);
    who := s.who;
    ghost var before, after := Suspects(m, locals, slots, done), Suspects(m, locals, slots, done + [who]);
    assert s in multiset(heap) && s in before;
    assert after == before - {s};
    assert before == after + {s};
    assert multiset(before) == multiset(after) + multiset{s};
    assert multiset(rest) == (multiset(rest) + multiset{s}) - multiset{s};
    assert multiset(after) == (multiset(after) + multiset{s}) - multiset{s};
    forall a | a in m && a !in locals && a !in done && |m[a].items| > slots ensures |m[a].items| <= |m[who].items| {
      assert Spammer(a, |m[a].items|) in before;
      assert Spammer(a, |m[a].items|) in multiset(heap);
      assert Spammer(a, |m[a].items|) in heap;
      assert !Heap.Less(SpamKey(Spammer(a, |m[a].items|)), SpamKey(s));
    }
  }

  lemma NoSuspects(m: Lists, locals: set<Address>, slots: nat, done: seq<Address>)
    requires Suspects(m, locals, slots, done) == {}
    ensures forall a :: a in m && a !in locals && a !in done ==> |m[a].items| <= slots
  {
    forall a | a in m && a !in locals && a !in done ensures |m[a].items| <= slots {
      assert Spammer(a, |m[a].items|) !in Suspects(m, locals, slots, done);
    }
  }
}
