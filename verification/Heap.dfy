/**
 Binary heaps as the Go library package container/heap keeps them in a slice, and a
 sort built on them.  The transaction lists, the price index and the spammer queue of the
 pool all keep their order through these operations.
 */
module Heap {

  /** Sort keys are compared lexicographically, which covers every Less method of the pool. */
  datatype Key = Key(major: int, minor: int)

  predicate Less(a: Key, b: Key) {
    a.major < b.major || (a.major == b.major && a.minor < b.minor)
  }

  function Parent(k: int): (p: int)
    requires 0 < k
    ensures 0 <= p < k
  {
    (k - 1) / 2
  }

  /** The element at k is no smaller than the one at its parent slot. */
  predicate Ordered<T>(h: seq<T>, key: T -> Key, k: int)
    requires 0 <= k < |h|
  {
    k == 0 || !Less(key(h[k]), key(h[Parent(k)]))
  }

  ghost predicate IsHeap<T>(h: seq<T>, key: T -> Key) {
    forall k :: 0 <= k < |h| ==> Ordered(h, key, k)
  }

  /** Nothing in the heap is smaller than its first element. */
  lemma {:induction false} RootIsLeast<T>(h: seq<T>, key: T -> Key, k: int)
    requires IsHeap(h, key)
    requires 0 <= k < |h|
    ensures !Less(key(h[k]), key(h[0]))
    decreases k
  {
    if k > 0 {
      assert Ordered(h, key, k);
      RootIsLeast(h, key, Parent(k));
    }
  }

  lemma RootIsLeastOfAll<T>(h: seq<T>, key: T -> Key)
    requires IsHeap(h, key) && h != []
    ensures forall x :: x in h ==> !Less(key(x), key(h[0]))
  {
    forall x | x in h ensures !Less(key(x), key(h[0])) {
      var k :| 0 <= k < |h| && h[k] == x;
      RootIsLeast(h, key, k);
    }
  }

  function Swap<T>(h: seq<T>, i: int, j: int): (r: seq<T>)
    requires 0 <= i < |h| && 0 <= j < |h|
    ensures |r| == |h| && multiset(r) == multiset(h)
  {
    h[i := h[j]][j := h[i]]
  }

  /** Every slot is in order except possibly k; k's children are in order with k's parent. */
  ghost predicate HeapButUp<T>(h: seq<T>, key: T -> Key, n: int, k: int) {
    0 <= k < n <= |h| &&
    (forall c :: 0 <= c < n && c != k ==> Ordered(h, key, c)) &&
    (k > 0 ==> forall c :: 0 < c < n && Parent(c) == k ==> !Less(key(h[c]), key(h[Parent(k)])))
  }

  /** Every slot is in order except possibly the children of k; those are in order with k's parent. */
  ghost predicate HeapButDown<T>(h: seq<T>, key: T -> Key, n: int, from: int, k: int) {
    0 <= from <= k <= n <= |h| &&
    (forall c :: 0 < c < n && Parent(c) != k && from <= Parent(c) ==> Ordered(h, key, c)) &&
    (k > from && k < n ==>
       && from <= Parent(k)
       && forall c :: 0 < c < n && Parent(c) == k ==> !Less(key(h[c]), key(h[Parent(k)])))
  }

  method Up<T>(h: seq<T>, key: T -> Key, j: nat) returns (r: seq<T>)
    requires HeapButUp(h, key, |h|, j)
    ensures |r| == |h| && multiset(r) == multiset(h)
    ensures IsHeap(r, key)
  {
    r := h;
    var k := j;
    while k > 0 && Less(key(r[k]), key(r[Parent(k)]))
      invariant |r| == |h| && multiset(r) == multiset(h)
      invariant HeapButUp(r, key, |r|, k)
      decreases k
    {
      r := UpStep(r, key, k);
      k := Parent(k);
    }
  }

  method UpStep<T>(h: seq<T>, key: T -> Key, k: int) returns (r: seq<T>)
    requires HeapButUp(h, key, |h|, k) && k > 0
    requires Less(key(h[k]), key(h[Parent(k)]))
    ensures r == Swap(h, Parent(k), k)
    ensures HeapButUp(r, key, |h|, Parent(k))
  {
    var p := Parent(k);
    r := Swap(h, p, k);
    forall c | 0 <= c < |h| && c != p ensures Ordered(r, key, c) {
      if c != k && c > 0 {
        assert Ordered(h, key, c);
      }
    }
    if p > 0 {
      assert Ordered(h, key, p);
      forall c | 0 < c < |h| && Parent(c) == p ensures !Less(key(r[c]), key(r[Parent(p)])) {
        if c != k { assert Ordered(h, key, c); }
      }
    }
  }

  /** Slots that sifting down from `from` cannot reach, `from` itself excepted. */
  predicate OutOfReach(from: nat, n: nat, c: int) {
    c != from && (c <= 0 || n <= c || Parent(c) < from)
  }

  ghost predicate CameFromBelow<T>(h: seq<T>, n: nat, from: nat, x: T)
    requires n <= |h|
  {
    exists c :: 0 < c < n && Parent(c) == from && h[c] == x
  }

  /** Sifts the element at `from` down within the first n slots. */
  method Down<T>(h: seq<T>, key: T -> Key, from: nat, n: nat) returns (r: seq<T>)
    requires from < n <= |h|
    requires forall c :: 0 < c < n && from < Parent(c) ==> Ordered(h, key, c)
    ensures |r| == |h| && multiset(r) == multiset(h)
    ensures forall c :: 0 < c < n && from <= Parent(c) ==> Ordered(r, key, c)
    ensures forall c :: 0 <= c < |h| && OutOfReach(from, n, c) ==> r[c] == h[c]
    ensures r[from] == h[from] || CameFromBelow(h, n, from, r[from])
  {
    r := h;
    var i := from;
    while 2 * i + 1 < n
      invariant |r| == |h| && multiset(r) == multiset(h)
      invariant HeapButDown(r, key, n, from, i)
      invariant forall c :: 0 <= c < |h| && OutOfReach(from, n, c) ==> r[c] == h[c]
      invariant if i == from then r == h else CameFromBelow(h, n, from, r[from])
      decreases n - i
    {
      var j := SmallerChild(r, key, i, n);
      if !Less(key(r[j]), key(r[i])) {
        InPlace(r, key, n, from, i, j);
        return;
      }
      assert i == from ==> CameFromBelow(h, n, from, r[j]);
      r := DownStep(r, key, n, from, i, j);
      i := j;
    }
  }

  method SmallerChild<T>(h: seq<T>, key: T -> Key, i: nat, n: nat) returns (j: nat)
    requires 2 * i + 1 < n <= |h|
    ensures i < j < n && Parent(j) == i
    ensures forall c :: 0 < c < n && Parent(c) == i ==> !Less(key(h[c]), key(h[j]))
  {
    j := 2 * i + 1;
    if j + 1 < n && Less(key(h[j + 1]), key(h[j])) { j := j + 1; }
    assert forall c :: 0 < c < n && Parent(c) == i ==> c == 2 * i + 1 || c == 2 * i + 2;
  }

  lemma InPlace<T>(h: seq<T>, key: T -> Key, n: nat, from: nat, i: nat, j: nat)
    requires HeapButDown(h, key, n, from, i) && i < j < n && Parent(j) == i && !Less(key(h[j]), key(h[i]))
    requires forall c :: 0 < c < n && Parent(c) == i ==> !Less(key(h[c]), key(h[j]))
    ensures forall c :: 0 < c < n && from <= Parent(c) ==> Ordered(h, key, c)
  {
  }

  method DownStep<T>(h: seq<T>, key: T -> Key, n: nat, from: nat, i: int, j: int) returns (r: seq<T>)
    requires HeapButDown(h, key, n, from, i) && 0 < j < n && Parent(j) == i
    requires Less(key(h[j]), key(h[i]))
    requires forall c :: 0 < c < n && Parent(c) == i ==> !Less(key(h[c]), key(h[j]))
    ensures r == Swap(h, i, j)
    ensures HeapButDown(r, key, n, from, j)
    ensures forall c :: 0 <= c < |h| && OutOfReach(from, n, c) ==> r[c] == h[c]
    ensures r[from] == if i == from then h[j] else h[from]
  {
    r := Swap(h, i, j);
    forall c | 0 < c < n && Parent(c) != j && from <= Parent(c) ensures Ordered(r, key, c) {
      if Parent(c) != i {
        assert Ordered(h, key, c);
      }
    }
    forall c | 0 < c < n && Parent(c) == j ensures !Less(key(r[c]), key(r[Parent(j)])) {
      assert Ordered(h, key, c);
    }
  }

  method Init<T>(h: seq<T>, key: T -> Key) returns (r: seq<T>)
    ensures IsHeap(r, key) && multiset(r) == multiset(h)
  {
    r := h;
    var i := |h| / 2;
    while i > 0
      invariant 0 <= i <= |h| / 2 && |r| == |h| && multiset(r) == multiset(h)
      invariant forall c :: 0 < c < |r| && i <= Parent(c) ==> Ordered(r, key, c)
    {
      i := i - 1;
      r := Down(r, key, i, |r|);
    }
  }

  method Push<T>(h: seq<T>, key: T -> Key, x: T) returns (r: seq<T>)
    requires IsHeap(h, key)
    ensures IsHeap(r, key) && multiset(r) == multiset(h) + multiset{x}
  {
    var e := h + [x];
    forall c | 0 <= c < |h| ensures Ordered(e, key, c) {
      assert Ordered(h, key, c);
    }
    r := Up(e, key, |h|);
  }

  method Pop<T>(h: seq<T>, key: T -> Key) returns (x: T, r: seq<T>)
    requires IsHeap(h, key) && h != []
    ensures x == h[0] && IsHeap(r, key)
    ensures multiset(r) + multiset{x} == multiset(h)
    ensures |r| == |h| - 1
    ensures forall y :: y in h ==> !Less(key(y), key(x))
  {
    RootIsLeastOfAll(h, key);
    r := TakeOut(h, key, 0);
    x := h[0];
  }

  /**
   heap.Remove: the last element takes the place of the one removed and is then sifted
   in whichever direction it is out of order.
   */
  method TakeOut<T>(h: seq<T>, key: T -> Key, i: nat) returns (r: seq<T>)
    requires IsHeap(h, key) && i < |h|
    ensures IsHeap(r, key)
    ensures multiset(r) + multiset{h[i]} == multiset(h) && |r| == |h| - 1
  {
    var n := |h| - 1;
    var s := Swap(h, i, n)[..n];
    assert Swap(h, i, n) == s + [h[i]];
    if i == n {
      forall c | 0 <= c < n ensures Ordered(s, key, c) { assert Ordered(h, key, c); }
      r := s;
    } else if i > 0 && Less(key(s[i]), key(s[Parent(i)])) {
      ReadyForUp(h, s, key, i);
      r := Up(s, key, i);
    } else {
      forall c | 0 < c < n && i < Parent(c) ensures Ordered(s, key, c) { assert Ordered(h, key, c); }
      r := Down(s, key, i, n);
      AfterDown(h, s, r, key, i);
    }
  }

  lemma ReadyForUp<T>(h: seq<T>, s: seq<T>, key: T -> Key, i: nat)
    requires IsHeap(h, key) && 0 < i < |h| - 1 && s == h[i := h[|h| - 1]][..|h| - 1]
    requires Less(key(s[i]), key(s[Parent(i)]))
    ensures HeapButUp(s, key, |s|, i)
  {
    assert Ordered(h, key, i);
    forall c | 0 <= c < |s| && c != i ensures Ordered(s, key, c) {
      assert Ordered(h, key, c);
    }
    forall c | 0 < c < |s| && Parent(c) == i ensures !Less(key(s[c]), key(s[Parent(i)])) {
      assert Ordered(h, key, c);
    }
  }

  lemma AfterDown<T>(h: seq<T>, s: seq<T>, d: seq<T>, key: T -> Key, i: nat)
    requires IsHeap(h, key) && 0 <= i < |h| - 1 && s == h[i := h[|h| - 1]][..|h| - 1]
    requires i > 0 ==> !Less(key(s[i]), key(s[Parent(i)]))
    requires |d| == |s|
    requires forall c :: 0 < c < |s| && i <= Parent(c) ==> Ordered(d, key, c)
    requires forall c :: 0 <= c < |s| && OutOfReach(i, |s|, c) ==> d[c] == s[c]
    requires d[i] == s[i] || CameFromBelow(s, |s|, i, d[i])
    ensures IsHeap(d, key)
  {
    assert Ordered(h, key, i);
    forall c | 0 <= c < |d| ensures Ordered(d, key, c) {
      assert Ordered(h, key, c);
      if c == i && i > 0 && d[i] != s[i] {
        var b :| 0 < b < |s| && Parent(b) == i && s[b] == d[i];
        assert Ordered(h, key, b);
        assert OutOfReach(i, |s|, Parent(i));
      } else if 0 < c && Parent(c) < i {
        assert OutOfReach(i, |s|, Parent(c));
        assert c != i ==> OutOfReach(i, |s|, c);
      }
    }
  }

  /** sort.Sort, whose result is all that matters here, by popping a heap empty. */
  method Sort<T>(s: seq<T>, key: T -> Key) returns (r: seq<T>)
    ensures multiset(r) == multiset(s)
    ensures Sorted(r, key)
  {
    var h := Init(s, key);
    r := [];
    while h != []
      invariant IsHeap(h, key) && multiset(r) + multiset(h) == multiset(s)
      invariant Sorted(r, key)
      invariant forall x, y :: x in r && y in h ==> !Less(key(y), key(x))
      decreases |h|
    {
      var x, rest := Pop(h, key);
      forall y | y in rest ensures y in h {
        assert y in multiset(rest) && y in multiset(h);
      }
      r, h := r + [x], rest;
    }
    assert multiset(h) == multiset{};
  }

  ghost predicate Sorted<T>(s: seq<T>, key: T -> Key) {
    forall i, j :: 0 <= i < j < |s| ==> !Less(key(s[j]), key(s[i]))
  }
}
