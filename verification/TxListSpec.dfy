/**
 The contents of a nonce-sorted transaction list, as values: what every operation of
 txSortedMap and txList (core/tx_list.go) means on the nonce -> transaction map alone.
 */
module TxListSpec {
  import opened Types

  type Items = map<nat, Tx>

  ghost predicate KeyedByNonce(items: Items) {
    forall n :: n in items ==> items[n].nonce == n
  }

  lemma {:induction false} LeastExists(s: set<nat>)
    requires s != {}
    ensures exists m :: m in s && forall k :: k in s ==> m <= k
  {
    var x :| x in s;
    if s != {x} {
      var rest := s - {x};
      LeastExists(rest);
      var m :| m in rest && forall k :: k in rest ==> m <= k;
      var least := if m < x then m else x;
      assert forall k :: k in s ==> k == x || k in rest;
      assert least in s && forall k :: k in s ==> least <= k;
    }
  }

  lemma {:induction false} TopExists(s: set<nat>)
    ensures exists t: nat :: IsTop(s, t)
  {
    if s == {} {
      assert IsTop(s, 0);
    } else {
      var x :| x in s;
      TopExists(s - {x});
      var t: nat :| IsTop(s - {x}, t);
      assert forall k :: k in s ==> k == x || k in s - {x};
      assert IsTop(s, if t <= x then x + 1 else t);
    }
  }

  predicate IsTop(s: set<nat>, t: nat) {
    (forall k :: k in s ==> k < t) && (t == 0 || t - 1 in s)
  }

  function Least(items: Items): (m: nat)
    requires items != map[]
    ensures m in items && forall k :: k in items ==> m <= k
  {
    LeastExists(items.Keys);
    var m :| m in items.Keys && forall k :: k in items.Keys ==> m <= k;
    m
  }

  /** One above the highest nonce, zero if there is none. */
  function Top(items: Items): (t: nat)
    ensures IsTop(items.Keys, t)
  {
    TopExists(items.Keys);
    var t: nat :| IsTop(items.Keys, t);
    t
  }

  function Below(items: Items, threshold: nat): Items {
    map n | n in items && n < threshold :: items[n]
  }

  function AtLeast(items: Items, threshold: nat): Items {
    map n | n in items && threshold <= n :: items[n]
  }

  /** The transactions with nonces from lo up to but not including hi, in nonce order. */
  function Listing(items: Items, lo: nat, hi: nat): seq<Tx>
    decreases hi
  {
    if hi <= lo then []
    else Listing(items, lo, hi - 1) + (if hi - 1 in items then [items[hi - 1]] else [])
  }

  /** All transactions in nonce order. */
  function Flatten(items: Items): seq<Tx> {
    Listing(items, 0, Top(items))
  }

  /** How many consecutive nonces from n on are taken. */
  function RunLength(items: Items, n: nat): (len: nat)
    ensures forall k :: n <= k < n + len ==> k in items
    ensures n + len !in items
    decreases Top(items) - n
  {
    if n !in items then 0 else 1 + RunLength(items, n + 1)
  }

  /** The nonce from which Ready leaves the contents alone, given where it starts handing over. */
  function ReadyEnd(items: Items, start: nat): nat {
    if items == map[] || start < Least(items) then 0
    else Least(items) + RunLength(items, Least(items))
  }

  /** The nonce at which a limit of k entries cuts the contents off. */
  function CutOff(items: Items, k: nat): (c: nat) {
    if k < |Flatten(items)| then Flatten(items)[k].nonce else Top(items)
  }

  function Reverse(s: seq<Tx>): (r: seq<Tx>) {
    if s == [] then [] else [s[|s| - 1]] + Reverse(s[..|s| - 1])
  }

  // ---- Laws of these operations ----

  lemma {:induction false} ListingConcat(items: Items, lo: nat, mid: nat, hi: nat)
    requires lo <= mid <= hi
    ensures Listing(items, lo, hi) == Listing(items, lo, mid) + Listing(items, mid, hi)
    decreases hi
  {
    if mid < hi { ListingConcat(items, lo, mid, hi - 1); }
  }

  /** Only the entries inside the range matter. */
  lemma {:induction false} ListingAgrees(a: Items, b: Items, lo: nat, hi: nat)
    requires forall n :: lo <= n < hi ==> (n in a <==> n in b) && (n in a ==> a[n] == b[n])
    ensures Listing(a, lo, hi) == Listing(b, lo, hi)
    decreases hi
  {
    if lo < hi { ListingAgrees(a, b, lo, hi - 1); }
  }

  lemma {:induction false} ListingEmpty(items: Items, lo: nat, hi: nat)
    requires forall n :: lo <= n < hi ==> n !in items
    ensures Listing(items, lo, hi) == []
    decreases hi
  {
    if lo < hi { ListingEmpty(items, lo, hi - 1); }
  }

  /** A range listing holds exactly the entries of the range, by strictly ascending nonce. */
  lemma {:induction false} ListingSorted(items: Items, lo: nat, hi: nat)
    requires KeyedByNonce(items)
    ensures forall i, j :: 0 <= i < j < |Listing(items, lo, hi)| ==>
              Listing(items, lo, hi)[i].nonce < Listing(items, lo, hi)[j].nonce
    ensures forall tx :: tx in Listing(items, lo, hi) <==>
              lo <= tx.nonce < hi && tx.nonce in items && items[tx.nonce] == tx
    decreases hi
  {
    if lo < hi {
      ListingSorted(items, lo, hi - 1);
      var l := Listing(items, lo, hi - 1);
      assert forall i :: 0 <= i < |l| ==> l[i] in l;
      if hi - 1 in items {
        assert forall tx :: tx in Listing(items, lo, hi) <==> tx in l || tx == items[hi - 1];
      }
    }
  }

  lemma {:induction false} ListingLength(items: Items, hi: nat)
    ensures |Listing(items, 0, hi)| == |Below(items, hi)|
    decreases hi
  {
    if hi == 0 {
      assert Below(items, hi).Keys == {};
    } else {
      ListingLength(items, hi - 1);
      var low := Below(items, hi - 1).Keys;
      assert Below(items, hi).Keys == if hi - 1 in items then low + {hi - 1} else low;
    }
  }

  /** Flatten lists exactly the contents, each once, by strictly ascending nonce. */
  lemma FlattenSorted(items: Items)
    requires KeyedByNonce(items)
    ensures |Flatten(items)| == |items|
    ensures forall i, j :: 0 <= i < j < |Flatten(items)| ==> Flatten(items)[i].nonce < Flatten(items)[j].nonce
    ensures forall tx :: tx in Flatten(items) <==> tx.nonce in items && items[tx.nonce] == tx
  {
    ListingSorted(items, 0, Top(items));
    ListingLength(items, Top(items));
    assert Below(items, Top(items)) == items;
  }

  /** Any bound above all nonces gives the same listing. */
  lemma FlattenUpTo(items: Items, hi: nat)
    requires forall n :: n in items ==> n < hi
    ensures Listing(items, 0, hi) == Flatten(items)
  {
    ListingConcat(items, 0, Top(items), hi);
    ListingEmpty(items, Top(items), hi);
  }

  lemma FlattenOfBelow(items: Items, threshold: nat)
    ensures Flatten(Below(items, threshold)) == Listing(items, 0, threshold)
  {
    var low := Below(items, threshold);
    FlattenUpTo(low, threshold);
    ListingAgrees(items, low, 0, threshold);
  }

  lemma FlattenOfAtLeast(items: Items, threshold: nat, hi: nat)
    requires threshold <= hi && forall n :: n in items ==> n < hi
    ensures Flatten(AtLeast(items, threshold)) == Listing(items, threshold, hi)
  {
    var high := AtLeast(items, threshold);
    FlattenUpTo(high, hi);
    ListingConcat(high, 0, threshold, hi);
    ListingEmpty(high, 0, threshold);
    ListingAgrees(items, high, threshold, hi);
  }

  /** Splitting the contents at a nonce splits the listing. */
  lemma FlattenSplit(items: Items, threshold: nat)
    ensures Flatten(items) == Flatten(Below(items, threshold)) + Flatten(AtLeast(items, threshold))
  {
    var hi := if Top(items) < threshold then threshold else Top(items);
    FlattenUpTo(items, hi);
    ListingConcat(items, 0, threshold, hi);
    FlattenOfBelow(items, threshold);
    FlattenOfAtLeast(items, threshold, hi);
  }

  /** A limit of k keeps the first k of the listing and drops the rest. */
  lemma CutOffSplits(items: Items, k: nat)
    requires KeyedByNonce(items) && k <= |items|
    ensures |Flatten(items)| == |items|
    ensures Flatten(Below(items, CutOff(items, k))) == Flatten(items)[..k]
    ensures Flatten(AtLeast(items, CutOff(items, k))) == Flatten(items)[k..]
  {
    FlattenSorted(items);
    var c := CutOff(items, k);
    FlattenSplit(items, c);
    var low, high := Below(items, c), AtLeast(items, c);
    FlattenSorted(low);
    FlattenSorted(high);
    SplitPoint(Flatten(items), Flatten(low), Flatten(high), c, k);
  }

  lemma SplitPoint(all: seq<Tx>, low: seq<Tx>, high: seq<Tx>, c: nat, k: nat)
    requires all == low + high && k <= |all|
    requires forall i, j :: 0 <= i < j < |all| ==> all[i].nonce < all[j].nonce
    requires forall tx :: tx in low ==> tx.nonce < c
    requires forall tx :: tx in high ==> c <= tx.nonce
    requires if k < |all| then all[k].nonce == c else forall tx :: tx in all ==> tx.nonce < c
    ensures |low| == k && low == all[..k] && high == all[k..]
  {
    assert forall i :: 0 <= i < |low| ==> all[i] == low[i] && all[i] in low;
    assert forall i :: |low| <= i < |all| ==> all[i] == high[i - |low|] && all[i] in high && all[i] in all;
    assert |low| < |all| ==> c <= all[|low|].nonce;
  }

  lemma EmptyOrHead<T>(s: seq<T>)
    ensures s == [] || s[0] in s
  {
  }

  lemma AscendingLast(index: seq<nat>, top: nat)
    requires forall i, j :: 0 <= i < j < |index| ==> index[i] < index[j]
    requires top in index && forall n :: n in index ==> n <= top
    ensures index[|index| - 1] == top
    ensures forall n :: n in index[..|index| - 1] <==> n in index && n < top
  {
    var i :| 0 <= i < |index| && index[i] == top;
    assert index[|index| - 1] in index;
    var short := index[..|index| - 1];
    forall n | n in index && n < top ensures n in short {
      var k :| 0 <= k < |index| && index[k] == n;
      assert short[k] == n;
    }
  }

  /** A strictly ascending listing of the nonces determines the transactions listed. */
  lemma {:induction false} FlattenByIndex(items: Items, index: seq<nat>, lo: nat, hi: nat)
    requires forall i, j :: 0 <= i < j < |index| ==> index[i] < index[j]
    requires forall n :: n in index <==> n in items && lo <= n < hi
    ensures |index| == |Listing(items, lo, hi)|
    ensures forall i :: 0 <= i < |index| ==> Listing(items, lo, hi)[i] == items[index[i]]
    decreases hi
  {
    if hi <= lo {
      EmptyOrHead(index);
    } else if hi - 1 in items {
      var last: nat := hi - 1;
      assert last in index;
      AscendingLast(index, last);
      var short := index[..|index| - 1];
      forall n: nat ensures n in short <==> n in items && lo <= n < last {
        assert n in short <==> n in index && n < last;
      }
      FlattenByIndex(items, short, lo, last);
      LastListed(items, lo, hi, Listing(items, lo, hi - 1), index);
    } else {
      FlattenByIndex(items, index, lo, hi - 1);
    }
  }

  lemma LastListed(items: Items, lo: nat, hi: nat, before: seq<Tx>, index: seq<nat>)
    requires lo < hi && hi - 1 in items && before == Listing(items, lo, hi - 1) && |index| == |before| + 1
    requires index[|before|] == hi - 1
    requires forall i :: 0 <= i < |before| ==> index[i] in items && before[i] == items[index[i]]
    ensures |Listing(items, lo, hi)| == |index|
    ensures forall i :: 0 <= i < |index| ==> index[i] in items && Listing(items, lo, hi)[i] == items[index[i]]
  {
    assert Listing(items, lo, hi) == before + [items[hi - 1]];
  }

  lemma {:induction false} ReverseElements(s: seq<Tx>)
    ensures |Reverse(s)| == |s|
    ensures forall i :: 0 <= i < |s| ==> Reverse(s)[i] == s[|s| - 1 - i]
  {
    if s != [] { ReverseElements(s[..|s| - 1]); }
  }
}
