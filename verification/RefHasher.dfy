/**
 The reference hasher of bmt/bmt_r.go, over any base hash with a fixed output size.
 */
module RefHasher {
  newtype byte = x: int | 0 <= x < 256

  type Bytes = seq<byte>

  /** Two segments, doubled any number of times. */
  predicate IsSpan(size: nat, s: nat)
    requires size > 0
    decreases s
  {
    s == 2 * size || (s > 2 * size && s % 2 == 0 && IsSpan(size, s / 2))
  }

  lemma DoubleSpan(size: nat, s: nat)
    requires size > 0 && IsSpan(size, s)
    ensures IsSpan(size, 2 * s)
  {
    assert (2 * s) / 2 == s;
  }

  lemma HalfOfSpan(size: nat, s: nat)
    requires size > 0 && IsSpan(size, s) && s > 2 * size
    ensures IsSpan(size, s / 2) && s == 2 * (s / 2) && s / 2 < s
  {
  }

  /** Spans are at least a factor of two apart. */
  lemma {:induction false} SpansDouble(size: nat, s: nat, t: nat)
    requires size > 0 && IsSpan(size, s) && IsSpan(size, t) && s < t
    ensures 2 * s <= t
    decreases t
  {
    if t / 2 < s && t / 2 != s {
      if s != 2 * size {
        SpansDouble(size, t / 2, s);
      }
    }
  }

  /** At most one span is shorter than the input and at least half of it. */
  lemma SpanUnique(size: nat, s: nat, t: nat, l: nat)
    requires size > 0 && IsSpan(size, s) && IsSpan(size, t)
    requires s < l <= 2 * s && t < l <= 2 * t
    ensures s == t
  {
    if s < t { SpansDouble(size, s, t); }
    if t < s { SpansDouble(size, t, s); }
  }

  /** The largest span strictly shorter than an input of more than two segments. */
  function Split(size: nat, s: nat, l: nat): (r: nat)
    requires size > 0 && IsSpan(size, s) && s < l
    ensures IsSpan(size, r) && r < l <= 2 * r
    decreases l - s
  {
    if l <= 2 * s then s else Split(size, 2 * s, l)
  }

  /**
   The binary Merkle tree hash itself: inputs of up to two segments are hashed directly, longer
   ones are split at the largest span shorter than them, and a right part of at most one segment
   is not hashed on its own.
   */
  function Merkle(hash: Bytes -> Bytes, size: nat, d: Bytes): Bytes
    requires size > 0
    decreases |d|
  {
    if |d| <= 2 * size then hash(d)
    else
      var s := Split(size, 2 * size, |d|);
      var left, right := Merkle(hash, size, d[..s]), d[s..];
      hash(left + if |d| - s > size then Merkle(hash, size, right) else right)
  }

  // ---- The same hash, from the bottom up ----

  /** The segments of an input; the last one may be shorter. */
  function Leaves(size: nat, d: Bytes): (r: seq<Bytes>)
    requires size > 0
    ensures r != [] && (|r| == 1 <==> |d| <= size)
    decreases |d|
  {
    if |d| <= size then [d] else [d[..size]] + Leaves(size, d[size..])
  }

  /** One level up: neighbours are hashed together and an odd last node is carried up as it is. */
  function PairUp(hash: Bytes -> Bytes, nodes: seq<Bytes>): (r: seq<Bytes>)
    ensures |r| == (|nodes| + 1) / 2
  {
    if |nodes| <= 1 then nodes else [hash(nodes[0] + nodes[1])] + PairUp(hash, nodes[2..])
  }

  /** Level by level up to a single node. */
  function Root(hash: Bytes -> Bytes, nodes: seq<Bytes>): Bytes
    requires nodes != []
    decreases |nodes|
  {
    if |nodes| == 1 then nodes[0] else Root(hash, PairUp(hash, nodes))
  }

  predicate PowerOfTwo(n: nat) {
    n == 1 || (n > 1 && n % 2 == 0 && PowerOfTwo(n / 2))
  }

  lemma {:induction false} PairUpSplits(hash: Bytes -> Bytes, a: seq<Bytes>, b: seq<Bytes>)
    requires |a| % 2 == 0
    ensures PairUp(hash, a + b) == PairUp(hash, a) + PairUp(hash, b)
  {
    if a == [] {
      assert a + b == b;
    } else {
      assert (a + b)[2..] == a[2..] + b;
      PairUpSplits(hash, a[2..], b);
    }
  }

  /** Below the top, a full left half and any right half no larger rise on their own. */
  lemma {:induction false} RootSplits(hash: Bytes -> Bytes, a: seq<Bytes>, b: seq<Bytes>)
    requires PowerOfTwo(|a|) && 1 <= |b| <= |a|
    ensures Root(hash, a + b) == hash(Root(hash, a) + Root(hash, b))
    decreases |a|
  {
    if |a| == 1 {
      assert PairUp(hash, a + b) == [hash(a[0] + b[0])];
    } else {
      PairUpSplits(hash, a, b);
      RootSplits(hash, PairUp(hash, a), PairUp(hash, b));
    }
  }

  lemma {:induction false} LeavesSplit(size: nat, d: Bytes, n: nat, m: nat)
    requires size > 0 && n > 0 && m == n * size < |d|
    ensures Leaves(size, d) == Leaves(size, d[..m]) + Leaves(size, d[m..])
    ensures |Leaves(size, d[..m])| == n
  {
    if n == 1 {
      assert m == size;
    } else {
      var left, rest := d[..m], d[size..];
      LessOne(size, n);
      LeavesSplit(size, rest, n - 1, m - size);
      assert left[size..] == rest[..m - size] && rest[m - size..] == d[m..] && left[..size] == d[..size];
    }
  }

  lemma LessOne(size: nat, n: nat)
    requires size > 0 && n > 1
    ensures (n - 1) * size == n * size - size && n * size > size
  {
    MulMonotone(size, 1, n - 1);
  }

  lemma {:induction false} FewLeaves(size: nat, d: Bytes, n: nat)
    requires size > 0 && n > 0 && |d| <= n * size
    ensures |Leaves(size, d)| <= n
  {
    if |d| > size {
      assert n > 1 && n * size == size + (n - 1) * size;
      FewLeaves(size, d[size..], n - 1);
    }
  }

  /** A span is a power of two of segments, two at least. */
  lemma {:induction false} SpanSegments(size: nat, s: nat) returns (n: nat)
    requires size > 0 && IsSpan(size, s)
    ensures n > 1 && PowerOfTwo(n) && s == n * size
    decreases s
  {
    if s == 2 * size {
      n := 2;
      assert PowerOfTwo(n / 2);
    } else {
      var half := SpanSegments(size, s / 2);
      n := 2 * half;
      assert n / 2 == half;
    }
  }

  /**
   Splitting from the top at the largest span gives the same hash as pairing up the segments level
   by level from the bottom.
   */
  lemma {:induction false} MerkleIsRoot(hash: Bytes -> Bytes, size: nat, d: Bytes)
    requires size > 0 && |d| > size
    ensures Merkle(hash, size, d) == Root(hash, Leaves(size, d))
    decreases |d|
  {
    if |d| <= 2 * size {
      assert Leaves(size, d[size..]) == [d[size..]];
      assert Leaves(size, d) == [d[..size], d[size..]] && d[..size] + d[size..] == d;
      assert PairUp(hash, Leaves(size, d)) == [hash(d)];
    } else {
      var s := Split(size, 2 * size, |d|);
      var n := SpanSegments(size, s);
      var left, right := d[..s], d[s..];
      LeavesSplit(size, d, n, s);
      FewLeaves(size, right, n);
      RootSplits(hash, Leaves(size, left), Leaves(size, right));
      MulMonotone(size, 2, n);
      MerkleIsRoot(hash, size, left);
      if |right| > size {
        MerkleIsRoot(hash, size, right);
      }
    }
  }

  /** A single segment is hashed; the segments of a longer input are paired up. */
  function TreeHash(hash: Bytes -> Bytes, size: nat, d: Bytes): Bytes
    requires size > 0
  {
    if |d| <= size then hash(d) else Root(hash, Leaves(size, d))
  }

  lemma MerkleIsTreeHash(hash: Bytes -> Bytes, size: nat, d: Bytes)
    requires size > 0
    ensures Merkle(hash, size, d) == TreeHash(hash, size, d)
  {
    if |d| > size {
      MerkleIsRoot(hash, size, d);
    }
  }

  lemma MerkleSplits(hash: Bytes -> Bytes, size: nat, d: Bytes, s: nat)
    requires size > 0 && IsSpan(size, s) && 2 * size < |d| && s < |d| <= 2 * s
    ensures var right := d[s..];
            Merkle(hash, size, d)
            == hash(Merkle(hash, size, d[..s]) + if |d| - s > size then Merkle(hash, size, right) else right)
  {
    SpanUnique(size, s, Split(size, 2 * size, |d|), |d|);
  }

  function Truncate(d: Bytes, cap: nat): Bytes {
    if |d| > cap then d[..cap] else d
  }

  /** Halves a span until it is shorter than the input. */
  method FindSpan(size: nat, span: nat, l: nat) returns (s: nat)
    requires size > 0 && IsSpan(size, span) && 2 * size < l <= 2 * span
    ensures IsSpan(size, s) && s < l <= 2 * s
  {
    s := span;
    while s >= l
      invariant IsSpan(size, s) && l <= 2 * s
      decreases s
    {
      HalfOfSpan(size, s);
      s := s / 2;
    }
  }

  class Hasher {
    const hash: Bytes -> Bytes   // the base hash
    const size: nat              // its output size
    const span: nat
    const section: nat
    const cap: nat
    var h: Bytes                 // what has been written to the shared base hasher since its last reset

    ghost predicate Valid()
      reads this
    {
      && size > 0 && section == 2 * size
      && IsSpan(size, span) && cap <= 2 * span
      && h == []
    }

    constructor (hash: Bytes -> Bytes, size: nat, count: nat)
      requires size > 0
      ensures Valid() && this.hash == hash && this.size == size && this.cap == size * count
    {
      var c, span := 2, 2 * size;
      while c < count
        invariant 2 <= c && span == c * size && IsSpan(size, span)
        invariant c > 2 ==> c % 2 == 0 && c / 2 < count
        decreases count - c
      {
        c := c * 2;
        span := 2 * span;
      }
      assert size * count <= size * c by { MulMonotone(size, count, c); }
      if c > 2 {
        HalfSpan(size, c, span);
        c := c / 2;
        span := span / 2;
      }
      this.hash, this.size, this.span, this.section, this.cap, this.h := hash, size, span, 2 * size, size * count, [];
    }

    /**
     Hashes the input, cut off at the capacity.  The segment count the hasher was made for appears
     only in that cut: any two counts agree on every input that fits both.
     */
    method Hash(d: Bytes) returns (r: Bytes)
      requires Valid()
      modifies this`h
      ensures Valid() && r == Merkle(hash, size, Truncate(d, cap)) == TreeHash(hash, size, Truncate(d, cap))
    {
      r := Rec(Truncate(d, cap), span);
    }

    method Rec(d: Bytes, span: nat) returns (r: Bytes)
      requires size > 0 && section == 2 * size && h == []
      requires IsSpan(size, span) && |d| <= 2 * span
      modifies this`h
      ensures h == [] && r == Merkle(hash, size, d) == TreeHash(hash, size, d)
      decreases |d|, 1
    {
      var left, right := Halves(d, span);
      h := h + left;
      h := h + right;
      assert h == left + right;
      r := hash(h);
      h := [];
      MerkleIsTreeHash(hash, size, d);
    }

    /** What is written to the base hasher for an input: all of it, or the hashes of its parts. */
    method Halves(d: Bytes, span: nat) returns (left: Bytes, right: Bytes)
      requires size > 0 && section == 2 * size && h == []
      requires IsSpan(size, span) && |d| <= 2 * span
      modifies this`h
      ensures h == [] && Merkle(hash, size, d) == hash(left + right)
      decreases |d|, 0
    {
      var l := |d|;
      left, right := d, [];
      assert left + right == d;
      if l > section {
        var s := FindSpan(size, span, l);
        MerkleSplits(hash, size, d, s);
        left := Rec(d[..s], s);
        right := d[s..];
        if l - s > section / 2 {
          right := Rec(right, s);
        }
      }
    }
  }

  lemma MulMonotone(size: nat, a: nat, b: nat)
    requires a <= b
    ensures size * a <= size * b
  {
  }

  lemma HalfSpan(size: nat, c: nat, span: nat)
    requires size > 0 && c > 2 && c % 2 == 0 && span == c * size && IsSpan(size, span)
    ensures span / 2 == (c / 2) * size && IsSpan(size, span / 2) && span % 2 == 0
  {
    assert span == 2 * ((c / 2) * size);
    assert span > 2 * size by { assert (c - 2) * size > 0; }
  }

  /** Hashers configured for different segment counts agree on every input that fits both. */
  method HashWithBoth(hash: Bytes -> Bytes, size: nat, d: Bytes, count1: nat, count2: nat)
    returns (r1: Bytes, r2: Bytes)
    requires size > 0 && |d| <= size * count1 && |d| <= size * count2
    ensures r1 == r2 == TreeHash(hash, size, d)
  {
    var h1 := new Hasher(hash, size, count1);
    var h2 := new Hasher(hash, size, count2);
    r1 := h1.Hash(d);
    r2 := h2.Hash(d);
  }
}
