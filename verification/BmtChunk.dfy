/**
 From a chunk to its hash: how Write cuts an exactly fitting chunk into double segments, how deep
 the tree is, and that what the goroutines deliver is what the reference hasher computes.
 */
module BmtChunk {
  import opened Types
  import opened RefHasher
  import opened BmtTree

  /** c doubled h times: the leftmost node h levels below c. */
  function Doubled(c: nat, h: nat): nat
    decreases h
  {
    if h == 0 then c else Doubled(2 * c, h - 1)
  }

  lemma {:induction false} DoubledOuter(c: nat, h: nat)
    ensures Doubled(c, h + 1) == 2 * Doubled(c, h)
    decreases h
  {
    if h > 0 { DoubledOuter(2 * c, h - 1); }
  }

  lemma {:induction false} DoubledGrows(c: nat, h: nat)
    ensures c <= Doubled(c, h) < Doubled(c + 1, h)
    decreases h
  {
    if h > 0 {
      DoubledGrows(2 * c, h - 1);
      DoubledGrows(2 * c + 1, h - 1);
    }
  }

  /** A power of two leaves makes a perfect tree. */
  lemma {:induction false} PerfectTree(d: nat)
    ensures Doubled(1, d) >= 1 && AllOnes(2 * Doubled(1, d) - 1)
    decreases d
  {
    DoubledGrows(1, d);
    if d > 0 {
      PerfectTree(d - 1);
      DoubledOuter(1, d - 1);
    }
  }

  /** depth: the least d for which a tree of 2^d leaves holds n segments, two in each. */
  method TreeDepth(n: nat) returns (d: nat)
    requires n > 0
    ensures n <= 2 * Doubled(1, d)
    ensures d > 0 ==> 2 * Doubled(1, d - 1) < n
  {
    d := 0;
    var l := (n - 1) / 2;
    while l > 0
      invariant l * Doubled(1, d) <= (n - 1) / 2 < (l + 1) * Doubled(1, d)
      invariant d > 0 ==> Doubled(1, d - 1) <= (n - 1) / 2
      decreases l
    {
      DoubledOuter(1, d);
      Halve(l, Doubled(1, d), (n - 1) / 2);
      l := l / 2;
      d := d + 1;
    }
  }

  lemma Halve(l: nat, w: nat, m: nat)
    requires l > 0 && l * w <= m < (l + 1) * w
    ensures (l / 2) * (2 * w) <= m < (l / 2 + 1) * (2 * w) && w <= m
  {
    assert (l / 2) * (2 * w) == (2 * (l / 2)) * w;
    assert (l / 2 + 1) * (2 * w) == (2 * (l / 2) + 2) * w;
    assert (2 * (l / 2)) * w <= l * w by { MulMonotone(w, 2 * (l / 2), l); }
    assert (l + 1) * w <= (2 * (l / 2) + 2) * w by { MulMonotone(w, l + 1, 2 * (l / 2) + 2); }
    assert w <= l * w by { MulMonotone(w, 1, l); }
  }

  ghost function Concat(segs: seq<Bytes>): Bytes {
    if segs == [] then [] else segs[0] + Concat(segs[1..])
  }

  lemma {:induction false} ConcatSplit(a: seq<Bytes>, b: seq<Bytes>)
    ensures Concat(a + b) == Concat(a) + Concat(b)
    decreases a
  {
    if a == [] {
      assert a + b == b;
    } else {
      calc {
        Concat(a + b);
        { assert (a + b)[0] == a[0] && (a + b)[1..] == a[1..] + b; }
        a[0] + Concat(a[1..] + b);
        { ConcatSplit(a[1..], b); }
        a[0] + (Concat(a[1..]) + Concat(b));
        (a[0] + Concat(a[1..])) + Concat(b);
        Concat(a) + Concat(b);
      }
    }
  }

  lemma ConcatOne(a: seq<Bytes>, s: Bytes)
    ensures Concat(a + [s]) == Concat(a) + s
  {
    ConcatSplit(a, [s]);
    assert Concat([s]) == s + Concat([s][1..]) == s;
  }

  ghost predicate FullSegments(segs: seq<Bytes>, size: nat) {
    forall i :: 0 <= i < |segs| ==> |segs[i]| == 2 * size
  }

  /**
   Write on a fresh hasher, of any length: up to the capacity of `count` segments, every full double
   segment that something follows is pushed to its goroutine, in order, and what is left stays
   open for Sum.
   */
  method WriteChunk(b: Bytes, count: nat, hashSize: nat) returns (pushed: seq<Bytes>, segment: Bytes, cur: nat)
    requires hashSize > 0 && count > 0
    ensures cur == |pushed| && FullSegments(pushed, hashSize)
    ensures |segment| <= 2 * hashSize && (b != [] ==> segment != [])
    ensures Concat(pushed + [segment]) == b[..Min(|b|, count * hashSize)]
  {
    pushed, segment, cur := [], [], 0;
    if |b| <= 0 {
      ConcatOne([], []);
      assert b[..Min(|b|, count * hashSize)] == [] && Concat([]) == [];
      return;
    }
    var i: nat, leaves := 0, (count + 1) / 2;
    var need := count * hashSize;
    var size := hashSize;
    ghost var all := Min(|b|, count * hashSize);
    LeavesHold(count, hashSize);
    if need > size { size := size * 2; }
    ghost var unit := size;
    if |b| < need { need := |b|; }
    var rest: nat := if need < size then need else size;
    var s := b[..rest];
    need := need - rest;
    while need > 0 && i < leaves - 1
      invariant i < leaves && i == |pushed| && 0 < |s| <= unit <= 2 * hashSize && rest <= all
      invariant if need < 0 then rest == all else rest + need == all && need <= SumLen(leaves - 1 - i, 2 * hashSize)
      invariant need > 0 ==> size == unit == |s| && (i < leaves - 1 ==> unit == 2 * hashSize)
      invariant FullSegments(pushed, hashSize) && Concat(pushed) + s == b[..rest]
      decreases leaves - i
    {
      pushed := pushed + [s];
      need := need - size;
      if need < 0 { size := size + need; }
      ReadOn(b, pushed[..i], s, rest, size);
      assert pushed[..i] + [s] == pushed;
      s := b[rest..rest + size];
      rest := rest + size;
      i := i + 1;
    }
    segment, cur := s, i;
    ConcatOne(pushed, s);
  }

  lemma LeavesHold(count: nat, size: nat)
    requires count > 0 && size > 0
    ensures count * size <= SumLen((count + 1) / 2, 2 * size)
    ensures if count == 1 then count * size == size else count * size > size
  {
    var even := 2 * ((count + 1) / 2);
    SumOf(even, size);
    assert even == count || even == count + 1;
    MulMonotone(size, count, even);
    if count > 1 { MulMonotone(size, 2, count); }
  }

  lemma ReadOn(b: Bytes, pushed: seq<Bytes>, s: Bytes, rest: nat, size: nat)
    requires rest + size <= |b| && Concat(pushed) + s == b[..rest]
    ensures Concat(pushed + [s]) + b[rest..rest + size] == b[..rest + size]
  {
    ConcatOne(pushed, s);
  }

  /** The length of k double segments. */
  function SumLen(k: nat, size: nat): nat {
    if k == 0 then 0 else size + SumLen(k - 1, size)
  }

  lemma {:induction false} SumOf(count: nat, size: nat)
    requires count % 2 == 0
    ensures count * size == SumLen(count / 2, 2 * size)
  {
    if count > 0 {
      SumOf(count - 2, size);
      assert count * size == (count - 2) * size + 2 * size;
    }
  }

  /** The span of a subtree of the given height. */
  function SpanAt(size: nat, h: nat): nat {
    if h == 0 then 2 * size else 2 * SpanAt(size, h - 1)
  }

  lemma {:induction false} SpanAtIsSpan(size: nat, h: nat)
    requires size > 0
    ensures SpanAt(size, h) >= 2 * size && IsSpan(size, SpanAt(size, h))
  {
    if h > 0 {
      SpanAtIsSpan(size, h - 1);
      DoubleSpan(size, SpanAt(size, h - 1));
    }
  }

  /** Node c stands h levels above the leaves. */
  ghost predicate At(ch: Chunk, c: nat, h: nat) {
    |ch.segs| == ch.n && ch.n <= Doubled(c, h) < Doubled(c + 1, h) <= 2 * ch.n
  }

  /** The bytes under node c. */
  ghost function Under(ch: Chunk, c: nat, h: nat): Bytes
    requires At(ch, c, h)
  {
    Concat(ch.segs[Doubled(c, h) - ch.n..Doubled(c + 1, h) - ch.n])
  }

  /** The hash of a perfect subtree is the reference hash of the bytes under it. */
  lemma {:induction false} SubtreeHash(ch: Chunk, size: nat, c: nat, h: nat)
    requires size > 0 && FullSegments(ch.segs, size) && 1 <= c && At(ch, c, h)
    ensures c < 2 * ch.n && |Under(ch, c, h)| == SpanAt(size, h)
    ensures Value(ch, c) == Merkle(ch.hash, size, Under(ch, c, h))
    decreases h
  {
    if h == 0 {
      LeafHash(ch, size, c);
    } else {
      Children(ch, c, h);
      SubtreeHash(ch, size, 2 * c, h - 1);
      SubtreeHash(ch, size, 2 * c + 1, h - 1);
      InnerHash(ch, size, c, h);
    }
  }

  lemma LeafHash(ch: Chunk, size: nat, c: nat)
    requires size > 0 && |ch.segs| == ch.n && FullSegments(ch.segs, size) && ch.n <= c < 2 * ch.n
    ensures |Under(ch, c, 0)| == 2 * size && Value(ch, c) == Merkle(ch.hash, size, Under(ch, c, 0))
  {
    UnderLeaf(ch, c);
  }

  lemma InnerHash(ch: Chunk, size: nat, c: nat, h: nat)
    requires size > 0 && h > 0 && At(ch, c, h) && At(ch, 2 * c, h - 1) && At(ch, 2 * c + 1, h - 1) && 1 <= c < ch.n
    requires |Under(ch, 2 * c, h - 1)| == |Under(ch, 2 * c + 1, h - 1)| == SpanAt(size, h - 1)
    requires Value(ch, 2 * c) == Merkle(ch.hash, size, Under(ch, 2 * c, h - 1))
    requires Value(ch, 2 * c + 1) == Merkle(ch.hash, size, Under(ch, 2 * c + 1, h - 1))
    ensures |Under(ch, c, h)| == SpanAt(size, h) && Value(ch, c) == Merkle(ch.hash, size, Under(ch, c, h))
  {
    UnderSplits(ch, c, h);
    MerkleOfTwo(ch.hash, size, Under(ch, 2 * c, h - 1), Under(ch, 2 * c + 1, h - 1), h - 1);
  }

  lemma UnderLeaf(ch: Chunk, c: nat)
    requires |ch.segs| == ch.n && ch.n <= c < 2 * ch.n
    ensures Under(ch, c, 0) == ch.segs[c - ch.n]
  {
    var seg := ch.segs[c - ch.n];
    assert ch.segs[c - ch.n..c + 1 - ch.n] == [] + [seg];
    ConcatOne([], seg);
  }

  lemma UnderSplits(ch: Chunk, c: nat, h: nat)
    requires h > 0 && At(ch, c, h) && At(ch, 2 * c, h - 1) && At(ch, 2 * c + 1, h - 1)
    ensures Under(ch, c, h) == Under(ch, 2 * c, h - 1) + Under(ch, 2 * c + 1, h - 1)
  {
    ConcatRange(ch.segs, Doubled(2 * c, h - 1) - ch.n, Doubled(2 * c + 1, h - 1) - ch.n,
                Doubled(2 * c + 2, h - 1) - ch.n);
  }

  lemma Children(ch: Chunk, c: nat, h: nat)
    requires h > 0 && 1 <= c && At(ch, c, h)
    ensures At(ch, 2 * c, h - 1) && At(ch, 2 * c + 1, h - 1) && c < ch.n
  {
    DoubledGrows(2 * c, h - 1);
    DoubledGrows(2 * c + 1, h - 1);
  }

  lemma ConcatRange(segs: seq<Bytes>, a: nat, m: nat, z: nat)
    requires a <= m <= z <= |segs|
    ensures Concat(segs[a..z]) == Concat(segs[a..m]) + Concat(segs[m..z])
  {
    ConcatSplit(segs[a..m], segs[m..z]);
    assert segs[a..m] + segs[m..z] == segs[a..z];
  }

  /** Two halves of equal span are hashed separately and then together. */
  lemma MerkleOfTwo(hash: Bytes -> Bytes, size: nat, a: Bytes, b: Bytes, h: nat)
    requires size > 0 && |a| == |b| == SpanAt(size, h)
    ensures Merkle(hash, size, a + b) == hash(Merkle(hash, size, a) + Merkle(hash, size, b))
  {
    SpanAtIsSpan(size, h);
    var d := a + b;
    SpanUnique(size, SpanAt(size, h), Split(size, 2 * size, |d|), |d|);
    assert d[..|a|] == a && d[|a|..] == b;
  }

  /** A chunk of 2^d full double segments fits its tree, whose root stands for the reference hash. */
  lemma PerfectChunk(ch: Chunk, size: nat, d: nat)
    requires size > 0 && d >= 1 && ch.n == Doubled(1, d) && |ch.segs| == ch.n && FullSegments(ch.segs, size)
    ensures ch.n >= 2 && AllOnes(2 * ch.n - 1)
    ensures Value(ch, 1) == Merkle(ch.hash, size, Concat(ch.segs))
  {
    PerfectTree(d);
    DoubledOuter(1, d);
    assert Doubled(1, d + 1) == Doubled(2, d);
    DoubledGrows(1, d);
    DoubledGrows(2, d - 1);
    SubtreeHash(ch, size, 1, d);
    assert ch.segs[0..ch.n] == ch.segs;
  }

  /**
   The main theorem.  A chunk of 2^d full double segments, d >= 1, is hashed to the reference hash
   by every interleaving: exactly one result is delivered once nothing can run any more, none
   other is ever delivered, and the tree goes back clean with even toggles.
   */
  lemma ConcurrentEqualsReference(ch: Chunk, size: nat, d: nat, run: seq<State>)
    requires size > 0 && d >= 1 && ch.n == Doubled(1, d) && |ch.segs| == ch.n && FullSegments(ch.segs, size)
    requires (forall p: nat :: p in ch.base <==> 1 <= p < 2 * ch.n)
    requires (forall p :: p in ch.base ==> Reusable(ch.base[p]))
    requires IsRun(ch, run)
    ensures ChunkOk(ch) && Delivers(ch, run, Merkle(ch.hash, size, Concat(ch.segs)))
  {
    PerfectChunk(ch, size, d);
    EveryInterleaving(ch, run);
  }

  /**
   Sum on a tree that is a single node, for chunks of up to two segments: finalise marks the node
   unbalanced, the one goroutine skips the toggle, and releaseTree clears the mark.
   */
  method SumSingle(hash: Bytes -> Bytes, size: nat, segment: Bytes, node: Node) returns (result: Bytes, back: Node)
    requires size > 0 && |segment| <= 2 * size && Clean(node, 1)
    ensures result == Merkle(hash, size, segment)
    ensures Clean(back, 1) && back.state == node.state
  {
    back := node.(unbalanced := true, right := [], root := true);
    back := back.(left := segment);
    result := hash(back.left + back.right);
    assert back.left + back.right == segment;
    back := back.(unbalanced := false);
  }

  /** Segments whose bytes are k times the double size, the last one not empty, are k full ones. */
  lemma {:induction false} AllFull(pushed: seq<Bytes>, segment: Bytes, size: nat, k: nat)
    requires size > 0 && FullSegments(pushed, size) && 0 < |segment| <= 2 * size
    requires |Concat(pushed + [segment])| == SumLen(k, 2 * size)
    ensures |pushed| + 1 == k && |segment| == 2 * size
    decreases k
  {
    ConcatOne(pushed, segment);
    if pushed == [] {
      assert Concat(pushed) == [];
    } else {
      ConcatOne(pushed[1..], segment);
      AllFull(pushed[1..], segment, size, k - 1);
    }
  }

  /** What every run on a chunk promises, given the reference hash. */
  ghost predicate Delivers(ch: Chunk, run: seq<State>, reference: Bytes)
    requires ChunkOk(ch) && run != []
  {
    var last := run[|run| - 1];
    && |run| - 1 <= Measure(ch.n, run[0])
    && (last.results == [] || last.results == [reference])
    && ((forall st' :: !Step(ch, last, st')) ==> last.results == [reference] && Returned(ch, last.nodes))
  }

  /** What a reference hasher for a segment count returns on that many segments. */
  method Reference(hash: Bytes -> Bytes, size: nat, count: nat, b: Bytes) returns (r: Bytes)
    requires size > 0 && |b| == count * size
    ensures r == Merkle(hash, size, b) == TreeHash(hash, size, b)
  {
    var hasher := new Hasher(hash, size, count);
    r := hasher.Hash(b);
  }

  /**
   The whole way for 2^k segments, k >= 2.  The tree has the depth computed for the segment count;
   one Write cuts the bytes into the double segments of the goroutines; and every interleaving of
   those delivers exactly what the reference hasher for that count returns on the same bytes.
   */
  method HashChunk(hash: Bytes -> Bytes, size: nat, k: nat, b: Bytes, base: map<nat, int>)
      returns (reference: Bytes, d: nat, ghost ch: Chunk)
    requires size > 0 && k >= 2 && |b| == Doubled(1, k) * size
    requires forall p: nat :: p in base <==> 1 <= p < Doubled(1, k)
    requires forall p :: p in base ==> Reusable(base[p])
    ensures d == k - 1 && ch.hash == hash && ch.base == base && ch.n == Doubled(1, d) && ChunkOk(ch)
    ensures FullSegments(ch.segs, size) && Concat(ch.segs) == b
    ensures reference == Merkle(hash, size, b) == TreeHash(hash, size, b)
    ensures forall run {:trigger IsRun(ch, run)} :: IsRun(ch, run) ==> Delivers(ch, run, reference)
  {
    var count := Doubled(1, k);
    DoubledGrows(1, k);
    d := TreeDepth(count);
    DepthOfPower(k, d);
    var pushed, segment, cur := WriteChunk(b, count, size);
    assert b[..|b|] == b;
    DoubledOuter(1, k - 1);
    SumOf(count, size);
    AllFull(pushed, segment, size, count / 2);
    ch := Chunk(hash, Doubled(1, d), pushed + [segment], base);
    reference := Reference(hash, size, count, b);
    PerfectChunk(ch, size, d);
    forall run | IsRun(ch, run) ensures Delivers(ch, run, reference) {
      ConcurrentEqualsReference(ch, size, d, run);
    }
  }

  lemma {:induction false} DoubledStrict(a: nat, b: nat)
    requires a < b
    ensures Doubled(1, a) < Doubled(1, b)
    decreases b
  {
    DoubledOuter(1, b - 1);
    DoubledGrows(1, b - 1);
    if a < b - 1 { DoubledStrict(a, b - 1); }
  }

  /** The depth computed for 2^k segments is k - 1. */
  lemma DepthOfPower(k: nat, d: nat)
    requires k >= 1 && Doubled(1, k) <= 2 * Doubled(1, d)
    requires d > 0 ==> 2 * Doubled(1, d - 1) < Doubled(1, k)
    ensures d == k - 1
  {
    DoubledOuter(1, d);
    if d + 1 < k { DoubledStrict(d + 1, k); }
    if d > k - 1 {
      DoubledOuter(1, d - 1);
      if k < d { DoubledStrict(k, d); }
    }
  }

  /** One or two segments: the tree is a single node, and what Sum returns is what the reference hasher returns. */
  method HashSmall(hash: Bytes -> Bytes, size: nat, k: nat, b: Bytes, node: Node)
      returns (result: Bytes, reference: Bytes, d: nat, back: Node)
    requires size > 0 && k <= 1 && |b| == Doubled(1, k) * size && Clean(node, 1)
    ensures d == 0 && result == reference == Merkle(hash, size, b) == TreeHash(hash, size, b)
    ensures Clean(back, 1) && back.state == node.state
  {
    var count := Doubled(1, k);
    assert count == if k == 0 then 1 else 2;
    d := TreeDepth(count);
    DoubledGrows(1, if d > 0 then d - 1 else 0);
    var pushed, segment, cur := WriteChunk(b, count, size);
    assert b[..|b|] == b;
    NothingPushed(pushed, segment, b, size);
    result, back := SumSingle(hash, size, segment, node);
    reference := Reference(hash, size, count, b);
  }

  lemma NothingPushed(pushed: seq<Bytes>, segment: Bytes, b: Bytes, size: nat)
    requires FullSegments(pushed, size) && Concat(pushed + [segment]) == b && |b| <= 2 * size && segment != []
    ensures pushed == [] && segment == b
  {
    ConcatOne(pushed, segment);
    FirstFull(pushed, size);
  }

  lemma FirstFull(segs: seq<Bytes>, size: nat)
    requires FullSegments(segs, size)
    ensures segs == [] || |Concat(segs)| >= 2 * size
  {
  }
}
