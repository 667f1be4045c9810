/**
 The block chain of core/blockchain.go: blocks with their transactions, the canonical number
 index and the transaction lookup index, rerouted when a heavier branch takes over.
 */
module BlockChain {
  import opened Types
  import opened ChainTree

  type TxHash = nat

  datatype Block = Block(header: Header, txs: seq<TxHash>)

  /** Where a transaction is found: its block and its position there. */
  datatype Entry = Entry(block: Hash, number: nat, index: nat)

  type Bodies = map<Hash, seq<TxHash>>
  type Lookup = map<TxHash, Entry>

  /** The tree of known blocks. */
  ghost predicate Known(hs: Headers, bodies: Bodies, genesis: Header) {
    Tree(hs, genesis) && bodies.Keys == hs.Keys
  }

  /** The transaction is at position i of the branch's block at height n. */
  ghost predicate At(hs: Headers, bodies: Bodies, genesis: Header, head: Hash, n: nat, i: nat, t: TxHash)
    requires Known(hs, bodies, genesis) && head in hs
  {
    && n <= hs[head].number
    && var b := AncestorAt(hs, genesis, head, n);
       i < |bodies[b]| && bodies[b][i] == t
  }

  /** No transaction occurs at two heights of the branch. */
  ghost predicate BranchDistinct(hs: Headers, bodies: Bodies, genesis: Header, head: Hash)
    requires Known(hs, bodies, genesis) && head in hs
  {
    forall n, m, i, j, t :: At(hs, bodies, genesis, head, n, i, t) && At(hs, bodies, genesis, head, m, j, t) ==> n == m
  }

  ghost predicate PointsAt(hs: Headers, bodies: Bodies, genesis: Header, head: Hash, t: TxHash, e: Entry)
    requires Known(hs, bodies, genesis) && head in hs
  {
    && At(hs, bodies, genesis, head, e.number, e.index, t)
    && e.block == AncestorAt(hs, genesis, head, e.number)
  }

  /** The lookup holds exactly the branch's transactions, each pointing at a block of the branch that contains it. */
  ghost predicate LookupExact(lookup: Lookup, hs: Headers, bodies: Bodies, genesis: Header, head: Hash)
    requires Known(hs, bodies, genesis) && head in hs
  {
    && (forall t :: t in lookup ==> PointsAt(hs, bodies, genesis, head, t, lookup[t]))
    && (forall n, i, t :: At(hs, bodies, genesis, head, n, i, t) ==> t in lookup)
  }

  method GetBlock(hs: Headers, bodies: Bodies, hash: Hash, number: nat) returns (b: Option<Block>)
    ensures hash in hs && hash in bodies && hs[hash].number == number ==> b == Some(Block(hs[hash], bodies[hash]))
  {
    if hash in hs && hash in bodies && hs[hash].number == number {
      return Some(Block(hs[hash], bodies[hash]));
    }
    return None;
  }

  /** The blocks of a branch from its head down to one above a height. */
  ghost predicate Descends(chain: seq<Block>, hs: Headers, bodies: Bodies, genesis: Header, head: Hash, down: nat)
    requires Known(hs, bodies, genesis) && head in hs && down <= hs[head].number
  {
    && |chain| == hs[head].number - down
    && forall i :: 0 <= i < |chain| ==> IsBlockAt(chain[i], hs, bodies, genesis, head, hs[head].number - i)
  }

  ghost predicate IsBlockAt(b: Block, hs: Headers, bodies: Bodies, genesis: Header, head: Hash, n: int)
    requires Known(hs, bodies, genesis) && head in hs
  {
    && 0 <= n <= hs[head].number
    && var a := AncestorAt(hs, genesis, head, n);
       b == Block(hs[a], bodies[a])
  }

  /** One step of a walk towards genesis. */
  lemma DescendStep(chain: seq<Block>, b: Block, hs: Headers, bodies: Bodies, genesis: Header, head: Hash, n: nat)
    requires Known(hs, bodies, genesis) && head in hs && 0 < n <= hs[head].number
    requires Descends(chain, hs, bodies, genesis, head, n) && IsBlockAt(b, hs, bodies, genesis, head, n)
    ensures Descends(chain + [b], hs, bodies, genesis, head, n - 1)
    ensures b.header.parent in hs && hs[b.header.parent].number == n - 1
    ensures IsBlockAt(Block(hs[b.header.parent], bodies[b.header.parent]), hs, bodies, genesis, head, n - 1)
  {
    var a := AncestorAt(hs, genesis, head, n);
    assert Linked(hs, genesis, a);
    AncestorsCompose(hs, genesis, head, n, n - 1);
    assert AncestorAt(hs, genesis, a, n - 1) == hs[a].parent;
  }

  /** The parent of every block of the branch is in the database. */
  ghost predicate ParentStored(db: Headers, dbBodies: Bodies, hs: Headers, bodies: Bodies, b: Hash)
    requires b in hs && hs.Keys == bodies.Keys
  {
    var p := hs[b].parent;
    p in hs && hs[b].number > 0 ==> p in db && p in dbBodies && db[p] == hs[p] && dbBodies[p] == bodies[p]
  }

  ghost predicate ParentsStored(db: Headers, dbBodies: Bodies, hs: Headers, bodies: Bodies)
    requires hs.Keys == bodies.Keys
  {
    forall k {:trigger ParentStored(db, dbBodies, hs, bodies, k)} ::
      k in hs ==> ParentStored(db, dbBodies, hs, bodies, k)
  }

  ghost predicate IsHead(b: Block, hs: Headers, bodies: Bodies)
    requires hs.Keys == bodies.Keys
  {
    b.header.hash in hs && b == Block(hs[b.header.hash], bodies[b.header.hash])
  }

  /** Walks from a head down to the given height, collecting the blocks above it. */
  method Reduce(db: Headers, dbBodies: Bodies, head: Block, down: nat, ghost hs: Headers, ghost bodies: Bodies,
                genesis: Header)
    returns (chain: seq<Block>, b: Block)
    requires Known(hs, bodies, genesis) && ParentsStored(db, dbBodies, hs, bodies)
    requires IsHead(head, hs, bodies) && down <= head.header.number
    ensures Descends(chain, hs, bodies, genesis, head.header.hash, down)
    ensures IsBlockAt(b, hs, bodies, genesis, head.header.hash, down)
  {
    chain, b := [], head;
    while b.header.number != down
      invariant down <= b.header.number <= head.header.number
      invariant Descends(chain, hs, bodies, genesis, head.header.hash, b.header.number)
      invariant IsBlockAt(b, hs, bodies, genesis, head.header.hash, b.header.number)
      decreases b.header.number
    {
      chain, b := StepBack(db, dbBodies, chain, b, head.header.hash, hs, bodies, genesis);
    }
  }

  method StepBack(db: Headers, dbBodies: Bodies, chain: seq<Block>, b: Block, ghost head: Hash,
                  ghost hs: Headers, ghost bodies: Bodies, genesis: Header)
    returns (longer: seq<Block>, p: Block)
    requires Known(hs, bodies, genesis) && ParentsStored(db, dbBodies, hs, bodies)
    requires head in hs && 0 < b.header.number <= hs[head].number
    requires Descends(chain, hs, bodies, genesis, head, b.header.number)
    requires IsBlockAt(b, hs, bodies, genesis, head, b.header.number)
    ensures p.header.number == b.header.number - 1
    ensures longer == chain + [b] && Descends(longer, hs, bodies, genesis, head, p.header.number)
    ensures IsBlockAt(p, hs, bodies, genesis, head, p.header.number)
  {
    DescendStep(chain, b, hs, bodies, genesis, head, b.header.number);
    assert ParentStored(db, dbBodies, hs, bodies, AncestorAt(hs, genesis, head, b.header.number));
    var parent := GetBlock(db, dbBodies, b.header.parent, b.header.number - 1);
    longer, p := chain + [b], parent.value;
  }

  /**
   The walking part of reorg: from both heads down to their common ancestor, at height `fork`.
   The walk never leaves the known tree, so neither of the "invalid chain" errors can occur.
   */
  method FindFork(db: Headers, dbBodies: Bodies, oldHead: Block, newHead: Block,
                  ghost hs: Headers, ghost bodies: Bodies, genesis: Header)
    returns (oldChain: seq<Block>, newChain: seq<Block>, ghost fork: nat)
    requires Known(hs, bodies, genesis) && ParentsStored(db, dbBodies, hs, bodies)
    requires IsHead(oldHead, hs, bodies) && IsHead(newHead, hs, bodies)
    ensures Forked(oldChain, newChain, hs, bodies, genesis, oldHead.header.hash, newHead.header.hash, fork)
  {
    oldChain, newChain := [], [];
    var old_, new_ := oldHead, newHead;
    if old_.header.number > new_.header.number {
      oldChain, old_ := Reduce(db, dbBodies, oldHead, newHead.header.number, hs, bodies, genesis);
    } else {
      newChain, new_ := Reduce(db, dbBodies, newHead, oldHead.header.number, hs, bodies, genesis);
    }
    fork := old_.header.number;
    while old_.header.hash != new_.header.hash
      invariant fork == old_.header.number == new_.header.number
      invariant fork <= oldHead.header.number && fork <= newHead.header.number
      invariant Descends(oldChain, hs, bodies, genesis, oldHead.header.hash, fork)
      invariant Descends(newChain, hs, bodies, genesis, newHead.header.hash, fork)
      invariant IsBlockAt(old_, hs, bodies, genesis, oldHead.header.hash, fork)
      invariant IsBlockAt(new_, hs, bodies, genesis, newHead.header.hash, fork)
      decreases fork
    {
      BothAboveGenesis(old_, new_, hs, bodies, genesis, oldHead.header.hash, newHead.header.hash, fork);
      oldChain, old_ := StepBack(db, dbBodies, oldChain, old_, oldHead.header.hash, hs, bodies, genesis);
      newChain, new_ := StepBack(db, dbBodies, newChain, new_, newHead.header.hash, hs, bodies, genesis);
      fork := fork - 1;
    }
    SameHashSameBlock(old_, new_, hs, bodies, genesis, oldHead.header.hash, newHead.header.hash, fork);
  }

  lemma BothAboveGenesis(a: Block, b: Block, hs: Headers, bodies: Bodies, genesis: Header, old_: Hash, new_: Hash,
                         n: nat)
    requires Known(hs, bodies, genesis) && old_ in hs && new_ in hs
    requires IsBlockAt(a, hs, bodies, genesis, old_, n) && IsBlockAt(b, hs, bodies, genesis, new_, n)
    requires a.header.hash != b.header.hash
    ensures n > 0
  {
    if n == 0 {
      RootIsGenesis(hs, genesis, AncestorAt(hs, genesis, old_, 0));
      RootIsGenesis(hs, genesis, AncestorAt(hs, genesis, new_, 0));
    }
  }

  lemma SameHashSameBlock(a: Block, b: Block, hs: Headers, bodies: Bodies, genesis: Header, old_: Hash, new_: Hash,
                          n: nat)
    requires Known(hs, bodies, genesis) && old_ in hs && new_ in hs
    requires IsBlockAt(a, hs, bodies, genesis, old_, n) && IsBlockAt(b, hs, bodies, genesis, new_, n)
    requires a.header.hash == b.header.hash
    ensures AncestorAt(hs, genesis, old_, n) == AncestorAt(hs, genesis, new_, n)
  {
    assert Linked(hs, genesis, AncestorAt(hs, genesis, old_, n));
    assert Linked(hs, genesis, AncestorAt(hs, genesis, new_, n));
  }

  /** WriteTxLookupEntries: points every transaction of a block at its position. */
  method WriteEntries(lookup: Lookup, b: Block) returns (r: Lookup)
    ensures Overwritten(lookup, r, b)
  {
    r := lookup;
    for i := 0 to |b.txs|
      invariant forall t :: t in r <==> t in lookup || t in b.txs[..i]
      invariant forall t :: t in b.txs[..i] ==> EntryIn(r[t], b, t)
      invariant forall t :: t in lookup && t !in b.txs[..i] ==> r[t] == lookup[t]
    {
      r := r[b.txs[i] := Entry(b.header.hash, b.header.number, i)];
      assert b.txs[..i + 1] == b.txs[..i] + [b.txs[i]];
    }
    assert b.txs[..|b.txs|] == b.txs;
  }

  ghost predicate EntryIn(e: Entry, b: Block, t: TxHash) {
    e.block == b.header.hash && e.number == b.header.number && e.index < |b.txs| && b.txs[e.index] == t
  }

  ghost predicate Overwritten(lookup: Lookup, r: Lookup, b: Block) {
    && (forall t :: t in r <==> t in lookup || t in b.txs)
    && (forall t :: t in b.txs ==> EntryIn(r[t], b, t))
    && (forall t :: t in lookup && t !in b.txs ==> r[t] == lookup[t])
  }

  predicate InChain(chain: seq<Block>, t: TxHash) {
    exists i :: 0 <= i < |chain| && t in chain[i].txs
  }

  /** The inserting part of reorg: new canonical blocks from the lowest up, with their lookup entries. */
  method InsertChain(canon: map<nat, Hash>, lookup: Lookup, chain: seq<Block>)
    returns (newCanon: map<nat, Hash>, newLookup: Lookup)
    requires forall i, j :: 0 <= i < j < |chain| ==> chain[i].header.number != chain[j].header.number
    ensures IndexAfter(canon, newCanon, chain, 0)
    ensures LookupAfter(lookup, newLookup, chain)
  {
    newCanon, newLookup := canon, lookup;
    var i := |chain|;
    while i > 0
      invariant 0 <= i <= |chain|
      invariant IndexAfter(canon, newCanon, chain, i)
      invariant LookupAfter(lookup, newLookup, chain[i..])
    {
      i := i - 1;
      IndexAfterStep(canon, newCanon, chain, i);
      newCanon := newCanon[chain[i].header.number := chain[i].header.hash];
      ghost var before := newLookup;
      newLookup := WriteEntries(newLookup, chain[i]);
      LookupAfterStep(lookup, before, newLookup, chain, i);
    }
    assert chain[0..] == chain;
  }

  /** The numbers of the blocks from i on are indexed to them; the others are as before. */
  ghost predicate IndexAfter(canon: map<nat, Hash>, r: map<nat, Hash>, chain: seq<Block>, i: nat) {
    && (forall j :: i <= j < |chain| ==>
          chain[j].header.number in r && r[chain[j].header.number] == chain[j].header.hash)
    && (forall n :: (forall j :: i <= j < |chain| ==> chain[j].header.number != n) ==>
          (n in r <==> n in canon) && (n in r ==> r[n] == canon[n]))
  }

  lemma IndexAfterStep(canon: map<nat, Hash>, before: map<nat, Hash>, chain: seq<Block>, i: nat)
    requires forall i, j :: 0 <= i < j < |chain| ==> chain[i].header.number != chain[j].header.number
    requires i < |chain| && IndexAfter(canon, before, chain, i + 1)
    ensures IndexAfter(canon, before[chain[i].header.number := chain[i].header.hash], chain, i)
  {
  }

  /** Transactions of the chain point into it; the others are as before. */
  ghost predicate LookupAfter(lookup: Lookup, r: Lookup, chain: seq<Block>) {
    && (forall t :: t in r <==> t in lookup || InChain(chain, t))
    && (forall t :: InChain(chain, t) ==> exists i :: 0 <= i < |chain| && EntryIn(r[t], chain[i], t))
    && (forall t :: t in lookup && !InChain(chain, t) ==> r[t] == lookup[t])
  }

  lemma LookupAfterStep(lookup: Lookup, before: Lookup, r: Lookup, chain: seq<Block>, i: nat)
    requires i < |chain| && LookupAfter(lookup, before, chain[i + 1..]) && Overwritten(before, r, chain[i])
    ensures LookupAfter(lookup, r, chain[i..])
  {
    forall t ensures InChain(chain[i..], t) <==> t in chain[i].txs || InChain(chain[i + 1..], t) {
      if t in chain[i].txs { assert t in chain[i..][0].txs; }
      if InChain(chain[i + 1..], t) {
        var j :| 0 <= j < |chain[i + 1..]| && t in chain[i + 1..][j].txs;
        assert t in chain[i..][j + 1].txs;
      }
      if InChain(chain[i..], t) && t !in chain[i].txs {
        var j :| 0 <= j < |chain[i..]| && t in chain[i..][j].txs;
        assert t in chain[i + 1..][j - 1].txs;
      }
    }
    forall t | InChain(chain[i..], t) ensures exists j :: 0 <= j < |chain[i..]| && EntryIn(r[t], chain[i..][j], t) {
      if t in chain[i].txs {
        assert EntryIn(r[t], chain[i..][0], t);
      } else {
        var j :| 0 <= j < |chain[i + 1..]| && EntryIn(before[t], chain[i + 1..][j], t);
        assert EntryIn(r[t], chain[i..][j + 1], t);
      }
    }
  }

  /** All transactions of a chain, in collection order. */
  method Collect(chain: seq<Block>) returns (txs: seq<TxHash>)
    ensures forall t :: t in txs <==> InChain(chain, t)
  {
    txs := [];
    for i := 0 to |chain|
      invariant forall t :: t in txs <==> exists j :: 0 <= j < i && t in chain[j].txs
    {
      txs := txs + chain[i].txs;
    }
  }

  /** TxDifference: what is in the first list and not in the second. */
  method Difference(a: seq<TxHash>, b: seq<TxHash>) returns (keep: seq<TxHash>)
    ensures forall t :: t in keep <==> t in a && t !in b
  {
    keep := [];
    var remove := set t | t in b;
    for i := 0 to |a|
      invariant forall t :: t in keep <==> t in a[..i] && t !in b
    {
      assert a[..i + 1] == a[..i] + [a[i]];
      if a[i] !in remove {
        keep := keep + [a[i]];
      }
    }
    assert a[..|a|] == a;
  }

  /** The cleaning part of reorg: lookup entries of transactions only the old branch had are deleted. */
  method DropOld(lookup: Lookup, oldChain: seq<Block>, newChain: seq<Block>) returns (r: Lookup)
    ensures forall t :: t in r <==> t in lookup && !(InChain(oldChain, t) && !InChain(newChain, t))
    ensures forall t :: t in r ==> r[t] == lookup[t]
  {
    var deleted := Collect(oldChain);
    var added := Collect(newChain);
    var diff := Difference(deleted, added);
    r := lookup;
    for i := 0 to |diff|
      invariant forall t :: t in r <==> t in lookup && t !in diff[..i]
      invariant forall t :: t in r ==> r[t] == lookup[t]
    {
      assert diff[..i + 1] == diff[..i] + [diff[i]];
      r := r - {diff[i]};
    }
    assert diff[..|diff|] == diff;
  }

  /** A transaction is on a branch above the fork exactly if one of the collected blocks has it. */
  lemma InChainIff(chain: seq<Block>, hs: Headers, bodies: Bodies, genesis: Header, head: Hash, fork: nat, t: TxHash)
    requires Known(hs, bodies, genesis) && head in hs && fork <= hs[head].number
    requires Descends(chain, hs, bodies, genesis, head, fork)
    ensures InChain(chain, t) ==> exists n: nat, i: nat :: fork < n && At(hs, bodies, genesis, head, n, i, t)
    ensures forall n: nat, i: nat :: fork < n && At(hs, bodies, genesis, head, n, i, t) ==> InChain(chain, t)
  {
    if InChain(chain, t) {
      var j :| 0 <= j < |chain| && t in chain[j].txs;
      assert IsBlockAt(chain[j], hs, bodies, genesis, head, hs[head].number - j);
      var i :| 0 <= i < |chain[j].txs| && chain[j].txs[i] == t;
      assert At(hs, bodies, genesis, head, hs[head].number - j, i, t);
    }
    forall n: nat, i: nat | fork < n && At(hs, bodies, genesis, head, n, i, t) ensures InChain(chain, t) {
      var j := hs[head].number - n;
      assert IsBlockAt(chain[j], hs, bodies, genesis, head, n);
      assert chain[j].txs[i] == t;
    }
  }

  /** At and below the fork both branches have the same blocks. */
  lemma SharedBelow(hs: Headers, genesis: Header, old_: Hash, new_: Hash, fork: nat, n: nat)
    requires Tree(hs, genesis) && old_ in hs && new_ in hs && n <= fork <= hs[old_].number && fork <= hs[new_].number
    requires AncestorAt(hs, genesis, old_, fork) == AncestorAt(hs, genesis, new_, fork)
    ensures AncestorAt(hs, genesis, old_, n) == AncestorAt(hs, genesis, new_, n)
  {
    AncestorsCompose(hs, genesis, old_, fork, n);
    AncestorsCompose(hs, genesis, new_, fork, n);
  }

  /** What FindFork establishes: the two branches meet at the fork and were collected down to it. */
  ghost predicate Forked(oldChain: seq<Block>, newChain: seq<Block>, hs: Headers, bodies: Bodies, genesis: Header,
                         old_: Hash, new_: Hash, fork: nat)
    requires Known(hs, bodies, genesis)
  {
    && old_ in hs && new_ in hs && fork <= hs[old_].number && fork <= hs[new_].number
    && AncestorAt(hs, genesis, old_, fork) == AncestorAt(hs, genesis, new_, fork)
    && Descends(oldChain, hs, bodies, genesis, old_, fork)
    && Descends(newChain, hs, bodies, genesis, new_, fork)
  }

  /** The lookup after the new branch was written over it and what only the old one had was deleted. */
  ghost predicate Swapped(l0: Lookup, l1: Lookup, l2: Lookup, oldChain: seq<Block>, newChain: seq<Block>) {
    && LookupAfter(l0, l1, newChain)
    && (forall t :: t in l2 <==> t in l1 && !(InChain(oldChain, t) && !InChain(newChain, t)))
    && (forall t :: t in l2 ==> l2[t] == l1[t])
  }

  lemma PointsRerouted(l0: Lookup, l1: Lookup, l2: Lookup, oldChain: seq<Block>, newChain: seq<Block>,
                       hs: Headers, bodies: Bodies, genesis: Header, old_: Hash, new_: Hash, fork: nat, t: TxHash)
    requires Known(hs, bodies, genesis) && Forked(oldChain, newChain, hs, bodies, genesis, old_, new_, fork)
    requires LookupExact(l0, hs, bodies, genesis, old_)
    requires Swapped(l0, l1, l2, oldChain, newChain) && t in l2
    ensures PointsAt(hs, bodies, genesis, new_, t, l2[t])
  {
    if InChain(newChain, t) {
      var j :| 0 <= j < |newChain| && EntryIn(l1[t], newChain[j], t);
      assert IsBlockAt(newChain[j], hs, bodies, genesis, new_, hs[new_].number - j);
      assert Linked(hs, genesis, AncestorAt(hs, genesis, new_, hs[new_].number - j));
    } else {
      var e := l0[t];
      assert PointsAt(hs, bodies, genesis, old_, t, e);
      InChainIff(oldChain, hs, bodies, genesis, old_, fork, t);
      SharedBelow(hs, genesis, old_, new_, fork, e.number);
    }
  }

  lemma CoversRerouted(l0: Lookup, l1: Lookup, l2: Lookup, oldChain: seq<Block>, newChain: seq<Block>, hs: Headers,
                       bodies: Bodies, genesis: Header, old_: Hash, new_: Hash, fork: nat, n: nat, i: nat, t: TxHash)
    requires Known(hs, bodies, genesis) && Forked(oldChain, newChain, hs, bodies, genesis, old_, new_, fork)
    requires LookupExact(l0, hs, bodies, genesis, old_) && BranchDistinct(hs, bodies, genesis, old_)
    requires Swapped(l0, l1, l2, oldChain, newChain) && At(hs, bodies, genesis, new_, n, i, t)
    ensures t in l2
  {
    InChainIff(newChain, hs, bodies, genesis, new_, fork, t);
    if n <= fork {
      SharedBelow(hs, genesis, old_, new_, fork, n);
      assert At(hs, bodies, genesis, old_, n, i, t);
      InChainIff(oldChain, hs, bodies, genesis, old_, fork, t);
    }
  }

  /**
   Inserting the new branch and dropping what only the old one had makes the lookup exact for the
   new head.
   */
  lemma LookupRerouted(l0: Lookup, l1: Lookup, l2: Lookup, oldChain: seq<Block>, newChain: seq<Block>,
                       hs: Headers, bodies: Bodies, genesis: Header, old_: Hash, new_: Hash, fork: nat)
    requires Known(hs, bodies, genesis) && Forked(oldChain, newChain, hs, bodies, genesis, old_, new_, fork)
    requires LookupExact(l0, hs, bodies, genesis, old_) && BranchDistinct(hs, bodies, genesis, old_)
    requires Swapped(l0, l1, l2, oldChain, newChain)
    ensures LookupExact(l2, hs, bodies, genesis, new_)
  {
    forall t | t in l2 ensures PointsAt(hs, bodies, genesis, new_, t, l2[t]) {
      PointsRerouted(l0, l1, l2, oldChain, newChain, hs, bodies, genesis, old_, new_, fork, t);
    }
    forall n: nat, i: nat, t: TxHash | At(hs, bodies, genesis, new_, n, i, t) ensures t in l2 {
      CoversRerouted(l0, l1, l2, oldChain, newChain, hs, bodies, genesis, old_, new_, fork, n, i, t);
    }
  }

  /** Rewriting the index above the fork makes it right for the new head up to its number. */
  lemma IndexRerouted(canon: map<nat, Hash>, r: map<nat, Hash>, oldChain: seq<Block>, newChain: seq<Block>,
                      hs: Headers, bodies: Bodies, genesis: Header, old_: Hash, new_: Hash, fork: nat)
    requires Known(hs, bodies, genesis) && Forked(oldChain, newChain, hs, bodies, genesis, old_, new_, fork)
    requires IndexesUpTo(canon, hs, genesis, old_)
    requires forall i :: 0 <= i < |newChain| ==>
               newChain[i].header.number in r && r[newChain[i].header.number] == newChain[i].header.hash
    requires forall n :: n in canon && (forall i :: 0 <= i < |newChain| ==> newChain[i].header.number != n) ==>
               n in r && r[n] == canon[n]
    ensures IndexesUpTo(r, hs, genesis, new_)
  {
    forall n: nat | n <= hs[new_].number ensures IndexedAt(r, hs, genesis, new_, n) {
      if n <= fork {
        assert IndexedAt(canon, hs, genesis, old_, n);
        SharedBelow(hs, genesis, old_, new_, fork, n);
        assert forall i :: 0 <= i < |newChain| ==>
                 IsBlockAt(newChain[i], hs, bodies, genesis, new_, hs[new_].number - i);
      } else {
        var j := hs[new_].number - n;
        assert IsBlockAt(newChain[j], hs, bodies, genesis, new_, n);
        assert Linked(hs, genesis, AncestorAt(hs, genesis, new_, n));
      }
    }
  }

  /** BlockChain.reorg: moves the index and the lookup from the old head's branch to the new head's. */
  method Reorg(db: Headers, dbBodies: Bodies, canon: map<nat, Hash>, lookup: Lookup, oldHead: Block, newHead: Block,
               ghost hs: Headers, ghost bodies: Bodies, genesis: Header)
    returns (newCanon: map<nat, Hash>, newLookup: Lookup)
    requires Known(hs, bodies, genesis) && ParentsStored(db, dbBodies, hs, bodies)
    requires IsHead(oldHead, hs, bodies) && IsHead(newHead, hs, bodies)
    requires IndexesUpTo(canon, hs, genesis, oldHead.header.hash)
    requires LookupExact(lookup, hs, bodies, genesis, oldHead.header.hash)
    requires BranchDistinct(hs, bodies, genesis, oldHead.header.hash)
    ensures IndexesUpTo(newCanon, hs, genesis, newHead.header.hash)
    ensures LookupExact(newLookup, hs, bodies, genesis, newHead.header.hash)
  {
    ghost var old_, new_ := oldHead.header.hash, newHead.header.hash;
    var oldChain, newChain, fork := FindFork(db, dbBodies, oldHead, newHead, hs, bodies, genesis);
    NumbersDiffer(newChain, hs, bodies, genesis, new_, fork);
    var added;
    newCanon, added := InsertChain(canon, lookup, newChain);
    newLookup := DropOld(added, oldChain, newChain);
    IndexRerouted(canon, newCanon, oldChain, newChain, hs, bodies, genesis, old_, new_, fork);
    LookupRerouted(lookup, added, newLookup, oldChain, newChain, hs, bodies, genesis, old_, new_, fork);
  }

  lemma NumbersDiffer(chain: seq<Block>, hs: Headers, bodies: Bodies, genesis: Header, head: Hash, down: nat)
    requires Known(hs, bodies, genesis) && head in hs && down <= hs[head].number
    requires Descends(chain, hs, bodies, genesis, head, down)
    ensures forall i, j :: 0 <= i < j < |chain| ==> chain[i].header.number != chain[j].header.number
  {
    forall i, j | 0 <= i < j < |chain| ensures chain[i].header.number != chain[j].header.number {
      assert IsBlockAt(chain[i], hs, bodies, genesis, head, hs[head].number - i);
      assert IsBlockAt(chain[j], hs, bodies, genesis, head, hs[head].number - j);
    }
  }

  /** Writing a block's own entries keeps a lookup that is exact for it, and makes its parent's lookup exact for it. */
  lemma LookupOfHead(lookup: Lookup, r: Lookup, b: Block, hs: Headers, bodies: Bodies, genesis: Header)
    requires Known(hs, bodies, genesis) && IsHead(b, hs, bodies) && Overwritten(lookup, r, b)
    requires LookupExact(lookup, hs, bodies, genesis, b.header.hash)
          || (b.header.number > 0 && b.header.parent in hs && LookupExact(lookup, hs, bodies, genesis, b.header.parent))
    ensures LookupExact(r, hs, bodies, genesis, b.header.hash)
  {
    var k := b.header.hash;
    assert Linked(hs, genesis, k);
    var was := if LookupExact(lookup, hs, bodies, genesis, k) then k else b.header.parent;
    forall t | t in r ensures PointsAt(hs, bodies, genesis, k, t, r[t]) {
      if t !in b.txs { assert PointsAt(hs, bodies, genesis, was, t, lookup[t]); }
    }
    forall n: nat, i: nat, t: TxHash | At(hs, bodies, genesis, k, n, i, t) ensures t in r {
      if n < b.header.number {
        assert At(hs, bodies, genesis, b.header.parent, n, i, t);
        assert was == k ==> At(hs, bodies, genesis, was, n, i, t);
      }
    }
  }

  /** Extending the head by one block extends the index by one entry. */
  lemma IndexOfHead(canon: map<nat, Hash>, hs: Headers, genesis: Header, k: Hash)
    requires Tree(hs, genesis) && k in hs
    requires IndexesUpTo(canon, hs, genesis, k)
          || (hs[k].number > 0 && hs[k].parent in hs && IndexesUpTo(canon, hs, genesis, hs[k].parent))
    ensures IndexesUpTo(canon[hs[k].number := k], hs, genesis, k)
  {
    assert Linked(hs, genesis, k);
    var was := if IndexesUpTo(canon, hs, genesis, k) then k else hs[k].parent;
    var r := canon[hs[k].number := k];
    forall n: nat | n <= hs[k].number ensures IndexedAt(r, hs, genesis, k, n) {
      if n < hs[k].number { assert IndexedAt(canon, hs, genesis, was, n); }
    }
  }

  /**
   The canonical branch of WriteBlockWithState: reorganises unless the block extends the head, then
   writes the block's lookup entries and inserts it as the head.
   */
  method MakeHead(db: Headers, dbBodies: Bodies, canon: map<nat, Hash>, lookup: Lookup, head: Block, b: Block,
                  ghost hs: Headers, ghost bodies: Bodies, genesis: Header)
    returns (newCanon: map<nat, Hash>, newLookup: Lookup)
    requires Known(hs, bodies, genesis) && ParentsStored(db, dbBodies, hs, bodies)
    requires IsHead(head, hs, bodies) && IsHead(b, hs, bodies) && b.header.number > 0
    requires IndexesUpTo(canon, hs, genesis, head.header.hash)
    requires LookupExact(lookup, hs, bodies, genesis, head.header.hash)
    requires BranchDistinct(hs, bodies, genesis, head.header.hash)
    ensures IndexesUpTo(newCanon, hs, genesis, b.header.hash)
    ensures LookupExact(newLookup, hs, bodies, genesis, b.header.hash)
  {
    newCanon, newLookup := canon, lookup;
    if b.header.parent != head.header.hash {
      newCanon, newLookup := Reorg(db, dbBodies, canon, lookup, head, b, hs, bodies, genesis);
    }
    ghost var before := newLookup;
    newLookup := WriteEntries(newLookup, b);
    LookupOfHead(before, newLookup, b, hs, bodies, genesis);
    IndexOfHead(newCanon, hs, genesis, b.header.hash);
    newCanon := newCanon[b.header.number := b.header.hash];
  }

  /** Every known block is genuine, carries its total difficulty and repeats no transaction of its branch. */
  ghost predicate BlocksOk(hs: Headers, bodies: Bodies, tds: map<Hash, int>, genesis: Header, preimage: Hash -> Block) {
    && Known(hs, bodies, genesis)
    && tds.Keys == hs.Keys
    && forall k {:trigger BlockOk(hs, bodies, tds, genesis, preimage, k)} ::
         k in hs ==> BlockOk(hs, bodies, tds, genesis, preimage, k)
  }

  ghost predicate BlockOk(hs: Headers, bodies: Bodies, tds: map<Hash, int>, genesis: Header, preimage: Hash -> Block,
                          k: Hash)
    requires Known(hs, bodies, genesis) && k in hs && k in tds
  {
    && preimage(k) == Block(hs[k], bodies[k])
    && tds[k] == TotalDifficulty(hs, genesis, k)
    && BranchDistinct(hs, bodies, genesis, k)
  }

  /** The index up to the head is the head's ancestry and the lookup is exactly its transactions. */
  ghost predicate ChainOk(canon: map<nat, Hash>, lookup: Lookup, hs: Headers, bodies: Bodies, genesis: Header,
                          current: Block)
    requires Known(hs, bodies, genesis)
  {
    && IsHead(current, hs, bodies)
    && IndexesUpTo(canon, hs, genesis, current.header.hash)
    && LookupExact(lookup, hs, bodies, genesis, current.header.hash)
  }

  /** None of the block's transactions is on its parent's branch. */
  ghost predicate NewOnBranch(hs: Headers, bodies: Bodies, genesis: Header, b: Block)
    requires Known(hs, bodies, genesis) && b.header.parent in hs
  {
    forall n, i, t :: At(hs, bodies, genesis, b.header.parent, n, i, t) ==> t !in b.txs
  }

  /** The larger tree has the same branches. */
  lemma BranchAgrees(hs: Headers, bodies: Bodies, r: Headers, rb: Bodies, genesis: Header, k: Hash, n: nat, i: nat,
                     t: TxHash)
    requires Known(hs, bodies, genesis) && Known(r, rb, genesis) && k in hs
    requires forall x :: x in hs ==> x in r && r[x] == hs[x] && rb[x] == bodies[x]
    ensures At(r, rb, genesis, k, n, i, t) <==> At(hs, bodies, genesis, k, n, i, t)
    ensures n <= hs[k].number ==> AncestorAt(r, genesis, k, n) == AncestorAt(hs, genesis, k, n)
  {
    if n <= hs[k].number { AncestorsAgree(hs, r, genesis, k, n); }
  }

  lemma DistinctAgrees(hs: Headers, bodies: Bodies, r: Headers, rb: Bodies, genesis: Header, k: Hash)
    requires Known(hs, bodies, genesis) && Known(r, rb, genesis) && k in hs
    requires forall x :: x in hs ==> x in r && r[x] == hs[x] && rb[x] == bodies[x]
    requires BranchDistinct(hs, bodies, genesis, k)
    ensures BranchDistinct(r, rb, genesis, k)
  {
    forall n: nat, m: nat, i: nat, j: nat, t: TxHash | At(r, rb, genesis, k, n, i, t) && At(r, rb, genesis, k, m, j, t)
      ensures n == m
    {
      BranchAgrees(hs, bodies, r, rb, genesis, k, n, i, t);
      BranchAgrees(hs, bodies, r, rb, genesis, k, m, j, t);
    }
  }

  lemma DistinctExtends(hs: Headers, bodies: Bodies, r: Headers, rb: Bodies, genesis: Header, b: Block)
    requires Known(hs, bodies, genesis) && Known(r, rb, genesis) && IsHead(b, r, rb)
    requires forall x :: x in hs ==> x in r && r[x] == hs[x] && rb[x] == bodies[x]
    requires b.header.number > 0 && b.header.parent in hs && NewOnBranch(hs, bodies, genesis, b)
    requires BranchDistinct(hs, bodies, genesis, b.header.parent)
    ensures BranchDistinct(r, rb, genesis, b.header.hash)
  {
    var k, p := b.header.hash, b.header.parent;
    assert Linked(r, genesis, k);
    forall n: nat, m: nat, i: nat, j: nat, t: TxHash | At(r, rb, genesis, k, n, i, t) && At(r, rb, genesis, k, m, j, t)
      ensures n == m
    {
      BranchAgrees(hs, bodies, r, rb, genesis, p, n, i, t);
      BranchAgrees(hs, bodies, r, rb, genesis, p, m, j, t);
      assert n < r[k].number ==> At(r, rb, genesis, p, n, i, t);
      assert m < r[k].number ==> At(r, rb, genesis, p, m, j, t);
    }
  }

  lemma ChainAgrees(canon: map<nat, Hash>, lookup: Lookup, hs: Headers, bodies: Bodies, r: Headers, rb: Bodies,
                    genesis: Header, current: Block)
    requires Known(hs, bodies, genesis) && Known(r, rb, genesis) && ChainOk(canon, lookup, hs, bodies, genesis, current)
    requires forall x :: x in hs ==> x in r && r[x] == hs[x] && rb[x] == bodies[x]
    ensures ChainOk(canon, lookup, r, rb, genesis, current)
  {
    var k := current.header.hash;
    IndexAgrees(canon, hs, r, genesis, k);
    forall t | t in lookup ensures PointsAt(r, rb, genesis, k, t, lookup[t]) {
      assert PointsAt(hs, bodies, genesis, k, t, lookup[t]);
      BranchAgrees(hs, bodies, r, rb, genesis, k, lookup[t].number, lookup[t].index, t);
    }
    forall n: nat, i: nat, t: TxHash | At(r, rb, genesis, k, n, i, t) ensures t in lookup {
      BranchAgrees(hs, bodies, r, rb, genesis, k, n, i, t);
    }
  }

  /** Storing a block keeps everything known about the others and about the head. */
  lemma StoreBlock(hs: Headers, bodies: Bodies, tds: map<Hash, int>, genesis: Header, preimage: Hash -> Block,
                   b: Block, td: int)
    requires BlocksOk(hs, bodies, tds, genesis, preimage) && preimage(b.header.hash) == b
    requires b.header.parent in hs && b.header.number == hs[b.header.parent].number + 1
    requires td == b.header.difficulty + tds[b.header.parent] && NewOnBranch(hs, bodies, genesis, b)
    ensures BlocksOk(hs[b.header.hash := b.header], bodies[b.header.hash := b.txs], tds[b.header.hash := td], genesis,
                     preimage)
    ensures ParentsStored(hs, bodies, hs[b.header.hash := b.header], bodies[b.header.hash := b.txs])
    ensures forall x :: x in hs ==>
              hs[b.header.hash := b.header][x] == hs[x] && bodies[b.header.hash := b.txs][x] == bodies[x]
  {
    var k := b.header.hash;
    var r, rb, rt := hs[k := b.header], bodies[k := b.txs], tds[k := td];
    assert k in hs ==> BlockOk(hs, bodies, tds, genesis, preimage, k);
    TreeExtends(hs, genesis, b.header);
    assert Linked(r, genesis, k);
    assert BlockOk(hs, bodies, tds, genesis, preimage, b.header.parent);
    DifficultiesAgree(hs, r, genesis, b.header.parent);
    forall x | x in r ensures BlockOk(r, rb, rt, genesis, preimage, x) {
      if x == k {
        DistinctExtends(hs, bodies, r, rb, genesis, b);
      } else {
        assert BlockOk(hs, bodies, tds, genesis, preimage, x);
        DistinctAgrees(hs, bodies, r, rb, genesis, x);
        DifficultiesAgree(hs, r, genesis, x);
      }
    }
    forall x | x in r ensures ParentStored(hs, bodies, r, rb, x) {
      assert Linked(r, genesis, x);
      assert x in hs ==> Linked(hs, genesis, x) && x == genesis.hash ==> hs[x].number == 0;
    }
  }

  class Chain {
    const genesis: Header
    ghost const preimage: Hash -> Block   // no two blocks share a hash
    var headers: Headers
    var bodies: Bodies
    var tds: map<Hash, int>
    var canon: map<nat, Hash>
    var lookup: Lookup
    var current: Block

    ghost predicate Valid()
      reads this
    {
      && BlocksOk(headers, bodies, tds, genesis, preimage)
      && ChainOk(canon, lookup, headers, bodies, genesis, current)
    }

    /** No known block has a greater total difficulty than the head. */
    ghost predicate Heaviest()
      reads this
      requires Valid()
    {
      HeaviestOf(headers.Keys, headers, genesis, current.header.hash)
    }

    /** Of the known blocks as heavy as the head none is lower. */
    ghost predicate Lowest()
      reads this
      requires Valid()
    {
      LowestOf(headers, genesis, current.header.hash)
    }

    constructor (genesisBlock: Block, ghost preimage: Hash -> Block)
      requires genesisBlock.header.number == 0 && genesisBlock.txs == []
      requires preimage(genesisBlock.header.hash) == genesisBlock
      ensures Valid() && Heaviest() && Lowest() && current == genesisBlock && this.preimage == preimage
      ensures genesis == genesisBlock.header
    {
      var k := genesisBlock.header.hash;
      genesis, this.preimage := genesisBlock.header, preimage;
      headers, bodies, tds := map[k := genesisBlock.header], map[k := []], map[k := genesisBlock.header.difficulty];
      canon, lookup, current := map[0 := k], map[], genesisBlock;
      new;
      GenesisOk(genesisBlock, preimage);
    }

    /** Whether a block of this total difficulty replaces the head: heavier, or as heavy and lower, or by the coin. */
    predicate Wins(externTd: int, b: Block, coin: bool)
      reads this
      requires current.header.hash in tds
    {
      var localTd := tds[current.header.hash];
      || externTd > localTd
      || (externTd == localTd
          && (b.header.number < current.header.number || (b.header.number == current.header.number && coin)))
    }

    /**
     Writes a block whose parent is known.  If it wins, the index up to it becomes its ancestry and
     the lookup exactly its branch's transactions; otherwise both stay.
     */
    method WriteBlockWithState(b: Block, coin: bool) returns (status: WriteStatus)
      requires Valid() && preimage(b.header.hash) == b
      requires b.header.parent in headers ==>
                 b.header.number == headers[b.header.parent].number + 1 && NewOnBranch(headers, bodies, genesis, b)
      modifies this
      ensures Valid() && (old(Heaviest()) ==> Heaviest()) && (old(Heaviest() && Lowest()) ==> Lowest())
      ensures status == UnknownAncestor <==> b.header.parent !in old(headers)
      ensures status == UnknownAncestor ==> headers == old(headers) && current == old(current)
      ensures status != UnknownAncestor ==>
                headers == old(headers)[b.header.hash := b.header] && bodies == old(bodies)[b.header.hash := b.txs]
      ensures status == Canonical ==> current == b
      ensures status == Side ==> current == old(current) && canon == old(canon) && lookup == old(lookup)
      ensures b.header.parent in old(headers) ==>
                var extern := b.header.difficulty + TotalDifficulty(old(headers), genesis, b.header.parent);
                var local := TotalDifficulty(old(headers), genesis, old(current).header.hash);
                var (height, at) := (b.header.number, old(current).header.number);
                && (extern > local || (extern == local && height < at) ==> status == Canonical)
                && (extern < local || (extern == local && height > at) ==> status == Side)
                && (extern == local && height == at ==> status == if coin then Canonical else Side)
    {
      if b.header.parent !in tds {
        return UnknownAncestor;
      }
      assert BlockOk(headers, bodies, tds, genesis, preimage, b.header.parent);
      assert BlockOk(headers, bodies, tds, genesis, preimage, current.header.hash);
      var externTd := b.header.difficulty + tds[b.header.parent];
      var wins := Wins(externTd, b, coin);
      StoreBlock(headers, bodies, tds, genesis, preimage, b, externTd);
      HeadStaysHeaviest(headers, bodies, tds, genesis, preimage, current.header.hash, b);
      HeadStaysLowest(headers, bodies, tds, genesis, preimage, current.header.hash, b);
      var hs, bs := headers[b.header.hash := b.header], bodies[b.header.hash := b.txs];
      var ts := tds[b.header.hash := externTd];
      ChainAgrees(canon, lookup, headers, bodies, hs, bs, genesis, current);
      assert BlockOk(hs, bs, ts, genesis, preimage, current.header.hash);
      if wins {
        var c, l := MakeHead(headers, bodies, canon, lookup, current, b, hs, bs, genesis);
        Adopt(hs, bs, ts, c, l, b);
        return Canonical;
      }
      Adopt(hs, bs, ts, canon, lookup, current);
      return Side;
    }

    method Adopt(hs: Headers, bs: Bodies, ts: map<Hash, int>, c: map<nat, Hash>, l: Lookup, head: Block)
      modifies this
      ensures headers == hs && bodies == bs && tds == ts && canon == c && lookup == l && current == head
    {
      headers, bodies, tds, canon, lookup, current := hs, bs, ts, c, l, head;
    }

    /**
     Every run of block writes.  Afterwards no known block is heavier than the head, none as heavy
     is lower, each number up to the head's is indexed to the head's ancestor there, and the lookup holds exactly the
     transactions of that chain.
     */
    method Run(arrivals: seq<Block>, coins: nat -> bool)
      requires Valid()
      requires forall b :: b in arrivals ==>
                 preimage(b.header.hash) == b && b.header.number == preimage(b.header.parent).header.number + 1
      requires forall b :: b in arrivals ==> FreshTxs(preimage, b)
      modifies this
      ensures Valid() && (old(Heaviest()) ==> Heaviest())
      ensures old(Heaviest() && Lowest()) ==>
                forall k :: k in headers ==>
                  var td, most := TotalDifficulty(headers, genesis, k),
                                  TotalDifficulty(headers, genesis, current.header.hash);
                  td < most || (td == most && current.header.number <= headers[k].number)
      ensures forall n: nat :: n <= current.header.number ==>
                n in canon && canon[n] == AncestorAt(headers, genesis, current.header.hash, n)
      ensures forall t :: t in lookup ==> PointsAt(headers, bodies, genesis, current.header.hash, t, lookup[t])
      ensures forall n, i, t :: At(headers, bodies, genesis, current.header.hash, n, i, t) ==> t in lookup
    {
      for i := 0 to |arrivals|
        invariant Valid() && (old(Heaviest()) ==> Heaviest()) && (old(Heaviest() && Lowest()) ==> Lowest())
      {
        var b := arrivals[i];
        assert b in arrivals;
        if b.header.parent in headers {
          assert BlockOk(headers, bodies, tds, genesis, preimage, b.header.parent);
          FreshIsNew(headers, bodies, tds, genesis, preimage, b);
        }
        var status := WriteBlockWithState(b, coins(i));
      }
      if old(Heaviest() && Lowest()) {
        BestSpelled(headers, genesis, current.header.hash);
      }
      forall n: nat | n <= current.header.number
        ensures n in canon && canon[n] == AncestorAt(headers, genesis, current.header.hash, n)
      {
        assert IndexedAt(canon, headers, genesis, current.header.hash, n);
      }
    }
  }

  /** The transactions of a block and of n of its ancestors. */
  ghost function PathTxs(preimage: Hash -> Block, k: Hash, n: nat): set<TxHash>
    decreases n
  {
    (set t | t in preimage(k).txs) + if n == 0 then {} else PathTxs(preimage, preimage(k).header.parent, n - 1)
  }

  /** The block repeats no transaction of the path it extends. */
  ghost predicate FreshTxs(preimage: Hash -> Block, b: Block) {
    var p := b.header.parent;
    forall t :: t in b.txs ==> t !in PathTxs(preimage, p, preimage(p).header.number)
  }

  lemma {:induction false} BranchOnPath(hs: Headers, bodies: Bodies, tds: map<Hash, int>, genesis: Header,
                                        preimage: Hash -> Block, k: Hash, n: nat, i: nat, t: TxHash)
    requires BlocksOk(hs, bodies, tds, genesis, preimage) && k in hs
    requires At(hs, bodies, genesis, k, n, i, t)
    ensures t in PathTxs(preimage, k, hs[k].number)
    decreases hs[k].number
  {
    assert Linked(hs, genesis, k) && BlockOk(hs, bodies, tds, genesis, preimage, k);
    if n < hs[k].number {
      assert At(hs, bodies, genesis, hs[k].parent, n, i, t);
      BranchOnPath(hs, bodies, tds, genesis, preimage, hs[k].parent, n, i, t);
    }
  }

  lemma FreshIsNew(hs: Headers, bodies: Bodies, tds: map<Hash, int>, genesis: Header, preimage: Hash -> Block, b: Block)
    requires BlocksOk(hs, bodies, tds, genesis, preimage) && b.header.parent in hs && FreshTxs(preimage, b)
    ensures NewOnBranch(hs, bodies, genesis, b)
  {
    var p := b.header.parent;
    assert BlockOk(hs, bodies, tds, genesis, preimage, p);
    forall n: nat, i: nat, t: TxHash | At(hs, bodies, genesis, p, n, i, t) ensures t !in b.txs {
      BranchOnPath(hs, bodies, tds, genesis, preimage, p, n, i, t);
    }
  }

  ghost predicate LowestOf(hs: Headers, genesis: Header, head: Hash)
    requires Tree(hs, genesis) && head in hs
  {
    forall k {:trigger NoLower(hs, genesis, k, head)} :: k in hs ==> NoLower(hs, genesis, k, head)
  }

  ghost predicate NoLower(hs: Headers, genesis: Header, k: Hash, head: Hash)
    requires Tree(hs, genesis) && k in hs && head in hs
  {
    TotalDifficulty(hs, genesis, k) == TotalDifficulty(hs, genesis, head) ==> hs[head].number <= hs[k].number
  }

  lemma BestSpelled(hs: Headers, genesis: Header, head: Hash)
    requires Tree(hs, genesis) && head in hs && HeaviestOf(hs.Keys, hs, genesis, head) && LowestOf(hs, genesis, head)
    ensures forall k :: k in hs ==>
              var td, most := TotalDifficulty(hs, genesis, k), TotalDifficulty(hs, genesis, head);
              td < most || (td == most && hs[head].number <= hs[k].number)
  {
    forall k | k in hs
      ensures var td, most := TotalDifficulty(hs, genesis, k), TotalDifficulty(hs, genesis, head);
              td < most || (td == most && hs[head].number <= hs[k].number)
    {
      assert NoHeavier(hs, genesis, k, head) && NoLower(hs, genesis, k, head);
    }
  }

  /** Of two as heavy the lower one is the lowest of the heaviest; a heavier one has no equal. */
  lemma HeadStaysLowest(hs: Headers, bodies: Bodies, tds: map<Hash, int>, genesis: Header, preimage: Hash -> Block,
                        head: Hash, b: Block)
    requires BlocksOk(hs, bodies, tds, genesis, preimage) && preimage(b.header.hash) == b && head in hs
    requires b.header.parent in hs && b.header.number == hs[b.header.parent].number + 1
    ensures var r, extern := hs[b.header.hash := b.header], b.header.difficulty + tds[b.header.parent];
            && Tree(r, genesis)
            && (HeaviestOf(hs.Keys, hs, genesis, head) && LowestOf(hs, genesis, head) ==>
                  && (tds[head] < extern || (tds[head] == extern && b.header.number <= hs[head].number) ==>
                        LowestOf(r, genesis, b.header.hash))
                  && (extern < tds[head] || (tds[head] == extern && hs[head].number <= b.header.number) ==>
                        LowestOf(r, genesis, head)))
  {
    var r, new_ := hs[b.header.hash := b.header], b.header.hash;
    assert new_ in hs ==> BlockOk(hs, bodies, tds, genesis, preimage, new_);
    assert BlockOk(hs, bodies, tds, genesis, preimage, b.header.parent);
    assert BlockOk(hs, bodies, tds, genesis, preimage, head);
    TreeExtends(hs, genesis, b.header);
    assert Linked(r, genesis, new_);
    DifficultiesAgree(hs, r, genesis, b.header.parent);
    DifficultiesAgree(hs, r, genesis, head);
    if HeaviestOf(hs.Keys, hs, genesis, head) && LowestOf(hs, genesis, head) {
      BestSpelled(hs, genesis, head);
      forall k | k in hs ensures TotalDifficulty(r, genesis, k) == TotalDifficulty(hs, genesis, k) {
        DifficultiesAgree(hs, r, genesis, k);
      }
    }
  }

  /** Whichever of the head and the new block is the heavier one has no heavier block beside it. */
  lemma HeadStaysHeaviest(hs: Headers, bodies: Bodies, tds: map<Hash, int>, genesis: Header, preimage: Hash -> Block,
                          head: Hash, b: Block)
    requires BlocksOk(hs, bodies, tds, genesis, preimage) && preimage(b.header.hash) == b && head in hs
    requires b.header.parent in hs && b.header.number == hs[b.header.parent].number + 1
    ensures var r, extern := hs[b.header.hash := b.header], b.header.difficulty + tds[b.header.parent];
            && Tree(r, genesis)
            && (HeaviestOf(hs.Keys, hs, genesis, head) && tds[head] <= extern ==>
                  HeaviestOf(r.Keys, r, genesis, b.header.hash))
            && (HeaviestOf(hs.Keys, hs, genesis, head) && extern <= tds[head] ==>
                  HeaviestOf(r.Keys, r, genesis, head))
  {
    assert b.header.hash in hs ==> BlockOk(hs, bodies, tds, genesis, preimage, b.header.hash);
    assert BlockOk(hs, bodies, tds, genesis, preimage, b.header.parent);
    assert BlockOk(hs, bodies, tds, genesis, preimage, head);
    TreeExtends(hs, genesis, b.header);
    if HeaviestOf(hs.Keys, hs, genesis, head) {
      HeavierOfTwo(hs.Keys, hs, genesis, head, b.header);
      assert hs[b.header.hash := b.header].Keys == hs.Keys + {b.header.hash};
    }
  }

  lemma GenesisOk(g: Block, preimage: Hash -> Block)
    requires g.header.number == 0 && g.txs == [] && preimage(g.header.hash) == g
    ensures var k := g.header.hash;
            var hs, bodies, tds := map[k := g.header], map[k := []], map[k := g.header.difficulty];
            BlocksOk(hs, bodies, tds, g.header, preimage) && ChainOk(map[0 := k], map[], hs, bodies, g.header, g)
  {
  }
}
