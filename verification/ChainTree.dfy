/**
 Headers linked by parent hashes into a tree rooted at genesis: ancestors by height, total
 difficulty along the path to genesis, and the canonical number index of a head.
 */
module ChainTree {
  import opened Types

  datatype Header = Header(hash: Hash, parent: Hash, number: nat, difficulty: int)

  type Headers = map<Hash, Header>

  /** What became of a header or block that was written. */
  datatype WriteStatus = UnknownAncestor | Canonical | Side

  /** Every known header descends from genesis, one number at a time. */
  ghost predicate Tree(hs: Headers, genesis: Header) {
    && genesis.number == 0
    && genesis.hash in hs && hs[genesis.hash] == genesis
    && forall k {:trigger Linked(hs, genesis, k)} :: k in hs ==> Linked(hs, genesis, k)
  }

  ghost predicate Linked(hs: Headers, genesis: Header, k: Hash)
    requires k in hs
  {
    && hs[k].hash == k
    && (k == genesis.hash || (hs[k].parent in hs && hs[k].number == hs[hs[k].parent].number + 1))
  }

  /** The ancestor of k at height n. */
  ghost function AncestorAt(hs: Headers, genesis: Header, k: Hash, n: nat): (a: Hash)
    requires Tree(hs, genesis) && k in hs && n <= hs[k].number
    ensures a in hs && hs[a].number == n
    decreases hs[k].number
  {
    assert Linked(hs, genesis, k);
    if n == hs[k].number then k else AncestorAt(hs, genesis, hs[k].parent, n)
  }

  /** The sum of difficulties from k down to genesis. */
  ghost function TotalDifficulty(hs: Headers, genesis: Header, k: Hash): int
    requires Tree(hs, genesis) && k in hs
    decreases hs[k].number
  {
    assert Linked(hs, genesis, k);
    if k == genesis.hash then genesis.difficulty
    else hs[k].difficulty + TotalDifficulty(hs, genesis, hs[k].parent)
  }

  /** Only genesis has height zero. */
  lemma RootIsGenesis(hs: Headers, genesis: Header, k: Hash)
    requires Tree(hs, genesis) && k in hs && hs[k].number == 0
    ensures k == genesis.hash
  {
    assert Linked(hs, genesis, k);
  }

  /** An ancestor of an ancestor is an ancestor. */
  lemma {:induction false} AncestorsCompose(hs: Headers, genesis: Header, k: Hash, m: nat, n: nat)
    requires Tree(hs, genesis) && k in hs && n <= m <= hs[k].number
    ensures AncestorAt(hs, genesis, AncestorAt(hs, genesis, k, m), n) == AncestorAt(hs, genesis, k, n)
    decreases hs[k].number
  {
    assert Linked(hs, genesis, k);
    if m < hs[k].number {
      AncestorsCompose(hs, genesis, hs[k].parent, m, n);
    }
  }

  /** Adding a header whose parent is known keeps the tree. */
  lemma TreeExtends(hs: Headers, genesis: Header, h: Header)
    requires Tree(hs, genesis)
    requires h.hash in hs ==> hs[h.hash] == h
    requires h.parent in hs && h.number == hs[h.parent].number + 1
    ensures Tree(hs[h.hash := h], genesis)
  {
    var r := hs[h.hash := h];
    forall k | k in r ensures Linked(r, genesis, k) {
      if k in hs { assert Linked(hs, genesis, k); }
    }
  }

  /** Larger trees agree on ancestors and difficulties of what the smaller one holds. */
  lemma {:induction false} AncestorsAgree(hs: Headers, r: Headers, genesis: Header, k: Hash, n: nat)
    requires Tree(hs, genesis) && Tree(r, genesis)
    requires forall x :: x in hs ==> x in r && r[x] == hs[x]
    requires k in hs && n <= hs[k].number
    ensures AncestorAt(r, genesis, k, n) == AncestorAt(hs, genesis, k, n)
    decreases hs[k].number
  {
    assert Linked(hs, genesis, k);
    if n < hs[k].number { AncestorsAgree(hs, r, genesis, hs[k].parent, n); }
  }

  lemma {:induction false} DifficultiesAgree(hs: Headers, r: Headers, genesis: Header, k: Hash)
    requires Tree(hs, genesis) && Tree(r, genesis)
    requires forall x :: x in hs ==> x in r && r[x] == hs[x]
    requires k in hs
    ensures TotalDifficulty(r, genesis, k) == TotalDifficulty(hs, genesis, k)
    decreases hs[k].number
  {
    assert Linked(hs, genesis, k);
    if k != genesis.hash { DifficultiesAgree(hs, r, genesis, hs[k].parent); }
  }

  /** The index maps every number up to the head's to the head's ancestor there, and nothing above. */
  ghost predicate Indexes(canon: map<nat, Hash>, hs: Headers, genesis: Header, head: Hash)
    requires Tree(hs, genesis)
  {
    && IndexesUpTo(canon, hs, genesis, head)
    && forall n: nat :: n in canon ==> n <= hs[head].number
  }

  /** The index maps every number up to the head's to the head's ancestor there. */
  ghost predicate IndexesUpTo(canon: map<nat, Hash>, hs: Headers, genesis: Header, head: Hash)
    requires Tree(hs, genesis)
  {
    && head in hs
    && forall n: nat {:trigger IndexedAt(canon, hs, genesis, head, n)} ::
         n <= hs[head].number ==> IndexedAt(canon, hs, genesis, head, n)
  }

  ghost predicate IndexedAt(canon: map<nat, Hash>, hs: Headers, genesis: Header, head: Hash, n: nat)
    requires Tree(hs, genesis) && head in hs && n <= hs[head].number
  {
    n in canon && canon[n] == AncestorAt(hs, genesis, head, n)
  }

  lemma IndexAgrees(canon: map<nat, Hash>, hs: Headers, r: Headers, genesis: Header, head: Hash)
    requires Tree(hs, genesis) && Tree(r, genesis)
    requires forall x :: x in hs ==> x in r && r[x] == hs[x]
    requires IndexesUpTo(canon, hs, genesis, head)
    ensures IndexesUpTo(canon, r, genesis, head)
  {
    forall n: nat | n <= r[head].number ensures IndexedAt(canon, r, genesis, head, n) {
      assert IndexedAt(canon, hs, genesis, head, n);
      AncestorsAgree(hs, r, genesis, head, n);
    }
  }

  lemma IndexFacts(canon: map<nat, Hash>, hs: Headers, genesis: Header, head: Hash)
    requires Tree(hs, genesis) && IndexesUpTo(canon, hs, genesis, head)
    ensures forall n: nat :: n <= hs[head].number ==> n in canon && canon[n] in hs && hs[canon[n]].number == n
    ensures canon[hs[head].number] == head
  {
    forall n: nat | n <= hs[head].number ensures n in canon && canon[n] in hs && hs[canon[n]].number == n {
      assert IndexedAt(canon, hs, genesis, head, n);
    }
    assert IndexedAt(canon, hs, genesis, head, hs[head].number);
  }

  /** None of the given headers has a greater total difficulty. */
  ghost predicate HeaviestOf(known: set<Hash>, hs: Headers, genesis: Header, head: Hash)
    requires Tree(hs, genesis) && head in hs && known <= hs.Keys
  {
    forall k {:trigger NoHeavier(hs, genesis, k, head)} :: k in known ==> NoHeavier(hs, genesis, k, head)
  }

  ghost predicate NoHeavier(hs: Headers, genesis: Header, k: Hash, head: Hash)
    requires Tree(hs, genesis) && k in hs && head in hs
  {
    TotalDifficulty(hs, genesis, k) <= TotalDifficulty(hs, genesis, head)
  }

  /** The heavier of the head and a new header is the heaviest of all. */
  lemma HeavierOfTwo(known: set<Hash>, hs: Headers, genesis: Header, head: Hash, header: Header)
    requires Tree(hs, genesis) && head in hs && known <= hs.Keys && HeaviestOf(known, hs, genesis, head)
    requires header.hash in hs ==> hs[header.hash] == header
    requires header.parent in hs && header.number == hs[header.parent].number + 1
    ensures var r, more := hs[header.hash := header], known + {header.hash};
            var extern := header.difficulty + TotalDifficulty(hs, genesis, header.parent);
            && Tree(r, genesis)
            && (TotalDifficulty(hs, genesis, head) <= extern ==> HeaviestOf(more, r, genesis, header.hash))
            && (extern <= TotalDifficulty(hs, genesis, head) ==> HeaviestOf(more, r, genesis, head))
  {
    TreeExtends(hs, genesis, header);
    var r := hs[header.hash := header];
    assert Linked(r, genesis, header.hash);
    DifficultiesAgree(hs, r, genesis, header.parent);
    DifficultiesAgree(hs, r, genesis, head);
    forall k | k in known ensures TotalDifficulty(r, genesis, k) <= TotalDifficulty(r, genesis, head) {
      assert NoHeavier(hs, genesis, k, head);
      DifficultiesAgree(hs, r, genesis, k);
    }
  }
}
