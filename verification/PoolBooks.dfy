/**
 The pool's bookkeeping as values: the pending and queued lists of every account and the
 lookup of all transactions, together with the transactions in transit between lists.
 */
module PoolBooks {
  import opened Types
  import opened TxListSpec
  import opened TxLists
  import opened PricedList

  type Lists = map<Address, List>

  datatype Books = Books(pending: Lists, queue: Lists, all: Lookup, limbo: set<Tx>)

  predicate Taken(m: Lists, a: Address, n: nat) {
    a in m && n in m[a].items
  }

  predicate Has(m: Lists, tx: Tx) {
    Taken(m, tx.sender, tx.nonce) && m[tx.sender].items[tx.nonce] == tx
  }

  function ListOf(m: Lists, a: Address, strict: bool): List {
    if a in m then m[a] else NewList(strict)
  }

  ghost predicate ListOk(a: Address, l: List, strict: bool) {
    && l.strict == strict
    && WellFormed(l)
    && forall n :: n in l.items ==> l.items[n].sender == a && l.items[n].signed
  }

  ghost predicate ListsOk(m: Lists, strict: bool) {
    forall a {:trigger ListOk(a, m[a], strict)} :: a in m ==> ListOk(a, m[a], strict)
  }

  /** The transaction is in the lookup. */
  predicate Known(all: Lookup, tx: Tx) {
    tx.hash in all && all[tx.hash] == tx
  }

  /** The transaction is in exactly one of the three places. */
  ghost predicate InOnePlace(b: Books, tx: Tx) {
    if Has(b.pending, tx) then !Has(b.queue, tx) && tx !in b.limbo
    else Has(b.queue, tx) != (tx in b.limbo)
  }

  ghost predicate InNoPlace(b: Books, tx: Tx) {
    !Has(b.pending, tx) && !Has(b.queue, tx) && tx !in b.limbo
  }

  /** No two known transactions share a sender and a nonce. */
  ghost predicate OnePerNonce(all: Lookup) {
    forall h, g :: h in all && g in all && all[h].sender == all[g].sender && all[h].nonce == all[g].nonce ==> h == g
  }

  /**
   The lookup holds exactly the transactions that are pending, queued or in transit, none of
   them in two of these places, and never two for one nonce of an account.
   */
  ghost predicate Consistent(b: Books, preimage: Hash -> Tx) {
    && ListsOk(b.pending, true)
    && ListsOk(b.queue, false)
    && LookupOk(b.all, preimage)
    && (forall tx :: Placed(b, tx))
  }

  ghost predicate LookupOk(all: Lookup, preimage: Hash -> Tx) {
    && GenuineLookup(preimage, all)
    && OnePerNonce(all)
    && forall h :: h in all ==> all[h].signed
  }

  ghost predicate Placed(b: Books, tx: Tx) {
    if Known(b.all, tx) then InOnePlace(b, tx) else InNoPlace(b, tx)
  }

  function Entry(m: Lists, a: Address, n: nat, otherwise: Tx): Tx {
    if Taken(m, a, n) then m[a].items[n] else otherwise
  }

  lemma EntryPlaced(b: Books, preimage: Hash -> Tx, a: Address, n: nat, tx: Tx)
    requires Consistent(b, preimage)
    ensures Placed(b, Entry(b.pending, a, n, tx)) && Placed(b, Entry(b.queue, a, n, tx))
    ensures Taken(b.pending, a, n) ==> b.pending[a].items[n].sender == a && b.pending[a].items[n].nonce == n
    ensures Taken(b.queue, a, n) ==> b.queue[a].items[n].sender == a && b.queue[a].items[n].nonce == n
  {
    assert a in b.pending ==> ListOk(a, b.pending[a], true);
    assert a in b.queue ==> ListOk(a, b.queue[a], false);
  }

  /** Pending and queued nonces of an account are disjoint. */
  lemma Disjoint(b: Books, preimage: Hash -> Tx, a: Address, n: nat)
    requires Consistent(b, preimage)
    ensures !(Taken(b.pending, a, n) && Taken(b.queue, a, n))
  {
    EntryPlaced(b, preimage, a, n, preimage(0));
  }

  /** The nonce of a transaction in transit is free in both lists. */
  lemma FreeNonce(b: Books, preimage: Hash -> Tx, tx: Tx)
    requires Consistent(b, preimage) && tx in b.limbo
    ensures Known(b.all, tx) && tx.signed
    ensures !Taken(b.pending, tx.sender, tx.nonce) && !Taken(b.queue, tx.sender, tx.nonce)
  {
    assert Placed(b, tx);
    EntryPlaced(b, preimage, tx.sender, tx.nonce, tx);
  }

  /** `kept` is `was` with some entries gone. */
  ghost predicate Shrunk(was: List, kept: List) {
    && kept.strict == was.strict
    && WellFormed(kept)
    && forall n :: n in kept.items ==> n in was.items && kept.items[n] == was.items[n]
  }

  function Removed(was: List, kept: List): set<Tx> {
    set n | n in was.items && n !in kept.items :: was.items[n]
  }

  lemma ShrunkHas(m: Lists, a: Address, kept: List, strict: bool, tx: Tx)
    requires ListsOk(m, strict) && a in m && Shrunk(m[a], kept)
    ensures ListOk(a, kept, strict)
    ensures tx in Removed(m[a], kept) <==> Has(m, tx) && !Has(m[a := kept], tx)
    ensures Has(m[a := kept], tx) ==> Has(m, tx)
  {
    assert ListOk(a, m[a], strict);
  }

  /** Entries taken off a pending list are in transit. */
  lemma TakeFromPending(b: Books, preimage: Hash -> Tx, a: Address, kept: List) returns (r: Books)
    requires Consistent(b, preimage) && a in b.pending && Shrunk(b.pending[a], kept)
    ensures r == b.(pending := b.pending[a := kept], limbo := b.limbo + Removed(b.pending[a], kept))
    ensures Consistent(r, preimage)
  {
    r := b.(pending := b.pending[a := kept], limbo := b.limbo + Removed(b.pending[a], kept));
    forall tx ensures Placed(r, tx) {
      assert Placed(b, tx);
      ShrunkHas(b.pending, a, kept, true, tx);
    }
    ShrunkHas(b.pending, a, kept, true, preimage(0));
  }

  /** Entries taken off a queued list are in transit. */
  lemma TakeFromQueue(b: Books, preimage: Hash -> Tx, a: Address, kept: List) returns (r: Books)
    requires Consistent(b, preimage) && a in b.queue && Shrunk(b.queue[a], kept)
    ensures r == b.(queue := b.queue[a := kept], limbo := b.limbo + Removed(b.queue[a], kept))
    ensures Consistent(r, preimage)
  {
    r := b.(queue := b.queue[a := kept], limbo := b.limbo + Removed(b.queue[a], kept));
    forall tx ensures Placed(r, tx) {
      assert Placed(b, tx);
      ShrunkHas(b.queue, a, kept, false, tx);
    }
    ShrunkHas(b.queue, a, kept, false, preimage(0));
  }

  /** An empty list may be deleted. */
  lemma DeletePending(b: Books, preimage: Hash -> Tx, a: Address)
    requires Consistent(b, preimage) && a in b.pending && b.pending[a].items == map[]
    ensures Consistent(b.(pending := b.pending - {a}), preimage)
  {
    var r := b.(pending := b.pending - {a});
    forall tx ensures Placed(r, tx) { assert Placed(b, tx); }
  }

  lemma DeleteQueue(b: Books, preimage: Hash -> Tx, a: Address)
    requires Consistent(b, preimage) && a in b.queue && b.queue[a].items == map[]
    ensures Consistent(b.(queue := b.queue - {a}), preimage)
  {
    var r := b.(queue := b.queue - {a});
    forall tx ensures Placed(r, tx) { assert Placed(b, tx); }
  }

  /** A transaction in transit may be dropped from the lookup. */
  lemma ForgetOne(b: Books, preimage: Hash -> Tx, tx: Tx)
    requires Consistent(b, preimage) && tx in b.limbo
    ensures Consistent(b.(all := b.all - {tx.hash}, limbo := b.limbo - {tx}), preimage)
  {
    var r := b.(all := b.all - {tx.hash}, limbo := b.limbo - {tx});
    assert Placed(b, tx);
    forall u ensures Placed(r, u) { assert Placed(b, u); }
  }

  lemma InsertHas(m: Lists, tx: Tx, strict: bool, u: Tx)
    requires ListsOk(m, strict) && tx.signed && !Taken(m, tx.sender, tx.nonce)
    ensures ListOk(tx.sender, Insert(ListOf(m, tx.sender, strict), tx), strict)
    ensures Has(m[tx.sender := Insert(ListOf(m, tx.sender, strict), tx)], u) <==> Has(m, u) || u == tx
  {
    var l := ListOf(m, tx.sender, strict);
    assert ListOk(tx.sender, l, strict);
  }

  /** A transaction in transit may settle in its sender's queue. */
  lemma SettleInQueue(b: Books, preimage: Hash -> Tx, tx: Tx)
    requires Consistent(b, preimage) && tx in b.limbo
    ensures Consistent(b.(queue := b.queue[tx.sender := Insert(ListOf(b.queue, tx.sender, false), tx)],
                          limbo := b.limbo - {tx}), preimage)
  {
    var r := b.(queue := b.queue[tx.sender := Insert(ListOf(b.queue, tx.sender, false), tx)],
                limbo := b.limbo - {tx});
    FreeNonce(b, preimage, tx);
    forall u ensures Placed(r, u) {
      assert Placed(b, u);
      InsertHas(b.queue, tx, false, u);
    }
    InsertHas(b.queue, tx, false, tx);
  }

  /** A transaction in transit may settle in its sender's pending list. */
  lemma SettleInPending(b: Books, preimage: Hash -> Tx, tx: Tx)
    requires Consistent(b, preimage) && tx in b.limbo
    ensures Consistent(b.(pending := b.pending[tx.sender := Insert(ListOf(b.pending, tx.sender, true), tx)],
                          limbo := b.limbo - {tx}), preimage)
  {
    var r := b.(pending := b.pending[tx.sender := Insert(ListOf(b.pending, tx.sender, true), tx)],
                limbo := b.limbo - {tx});
    FreeNonce(b, preimage, tx);
    forall u ensures Placed(r, u) {
      assert Placed(b, u);
      InsertHas(b.pending, tx, true, u);
    }
    InsertHas(b.pending, tx, true, tx);
  }

  /** A new transaction enters the lookup, in transit, provided its nonce is free. */
  lemma Arrive(b: Books, preimage: Hash -> Tx, tx: Tx)
    requires Consistent(b, preimage) && b.limbo == {}
    requires tx.hash !in b.all && tx.signed && Genuine(preimage, tx)
    requires !Taken(b.pending, tx.sender, tx.nonce) && !Taken(b.queue, tx.sender, tx.nonce)
    ensures Consistent(b.(all := b.all[tx.hash := tx], limbo := {tx}), preimage)
  {
    var r := b.(all := b.all[tx.hash := tx], limbo := {tx});
    forall u ensures Placed(r, u) { assert Placed(b, u); }
    forall h | h in b.all ensures b.all[h].sender != tx.sender || b.all[h].nonce != tx.nonce {
      assert Placed(b, b.all[h]);
    }
  }

  /** The lookup once a new transaction has pushed out the one that had its nonce. */
  function Superseded(all: Lookup, m: Lists, tx: Tx): Lookup {
    if Taken(m, tx.sender, tx.nonce) then all - {m[tx.sender].items[tx.nonce].hash} else all
  }

  lemma ReinsertAfterRemoval(l: List, tx: Tx)
    requires WellFormed(l) && tx.nonce in l.items
    ensures var kept := l.(items := l.items - {tx.nonce});
            && Shrunk(l, kept)
            && Removed(l, kept) == {l.items[tx.nonce]}
            && Insert(kept, tx) == Insert(l, tx)
  {
    var kept := l.(items := l.items - {tx.nonce});
    assert kept.items[tx.nonce := tx] == l.items[tx.nonce := tx];
  }

  /** A new transaction joins the queue, replacing what had its nonce there. */
  lemma QueueNew(b: Books, preimage: Hash -> Tx, tx: Tx)
    requires Consistent(b, preimage) && b.limbo == {}
    requires tx.hash !in b.all && tx.signed && Genuine(preimage, tx)
    requires !Taken(b.pending, tx.sender, tx.nonce)
    ensures Consistent(b.(queue := b.queue[tx.sender := Insert(ListOf(b.queue, tx.sender, false), tx)],
                          all := Superseded(b.all, b.queue, tx)[tx.hash := tx]), preimage)
  {
    var goal := b.(queue := b.queue[tx.sender := Insert(ListOf(b.queue, tx.sender, false), tx)],
                   all := Superseded(b.all, b.queue, tx)[tx.hash := tx]);
    var c := b;
    if Taken(b.queue, tx.sender, tx.nonce) {
      var l := b.queue[tx.sender];
      var before := l.items[tx.nonce];
      assert ListOk(tx.sender, l, false);
      ReinsertAfterRemoval(l, tx);
      c := TakeFromQueue(b, preimage, tx.sender, l.(items := l.items - {tx.nonce}));
      ForgetOne(c, preimage, before);
      c := c.(all := c.all - {before.hash}, limbo := c.limbo - {before});
      assert c.limbo == {};
    }
    Arrive(c, preimage, tx);
    c := c.(all := c.all[tx.hash := tx], limbo := {tx});
    SettleInQueue(c, preimage, tx);
    c := c.(queue := c.queue[tx.sender := Insert(ListOf(c.queue, tx.sender, false), tx)], limbo := c.limbo - {tx});
    assert c.queue == goal.queue;
    assert c == goal;
  }

  /** A new transaction replaces the pending one with its nonce. */
  lemma ReplacePending(b: Books, preimage: Hash -> Tx, tx: Tx)
    requires Consistent(b, preimage) && b.limbo == {}
    requires tx.hash !in b.all && tx.signed && Genuine(preimage, tx)
    requires Taken(b.pending, tx.sender, tx.nonce)
    ensures Consistent(b.(pending := b.pending[tx.sender := Insert(b.pending[tx.sender], tx)],
                          all := Superseded(b.all, b.pending, tx)[tx.hash := tx]), preimage)
  {
    var goal := b.(pending := b.pending[tx.sender := Insert(b.pending[tx.sender], tx)],
                   all := Superseded(b.all, b.pending, tx)[tx.hash := tx]);
    var l := b.pending[tx.sender];
    var before := l.items[tx.nonce];
    assert ListOk(tx.sender, l, true);
    ReinsertAfterRemoval(l, tx);
    Disjoint(b, preimage, tx.sender, tx.nonce);
    var c := TakeFromPending(b, preimage, tx.sender, l.(items := l.items - {tx.nonce}));
    ForgetOne(c, preimage, before);
    c := c.(all := c.all - {before.hash}, limbo := c.limbo - {before});
    assert c.limbo == {};
    Arrive(c, preimage, tx);
    c := c.(all := c.all[tx.hash := tx], limbo := {tx});
    SettleInPending(c, preimage, tx);
    c := c.(pending := c.pending[tx.sender := Insert(ListOf(c.pending, tx.sender, true), tx)], limbo := c.limbo - {tx});
    assert c.pending == goal.pending;
    assert c == goal;
  }
}
