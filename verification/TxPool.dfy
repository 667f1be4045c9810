/**
 The transaction pool of core/tx_pool.go: pending and queued transactions per account, the
 lookup of all of them and the price heap, kept in step by every operation.
 */
module TxPool {
  import opened Types
  import opened TxListSpec
  import opened TxLists
  import opened PricedList
  import opened PoolBooks
  import opened PoolTotals
  import Heap
  import IntrinsicGas

  datatype Config = Config(
    priceLimit: nat, priceBump: nat,
    accountSlots: nat, globalSlots: nat,
    accountQueue: nat, globalQueue: nat,
    noLocals: bool)

  type Nonces = map<Address, nat>

  /** Account nonces and balances at the chain head; absent accounts have zero of both. */
  datatype Chain = Chain(nonces: Nonces, balances: map<Address, nat>) {
    function Nonce(a: Address): nat {
      if a in nonces then nonces[a] else 0
    }
    function Balance(a: Address): nat {
      if a in balances then balances[a] else 0
    }
  }

  /** The account's nonce as the pool tracks it, which defaults to the chain's. */
  function VirtualNonce(virtual: Nonces, chain: Chain, a: Address): nat {
    if a in virtual then virtual[a] else chain.Nonce(a)
  }

  /** A transaction the chain would let its sender run now or later. */
  ghost predicate PayableTx(chain: Chain, maxGas: nat, tx: Tx) {
    && chain.Nonce(tx.sender) <= tx.nonce
    && tx.cost <= chain.Balance(tx.sender)
    && tx.gas <= maxGas
  }

  ghost predicate PayableAll(chain: Chain, maxGas: nat, all: Lookup) {
    forall h :: h in all ==> PayableTx(chain, maxGas, all[h])
  }

  /** Pending nonces run without a gap from the chain nonce up to the virtual nonce. */
  ghost predicate Contiguous(pending: Lists, virtual: Nonces, chain: Chain) {
    forall a :: ContiguousAt(pending, virtual, chain, a)
  }

  ghost predicate Keeps(pending: Lists, virtual: Nonces, newPending: Lists, newVirtual: Nonces, chain: Chain) {
    Contiguous(pending, virtual, chain) ==> Contiguous(newPending, newVirtual, chain)
  }

  ghost predicate ContiguousAt(pending: Lists, virtual: Nonces, chain: Chain, a: Address) {
    && chain.Nonce(a) <= VirtualNonce(virtual, chain, a)
    && forall n: nat :: Taken(pending, a, n) <==> chain.Nonce(a) <= n < VirtualNonce(virtual, chain, a)
  }

  datatype Error =
    | KnownTransaction
    | OversizedData
    | NegativeValue
    | GasLimit
    | InvalidSender
    | Underpriced
    | NonceTooLow
    | InsufficientFunds
    | OutOfGas
    | IntrinsicGasTooLow
    | ReplaceUnderpriced

  const MAX_TX_SIZE: nat := 32 * 1024

  /** What a transaction is judged by, besides the pool's contents. */
  datatype Terms = Terms(gasPrice: nat, chain: Chain, maxGas: nat, homestead: bool, bump: nat, capacity: nat)

  /** The transaction is within every limit of the node and the chain state. */
  ghost predicate Meets(terms: Terms, locals: set<Address>, tx: Tx, local: bool) {
    && tx.size <= MAX_TX_SIZE && tx.value >= 0 && tx.signed
    && (local || tx.sender in locals || terms.gasPrice <= tx.price)
    && PayableTx(terms.chain, terms.maxGas, tx)
    && IntrinsicGas.Charge(tx.data, tx.creation, terms.homestead) <= MAX_UINT64
    && IntrinsicGas.Charge(tx.data, tx.creation, terms.homestead) <= tx.gas
  }

  predicate SameSlot(u: Tx, tx: Tx) {
    u.sender == tx.sender && u.nonce == tx.nonce
  }

  /** The transaction finds its nonce free, or raises the price of the one that has it by the bump. */
  ghost predicate Admits(all: Lookup, tx: Tx, bump: nat) {
    forall h :: h in all && SameSlot(all[h], tx) ==> Raised(all[h].price, tx.price, bump)
  }

  /** The pool is full, and the transaction is no dearer than any in it and has no local sender. */
  ghost predicate TooCheap(all: Lookup, locals: set<Address>, tx: Tx, local: bool, capacity: nat) {
    && |all| >= capacity && all != map[] && !local && !IsLocal(tx, locals)
    && forall h :: h in all ==> tx.price <= all[h].price
  }

  /** The lookup with the transaction in the place of whatever had its nonce. */
  ghost function Seated(all: Lookup, tx: Tx): Lookup {
    (map h | h in all && !SameSlot(all[h], tx) :: all[h])[tx.hash := tx]
  }

  /**
   What becomes of a new transaction within all limits.  A pool with room takes it exactly if its
   nonce is free or it raises the price, and nothing else changes.  A full pool refuses it exactly if
   it is too cheap, and makes room otherwise, at the expense of remote transactions, unless its
   nonce stays taken by one whose price it does not raise.
   */
  ghost predicate Decided(terms: Terms, was: Lookup, now: Lookup, locals: set<Address>, tx: Tx, local: bool,
                          err: Option<Error>) {
    && (err == None || err == Some(Underpriced) || err == Some(ReplaceUnderpriced))
    && (err == Some(Underpriced) <==> TooCheap(was, locals, tx, local, terms.capacity))
    && (err == Some(Underpriced) ==> now == was)
    && (err != Some(Underpriced) && Admits(was, tx, terms.bump) ==> err == None)
    && (err == Some(ReplaceUnderpriced) ==> !Admits(now, tx, terms.bump) && Fewer(was, now))
    && (err == None ==> Known(now, tx) && forall h :: h in now && SameSlot(now[h], tx) ==> now[h] == tx)
    && (forall h :: h in was && h !in now ==>
          if err == None && SameSlot(was[h], tx)
          then Raised(was[h].price, tx.price, terms.bump) || (|was| >= terms.capacity && !IsLocal(was[h], locals))
          else |was| >= terms.capacity && !IsLocal(was[h], locals))
    && (|was| < terms.capacity ==> now == if Admits(was, tx, terms.bump) then Seated(was, tx) else was)
    && (|was| >= terms.capacity ==> |now| + 1 >= terms.capacity)
  }

  /** The answer to any transaction. */
  ghost predicate Judged(terms: Terms, was: Lookup, now: Lookup, locals: set<Address>, tx: Tx, local: bool,
                         err: Option<Error>) {
    if tx.hash in was then err == Some(KnownTransaction) && now == was
    else if !Meets(terms, locals, tx, local) then
      err.Some? && err != Some(KnownTransaction) && err != Some(ReplaceUnderpriced) && now == was
    else Decided(terms, was, now, locals, tx, local, err)
  }

  class Pool {
    const config: Config
    const priced: PriceList
    var gasPrice: nat
    var chain: Chain
    var virtual: Nonces
    var maxGas: nat
    var homestead: bool
    var locals: set<Address>
    var pending: Lists
    var queue: Lists
    var all: Lookup
    ghost var limbo: set<Tx>      // in the lookup but taken off its list for the moment
    ghost var dropping: set<Tx>   // taken off the price heap and about to be removed

    ghost function Kept(): Books
      reads this
    {
      Books(pending, queue, all, limbo)
    }

    /** How many transactions the pool is meant to hold. */
    function Capacity(): nat {
      config.globalSlots + config.globalQueue
    }

    ghost function Rules(): Terms
      reads this
    {
      Terms(gasPrice, chain, maxGas, homestead, config.priceBump, Capacity())
    }

    ghost function Stocked(): Stock
      reads this
    {
      Stock(pending, all, virtual)
    }

    ghost predicate Inv()
      reads this, priced
    {
      && Consistent(Kept(), priced.preimage)
      && priced.Valid()
      && Covers(priced.items, all, dropping)
    }

    /** Nothing is in transit. */
    ghost predicate Settled()
      reads this, priced
    {
      Inv() && limbo == {} && dropping == {}
    }

    /** Between two operations nothing is in transit and everything could be paid for. */
    ghost predicate Valid()
      reads this, priced
    {
      Settled() && PayableAll(chain, maxGas, all)
    }

    ghost predicate Contig()
      reads this
    {
      Contiguous(pending, virtual, chain)
    }

    /** No account has anything queued that could be promoted. */
    ghost predicate AllQuiet()
      reads this
    {
      forall a {:trigger Quiet(queue, virtual, chain, a)} :: Quiet(queue, virtual, chain, a)
    }

    constructor (config: Config, chain: Chain, maxGas: nat, ghost preimage: Hash -> Tx)
      ensures Valid() && Contig() && AllQuiet() && WithinLimits() && fresh(priced)
      ensures all == map[] && this.chain == chain && priced.preimage == preimage
      ensures 1 <= this.config.priceLimit && 1 <= this.config.priceBump
    {
      this.config := config.(priceLimit := if config.priceLimit < 1 then 1 else config.priceLimit,
                             priceBump := if config.priceBump < 1 then 10 else config.priceBump);
      this.gasPrice := if config.priceLimit < 1 then 1 else config.priceLimit;
      this.priced := new PriceList(preimage);
      this.chain, this.virtual, this.maxGas, this.homestead := chain, map[], maxGas, false;
      this.locals, this.pending, this.queue, this.all := {}, map[], map[], map[];
      this.limbo, this.dropping := {}, {};
    }

    /** Drops transactions in transit from the lookup and notifies the price heap of each. */
    method Forget(txs: set<Tx>)
      requires Inv() && txs <= limbo
      modifies this`all, this`limbo, priced
      ensures Inv() && limbo == old(limbo) - txs
      ensures all == Without(old(all), txs)
    {
      var left := txs;
      assert txs - left == {};
      while left != {}
        invariant left <= txs && Inv() && limbo == old(limbo) - (txs - left)
        invariant all == Without(old(all), txs - left)
        decreases left
      {
        var tx :| tx in left;
        assert Placed(Kept(), tx);
        ForgetOne(Kept(), priced.preimage, tx);
        WithoutOne(old(all), txs - left, all, tx);
        assert txs - (left - {tx}) == (txs - left) + {tx};
        all := all - {tx.hash};
        limbo := limbo - {tx};
        priced.Removed(all);
        left := left - {tx};
      }
      assert txs - left == txs;
    }

    /**
     Puts a transaction into its sender's queue: either one in transit, which always finds its
     nonce free, or a new one, which must outbid whatever it replaces.
     */
    method EnqueueTx(tx: Tx) returns (replaced: bool, ok: bool)
      requires Inv() && tx.signed && Genuine(priced.preimage, tx)
      requires !Taken(pending, tx.sender, tx.nonce)
      requires tx in limbo || (limbo == {} && tx.hash !in all)
      modifies this`queue, this`all, this`limbo, priced
      ensures Inv() && limbo == old(limbo) - {tx}
      ensures ok == Accepts(ListOf(old(queue), tx.sender, false), tx, config.priceBump)
      ensures !ok ==> queue == old(queue) && all == old(all) && !replaced
      ensures ok ==> queue == old(queue)[tx.sender := Insert(ListOf(old(queue), tx.sender, false), tx)]
      ensures tx in old(limbo) ==> ok && !replaced && all == old(all)
      ensures ok && tx !in old(limbo) ==>
                && replaced == Taken(old(queue), tx.sender, tx.nonce)
                && all == Superseded(old(all), old(queue), tx)[tx.hash := tx]
    {
      var list := ListOf(queue, tx.sender, false);
      ghost var transit := tx in limbo;
      ghost var goal := Kept().(queue := queue[tx.sender := Insert(list, tx)], limbo := limbo - {tx});
      if transit {
        FreeNonce(Kept(), priced.preimage, tx);
        SettleInQueue(Kept(), priced.preimage, tx);
      } else {
        goal := goal.(all := Superseded(all, queue, tx)[tx.hash := tx]);
        QueueNew(Kept(), priced.preimage, tx);
        assert limbo - {tx} == limbo;
      }
      if !Accepts(list, tx, config.priceBump) {
        return false, false;
      }
      replaced, ok := false, true;
      queue := queue[tx.sender := Insert(list, tx)];
      limbo := limbo - {tx};
      if tx.nonce in list.items {
        all := all - {list.items[tx.nonce].hash};
        priced.Removed(all);
        replaced := true;
      }
      if tx.hash !in all {
        all := all[tx.hash := tx];
        priced.Put(tx);
      }
      assert Kept() == goal;
    }

    /** Puts transactions in transit back into the queue; none is lost and none is replaced. */
    method RequeueAll(txs: set<Tx>)
      requires Inv() && txs <= limbo
      modifies this`queue, this`all, this`limbo, priced
      ensures Inv() && limbo == old(limbo) - txs && all == old(all)
      ensures Joined(old(queue), queue, txs) && Total(queue) == Total(old(queue)) + |txs|
    {
      var left := txs;
      while left != {}
        invariant left <= txs && Inv() && limbo == old(limbo) - (txs - left) && all == old(all)
        invariant Joined(old(queue), queue, txs - left) && Total(queue) == Total(old(queue)) + |txs| - |left|
        decreases left
      {
        var tx :| tx in left;
        FreeNonce(Kept(), priced.preimage, tx);
        ghost var q := queue;
        var replaced, ok := EnqueueTx(tx);
        OneQueued(q, tx);
        JoinedOne(old(queue), q, queue, txs - left, txs - (left - {tx}), tx);
        left := left - {tx};
      }
      assert txs - left == txs;
    }

    /**
     Moves a transaction in transit to its sender's pending list.  The branches of the source
     for a nonce that is already pending cannot be taken, because its nonce is always free.
     */
    method PromoteTx(tx: Tx) returns (ok: bool)
      requires Inv() && tx in limbo
      modifies this`pending, this`virtual, this`limbo
      ensures Inv() && ok && limbo == old(limbo) - {tx}
      ensures pending == old(pending)[tx.sender := Insert(ListOf(old(pending), tx.sender, true), tx)]
      ensures virtual == old(virtual)[tx.sender := tx.nonce + 1]
    {
      FreeNonce(Kept(), priced.preimage, tx);
      SettleInPending(Kept(), priced.preimage, tx);
      var list := ListOf(pending, tx.sender, true);
      if !Accepts(list, tx, config.priceBump) || tx.nonce in list.items || tx.hash !in all {
        assert false;
      }
      pending := pending[tx.sender := Insert(list, tx)];
      limbo := limbo - {tx};
      virtual := virtual[tx.sender := tx.nonce + 1];
      return true;
    }

    /**
     Removes one transaction.  Pending transactions it leaves behind a gap go back to the
     queue, so the lookup loses this transaction and nothing else.  No limit applies to that: the
     queue grows by exactly as many.
     */
    method RemoveTx(hash: Hash, outofbound: bool)
      requires Inv() && limbo == {}
      modifies this`pending, this`queue, this`all, this`limbo, this`dropping, this`virtual, priced
      ensures Inv() && limbo == {} && all == old(all) - {hash}
      ensures dropping == old(dropping) - if hash in old(all) then {old(all)[hash]} else {}
      ensures Keeps(old(pending), old(virtual), pending, virtual, chain)
      ensures StaysQuiet(old(queue), old(virtual), queue, virtual, chain, {})
      ensures NoLonger(old(pending), pending)
      ensures hash in old(all) && Has(old(pending), old(all)[hash]) ==>
                var tx := old(all)[hash];
                var later := Later(old(pending), tx.sender, tx.nonce);
                && pending == CutBefore(old(pending), tx.sender, tx.nonce)
                && Joined(old(queue), queue, later) && Total(queue) == Total(old(queue)) + |later|
      ensures hash in old(all) && Has(old(queue), old(all)[hash]) ==>
                && pending == old(pending) && virtual == old(virtual)
                && queue == Dequeued(old(queue), old(all)[hash].sender, old(all)[hash].nonce)
    {
      if hash !in all {
        return;
      }
      var tx := all[hash];
      var addr, nonce := tx.sender, tx.nonce;
      assert Placed(Kept(), tx);
      Disjoint(Kept(), priced.preimage, addr, nonce);
      ghost var was := Kept();
      dropping := dropping - {tx};
      all := all - {hash};
      if outofbound {
        priced.Removed(all);
      }
      assert was.all == all[hash := tx];
      if Taken(pending, addr, nonce) {
        CutShorter(pending, addr, nonce);
        CutPendingAt(tx);
      } else {
        DequeuedConsistent(was, priced.preimage, tx);
        FewerQuiet(queue, virtual, Dequeued(queue, addr, nonce), virtual, chain);
        queue := Dequeued(queue, addr, nonce);
      }
    }

    /** The part of RemoveTx for a pending transaction, which the lookup has already lost. */
    method CutPendingAt(tx: Tx)
      requires limbo == {} && tx.hash !in all && Has(pending, tx)
      requires Consistent(Kept().(all := all[tx.hash := tx]), priced.preimage)
      requires priced.Valid() && Covers(priced.items, all, dropping)
      modifies this`pending, this`queue, this`all, this`limbo, this`virtual, priced
      ensures Inv() && limbo == {} && all == old(all)
      ensures pending == CutBefore(old(pending), tx.sender, tx.nonce)
      ensures var later := Later(old(pending), tx.sender, tx.nonce);
              Joined(old(queue), queue, later) && Total(queue) == Total(old(queue)) + |later|
      ensures Keeps(old(pending), old(virtual), pending, virtual, chain)
      ensures StaysQuiet(old(queue), old(virtual), queue, virtual, chain, {})
    {
      ghost var was, q, v := pending, queue, virtual;
      var invalids := DetachFrom(tx);
      RequeueAll(invalids);
      Lower(tx.sender, tx.nonce);
      CutContiguous(was, pending, v, virtual, chain, tx.sender, tx.nonce);
      CutQuiet(q, queue, v, virtual, chain, invalids, tx.sender, tx.nonce);
    }

    /** Takes a pending transaction off its list together with the later ones, which are in transit then. */
    method DetachFrom(tx: Tx) returns (invalids: set<Tx>)
      requires limbo == {} && tx.hash !in all && Has(pending, tx)
      requires Consistent(Kept().(all := all[tx.hash := tx]), priced.preimage)
      requires priced.Valid() && Covers(priced.items, all, dropping)
      modifies this`pending, this`limbo
      ensures Inv() && limbo == invalids
      ensures invalids == Later(old(pending), tx.sender, tx.nonce)
      ensures forall u :: u in invalids ==> u.sender == tx.sender && u.nonce > tx.nonce
      ensures pending == CutBefore(old(pending), tx.sender, tx.nonce)
    {
      ghost var r := CutPending(Kept().(all := all[tx.hash := tx]), priced.preimage, tx);
      assert all[tx.hash := tx] - {tx.hash} == all;
      invalids := Later(pending, tx.sender, tx.nonce);
      limbo := invalids;
      pending := CutBefore(pending, tx.sender, tx.nonce);
      assert Kept() == r;
    }

    /** Lowers an account's virtual nonce to a nonce that is no longer pending. */
    method Lower(a: Address, nonce: nat)
      modifies this`virtual
      ensures virtual == if VirtualNonce(old(virtual), chain, a) > nonce then old(virtual)[a := nonce] else old(virtual)
    {
      if VirtualNonce(virtual, chain, a) > nonce {
        virtual := virtual[a := nonce];
      }
    }

    /** Accepts exactly the transactions within all limits of the node and the chain state. */
    method ValidateTx(tx: Tx, local: bool) returns (err: Option<Error>)
      ensures err != Some(KnownTransaction) && err != Some(ReplaceUnderpriced)
      ensures err.None? <==> Meets(Rules(), locals, tx, local)
      ensures err == Some(OversizedData) ==> tx.size > MAX_TX_SIZE
      ensures err == Some(NegativeValue) ==> tx.value < 0
      ensures err == Some(GasLimit) ==> tx.gas > maxGas
      ensures err == Some(InvalidSender) ==> !tx.signed
      ensures err == Some(Underpriced) ==> !local && tx.sender !in locals && tx.price < gasPrice
      ensures err == Some(NonceTooLow) ==> tx.nonce < chain.Nonce(tx.sender)
      ensures err == Some(InsufficientFunds) ==> tx.cost > chain.Balance(tx.sender)
      ensures err == Some(OutOfGas) ==> IntrinsicGas.Charge(tx.data, tx.creation, homestead) > MAX_UINT64
      ensures err == Some(IntrinsicGasTooLow) ==> IntrinsicGas.Charge(tx.data, tx.creation, homestead) > tx.gas
    {
      if tx.size > MAX_TX_SIZE { return Some(OversizedData); }
      if tx.value < 0 { return Some(NegativeValue); }
      if maxGas < tx.gas { return Some(GasLimit); }
      if !tx.signed { return Some(InvalidSender); }
      var exempt := local || tx.sender in locals;
      if !exempt && gasPrice > tx.price { return Some(Underpriced); }
      if chain.Nonce(tx.sender) > tx.nonce { return Some(NonceTooLow); }
      if chain.Balance(tx.sender) < tx.cost { return Some(InsufficientFunds); }
      var intrinsic := IntrinsicGas.Compute(tx.data, tx.creation, homestead);
      if intrinsic.None? { return Some(OutOfGas); }
      if tx.gas < intrinsic.value { return Some(IntrinsicGasTooLow); }
      return None;
    }

    /** Removes a batch of transactions the price heap has already let go of. */
    method RemoveDropped(drop: seq<Tx>)
      requires Inv() && limbo == {} && dropping == set tx | tx in drop
      requires forall tx :: tx in drop ==> Known(all, tx)
      modifies this`pending, this`queue, this`all, this`limbo, this`dropping, this`virtual, priced
      ensures Settled() && NoLonger(old(pending), pending)
      ensures Keeps(old(pending), old(virtual), pending, virtual, chain)
      ensures StaysQuiet(old(queue), old(virtual), queue, virtual, chain, {})
      ensures all == Lacking(old(all), drop)
    {
      ghost var was := all;
      for i := 0 to |drop|
        invariant Inv() && limbo == {} && all == Lacking(was, drop[..i])
        invariant forall tx :: tx in dropping ==> tx in drop[i..] && Known(all, tx)
        invariant NoLonger(old(pending), pending) && Keeps(old(pending), old(virtual), pending, virtual, chain)
        invariant StaysQuiet(old(queue), old(virtual), queue, virtual, chain, {})
      {
        RemoveNext(was, drop, i);
      }
      assert drop[..|drop|] == drop;
    }

    method RemoveNext(ghost was: Lookup, drop: seq<Tx>, i: nat)
      requires Inv() && limbo == {} && i < |drop| && all == Lacking(was, drop[..i])
      requires Known(was, drop[i]) && forall h :: h in was ==> was[h].hash == h
      requires forall tx :: tx in dropping ==> tx in drop[i..] && Known(all, tx)
      modifies this`pending, this`queue, this`all, this`limbo, this`dropping, this`virtual, priced
      ensures Inv() && limbo == {} && all == Lacking(was, drop[..i + 1])
      ensures forall tx :: tx in dropping ==> tx in drop[i + 1..] && Known(all, tx)
      ensures NoLonger(old(pending), pending) && Keeps(old(pending), old(virtual), pending, virtual, chain)
      ensures StaysQuiet(old(queue), old(virtual), queue, virtual, chain, {})
    {
      LackingStep(was, drop, i);
      assert drop[i..] == [drop[i]] + drop[i + 1..];
      RemoveTx(drop[i].hash, false);
    }

    /** Makes room in a full pool, at the expense of the cheapest remote transactions only. */
    method MakeRoom(tx: Tx, local: bool) returns (ok: bool)
      requires Settled()
      modifies this`pending, this`queue, this`all, this`limbo, this`dropping, this`virtual, priced
      ensures Settled() && NoLonger(old(pending), pending)
      ensures Keeps(old(pending), old(virtual), pending, virtual, chain)
      ensures StaysQuiet(old(queue), old(virtual), queue, virtual, chain, {})
      ensures LocalsKept(chain, maxGas, locals, old(all), all)
      ensures Fewer(old(all), all) && CheapestGone(old(all), all, locals)
      ensures |old(all)| < Capacity() ==>
                ok && all == old(all) && pending == old(pending) && queue == old(queue) && virtual == old(virtual)
      ensures ok && NoTwins(old(priced.items), old(all), locals) ==> |all| < Capacity() || AllLocal(all, locals)
      ensures |old(all)| >= Capacity() ==> |all| + 1 >= Capacity()
      ensures !ok ==> all == old(all)
      ensures !ok <==> TooCheap(old(all), locals, tx, local, Capacity())
    {
      if |all| >= Capacity() {
        if !local {
          var under := priced.Underpriced(tx, locals, all);
          if under { return false; }
        }
        Evict();
      }
      return true;
    }

    /** Discards what a full pool has too many, and one more. */
    method Evict()
      requires Settled() && |all| >= Capacity()
      modifies this`pending, this`queue, this`all, this`limbo, this`dropping, this`virtual, priced
      ensures Settled() && NoLonger(old(pending), pending)
      ensures Keeps(old(pending), old(virtual), pending, virtual, chain)
      ensures StaysQuiet(old(queue), old(virtual), queue, virtual, chain, {})
      ensures LocalsKept(chain, maxGas, locals, old(all), all)
      ensures Fewer(old(all), all) && CheapestGone(old(all), all, locals)
      ensures NoTwins(old(priced.items), old(all), locals) ==> |all| < Capacity() || AllLocal(all, locals)
      ensures |all| + 1 >= Capacity()
    {
      ghost var items := priced.items;
      var drop := priced.Discard(|all| - (Capacity() - 1), locals, all);
      dropping := set t | t in drop;
      DiscardedCheapest(all, drop, locals);
      RemoteKept(Kept(), priced.preimage, chain, maxGas, locals, Lacking(all, drop));
      RoomMade(items, all, drop, locals, Capacity());
      LackingAtMost(all, drop);
      RemoveDropped(drop);
    }

    /** Puts a new transaction in place of the pending one with its nonce, if it outbids it. */
    method ReplacePendingTx(tx: Tx) returns (ok: bool)
      requires Inv() && limbo == {} && tx.signed && Genuine(priced.preimage, tx)
      requires tx.hash !in all && Taken(pending, tx.sender, tx.nonce)
      modifies this`pending, this`all, priced
      ensures Inv() && NoLonger(old(pending), pending) && Keeps(old(pending), old(virtual), pending, virtual, chain)
      ensures ok == Accepts(old(pending)[tx.sender], tx, config.priceBump)
      ensures !ok ==> pending == old(pending) && all == old(all)
      ensures ok ==> all == Superseded(old(all), old(pending), tx)[tx.hash := tx]
      ensures ok ==> pending == old(pending)[tx.sender := Insert(old(pending)[tx.sender], tx)]
    {
      var list := pending[tx.sender];
      if !Accepts(list, tx, config.priceBump) {
        return false;
      }
      ReplacePending(Kept(), priced.preimage, tx);
      var lists := pending[tx.sender := Insert(list, tx)];
      SameLength(pending, tx);
      SameOccupancy(pending, lists, virtual, chain);
      pending := lists;
      all := all - {list.items[tx.nonce].hash};
      priced.Removed(all);
      all := all[tx.hash := tx];
      priced.Put(tx);
      return true;
    }

    /** Puts a validated new transaction into its pending slot or into the queue. */
    method Place(tx: Tx, local: bool) returns (replaced: bool, ok: bool)
      requires Settled() && tx.signed && Genuine(priced.preimage, tx)
      requires tx.hash !in all && PayableTx(chain, maxGas, tx)
      modifies this`pending, this`queue, this`all, this`limbo, this`locals, priced
      ensures Settled() && (PayableAll(chain, maxGas, old(all)) ==> PayableAll(chain, maxGas, all))
      ensures NoLonger(old(pending), pending)
      ensures Keeps(old(pending), old(virtual), pending, virtual, chain)
      ensures StaysQuiet(old(queue), virtual, queue, virtual, chain, Unsettled(tx, ok && !replaced))
      ensures LocalsKept(chain, maxGas, old(locals), old(all), all)
      ensures OnlyAdded(old(all), all, {tx})
      ensures !ok || replaced ==> NoLonger(old(queue), queue)
      ensures !ok ==> all == old(all) && locals == old(locals) && !replaced
      ensures ok ==> all == Superseded(Superseded(old(all), old(pending), tx), old(queue), tx)[tx.hash := tx]
      ensures ok ==> replaced == (Taken(old(pending), tx.sender, tx.nonce) || Taken(old(queue), tx.sender, tx.nonce))
      ensures ok <==> Accepts(SlotList(old(pending), old(queue), tx), tx, config.priceBump)
      ensures GrownBy(old(queue), queue, tx)
      ensures var joins := ok && local && !Taken(old(pending), tx.sender, tx.nonce);
              locals == if joins then old(locals) + {tx.sender} else old(locals)
    {
      Disjoint(Kept(), priced.preimage, tx.sender, tx.nonce);
      if Taken(pending, tx.sender, tx.nonce) {
        ok := ReplacePendingTx(tx);
        replaced := ok;
        if ok { Outbid(old(Kept()), priced.preimage, old(pending), chain, maxGas, locals, tx, config.priceBump); }
        return;
      }
      replaced, ok := PlaceInQueue(tx, local);
    }

    /** The part of Place for a nonce that is not pending. */
    method PlaceInQueue(tx: Tx, local: bool) returns (replaced: bool, ok: bool)
      requires Settled() && tx.signed && Genuine(priced.preimage, tx)
      requires tx.hash !in all && PayableTx(chain, maxGas, tx) && !Taken(pending, tx.sender, tx.nonce)
      modifies this`queue, this`all, this`limbo, this`locals, priced
      ensures Settled() && (PayableAll(chain, maxGas, old(all)) ==> PayableAll(chain, maxGas, all))
      ensures StaysQuiet(old(queue), virtual, queue, virtual, chain, Unsettled(tx, ok && !replaced))
      ensures LocalsKept(chain, maxGas, old(locals), old(all), all) && OnlyAdded(old(all), all, {tx})
      ensures !ok || replaced ==> NoLonger(old(queue), queue)
      ensures !ok ==> all == old(all) && !replaced
      ensures ok ==> all == Superseded(old(all), old(queue), tx)[tx.hash := tx]
      ensures ok ==> replaced == Taken(old(queue), tx.sender, tx.nonce)
      ensures ok <==> Accepts(ListOf(old(queue), tx.sender, false), tx, config.priceBump)
      ensures GrownBy(old(queue), queue, tx)
      ensures locals == if ok && local then old(locals) + {tx.sender} else old(locals)
    {
      ghost var was := Kept();
      SameLength(queue, tx);
      replaced, ok := EnqueueTx(tx);
      JoinedGrows(was.queue, queue, tx, ok);
      JoinedQuiet(was.queue, queue, virtual, chain, tx, replaced, ok);
      if ok {
        Outbid(was, priced.preimage, was.queue, chain, maxGas, locals, tx, config.priceBump);
        Supersedes(was.all, was.queue, tx, chain, maxGas);
      } else {
        NothingNew(was.all, chain, maxGas, locals, tx);
      }
      if ok && local {
        locals := locals + {tx.sender};
      }
    }

    /**
     Validates a transaction and puts it into the pool, replacing a pending or queued one with
     its nonce if it outbids it.
     */
    method Add(tx: Tx, local: bool) returns (replaced: bool, err: Option<Error>)
      requires Settled() && Genuine(priced.preimage, tx)
      modifies this`pending, this`queue, this`all, this`limbo, this`dropping, this`virtual, this`locals, priced
      ensures Settled() && (PayableAll(chain, maxGas, old(all)) ==> PayableAll(chain, maxGas, all))
      ensures NoLonger(old(pending), pending)
      ensures Keeps(old(pending), old(virtual), pending, virtual, chain)
      ensures StaysQuiet(old(queue), old(virtual), queue, virtual, chain, Unsettled(tx, err.None? && !replaced))
      ensures LocalsKept(chain, maxGas, old(locals), old(all), all)
      ensures err.Some? || replaced ==> |all| <= |old(all)| && NoNewSlot(old(all), all)
      ensures (err.Some? || replaced) && |old(all)| < Capacity() ==> NoLonger(old(queue), queue)
      ensures err.None? && replaced ==> SlotTaken(old(all), tx.sender, tx.nonce)
      ensures err.None? && NoTwins(old(priced.items), old(all), old(locals)) ==>
                |all| <= Capacity() || OthersLocal(all, tx, old(locals))
      ensures OnlyAdded(old(all), all, {tx})
      ensures err.None? ==> tx.hash !in old(all) && Known(all, tx) && PayableTx(chain, maxGas, tx)
      ensures err == Some(KnownTransaction) <==> tx.hash in old(all)
      ensures err.Some? ==> all.Keys <= old(all).Keys && locals == old(locals)
      ensures old(locals) <= locals <= old(locals) + {tx.sender}
      ensures Answers(old(Rules()), old(Snap()), Snap(), tx, local, err)
      ensures |old(all)| < Capacity() ==> GrownBy(old(queue), queue, tx)
    {
      if tx.hash in all {
        return false, Some(KnownTransaction);
      }
      err := ValidateTx(tx, local);
      if err.Some? {
        return false, err;
      }
      replaced, err := AddValid(tx, local);
    }

    /** The part of Add for a valid transaction that is not known yet. */
    method AddValid(tx: Tx, local: bool) returns (replaced: bool, err: Option<Error>)
      requires Settled() && tx.signed && Genuine(priced.preimage, tx)
      requires tx.hash !in all && PayableTx(chain, maxGas, tx)
      modifies this`pending, this`queue, this`all, this`limbo, this`dropping, this`virtual, this`locals, priced
      ensures Settled() && Goes(old(Snap()), Snap(), chain, maxGas, Unsettled(tx, err.None? && !replaced))
      ensures err.Some? || replaced ==> |all| <= |old(all)| && NoNewSlot(old(all), all)
      ensures (err.Some? || replaced) && |old(all)| < Capacity() ==> NoLonger(old(queue), queue)
      ensures err.None? && replaced ==> SlotTaken(old(all), tx.sender, tx.nonce)
      ensures err.None? && old(NoTwins(priced.items, all, locals)) ==>
                |all| <= Capacity() || OthersLocal(all, tx, old(locals))
      ensures OnlyAdded(old(all), all, {tx})
      ensures err.Some? ==> locals == old(locals)
      ensures old(locals) <= locals <= old(locals) + {tx.sender}
      ensures Decided(old(Rules()), old(all), all, old(locals), tx, local, err)
      ensures |old(all)| < Capacity() ==> GrownBy(old(queue), queue, tx)
    {
      ghost var was, rules, twins := Snap(), Rules(), NoTwins(priced.items, all, locals);
      var room := CheckRoom(tx, local);
      replaced, err := false, Some(Underpriced);
      if room {
        replaced, err := TakeSlotThen(tx, local, was, rules, twins);
      }
    }

    /** TakeSlot, after room was made in a pool that was like this. */
    method TakeSlotThen(tx: Tx, local: bool, ghost was: Snapshot, ghost rules: Terms, ghost twins: bool)
      returns (replaced: bool, err: Option<Error>)
      requires Settled() && tx.signed && Genuine(priced.preimage, tx) && rules == Rules() && was.locals == locals
      requires tx.hash !in was.all && RoomIn(was.all, all, locals, tx, local, Capacity())
      requires PayableTx(chain, maxGas, tx) && Goes(was, Snap(), chain, maxGas, {})
      requires |was.all| < Capacity() ==> Snap() == was
      requires twins ==> |all| < Capacity() || AllLocal(all, locals)
      modifies this`pending, this`queue, this`all, this`limbo, this`locals, priced
      ensures Settled() && Goes(was, Snap(), chain, maxGas, Unsettled(tx, err.None? && !replaced))
      ensures err.Some? || replaced ==> |all| <= |was.all| && NoNewSlot(was.all, all)
      ensures (err.Some? || replaced) && |was.all| < Capacity() ==> NoLonger(was.queue, queue)
      ensures err.None? && replaced ==> SlotTaken(was.all, tx.sender, tx.nonce)
      ensures err.None? && twins ==> |all| <= Capacity() || OthersLocal(all, tx, was.locals)
      ensures OnlyAdded(was.all, all, {tx})
      ensures err.Some? ==> locals == was.locals
      ensures was.locals <= locals <= was.locals + {tx.sender}
      ensures Decided(rules, was.all, all, was.locals, tx, local, err)
      ensures |was.all| < Capacity() ==> GrownBy(was.queue, queue, tx)
    {
      ghost var mid := Snap();
      replaced, err := TakeSlot(tx, local, was.all);
      GoesOn(was, mid, Snap(), chain, maxGas, Unsettled(tx, err.None? && !replaced));
    }

    /** MakeRoom, remembering only that there is room, and at whose expense. */
    method CheckRoom(tx: Tx, local: bool) returns (ok: bool)
      requires Settled()
      modifies this`pending, this`queue, this`all, this`limbo, this`dropping, this`virtual, priced
      ensures Settled() && Goes(old(Snap()), Snap(), chain, maxGas, {})
      ensures |all| <= |old(all)| && Fewer(old(all), all) && NoNewSlot(old(all), all)
      ensures if ok then RoomIn(old(all), all, locals, tx, local, Capacity())
              else all == old(all) && TooCheap(old(all), locals, tx, local, Capacity())
      ensures |old(all)| < Capacity() ==> Snap() == old(Snap())
      ensures ok && NoTwins(old(priced.items), old(all), locals) ==> |all| < Capacity() || AllLocal(all, locals)
    {
      ghost var was := all;
      ok := MakeRoom(tx, local);
      FewerSlots(was, all);
      SmallerSet(all.Keys, was.Keys);
    }

    /** Places a validated transaction once there is room, and says what became of slots and size. */
    method TakeSlot(tx: Tx, local: bool, ghost was: Lookup) returns (replaced: bool, err: Option<Error>)
      requires Settled() && tx.signed && Genuine(priced.preimage, tx)
      requires tx.hash !in was && RoomIn(was, all, locals, tx, local, Capacity()) && PayableTx(chain, maxGas, tx)
      modifies this`pending, this`queue, this`all, this`limbo, this`locals, priced
      ensures Settled() && Goes(old(Snap()), Snap(), chain, maxGas, Unsettled(tx, err.None? && !replaced))
      ensures OnlyAdded(was, all, {tx})
      ensures err.Some? ==> err == Some(ReplaceUnderpriced) && all == old(all) && locals == old(locals)
      ensures err.None? ==> Known(all, tx)
      ensures old(locals) <= locals <= old(locals) + {tx.sender}
      ensures err.Some? || replaced ==> NoLonger(old(queue), queue) && |all| <= |was| && NoNewSlot(was, all)
      ensures err.None? && replaced ==> SlotTaken(was, tx.sender, tx.nonce)
      ensures |old(all)| < Capacity() || AllLocal(old(all), old(locals)) ==>
                |all| <= Capacity() || OthersLocal(all, tx, old(locals))
      ensures Decided(old(Rules()), was, all, old(locals), tx, local, err)
      ensures GrownBy(old(queue), queue, tx)
    {
      ghost var mid, rules := Kept(), Rules();
      SlotHolder(mid, priced.preimage, tx, config.priceBump);
      var ok;
      replaced, ok := Place(tx, local);
      err := if ok then None else Some(ReplaceUnderpriced);
      SlotsAfter(was, mid, priced.preimage, all, tx, ok, replaced);
      RoomUsed(mid.all, all, tx, old(locals), Capacity());
      RoomAndSlot(rules, was, mid.all, all, old(locals), tx, local, ok);
      AddedToFewer(was, mid.all, all, tx);
    }

    /** Takes entries off a queued list and out of the pool. */
    method DropFromQueue(a: Address, kept: List)
      requires Inv() && limbo == {} && a in queue && Shrunk(queue[a], kept)
      modifies this`queue, this`all, this`limbo, priced
      ensures Inv() && limbo == {} && queue == old(queue)[a := kept]
      ensures all == Without(old(all), Removed(old(queue)[a], kept))
    {
      var gone := Removed(queue[a], kept);
      Dequeue(a, kept);
      Forget(gone);
    }

    /** Takes entries off a queued list; where they go is for the caller to say. */
    method Dequeue(a: Address, kept: List)
      requires Inv() && limbo == {} && a in queue && Shrunk(queue[a], kept)
      modifies this`queue, this`limbo
      ensures Inv() && limbo == Removed(old(queue)[a], kept) && queue == old(queue)[a := kept]
    {
      ghost var r := TakeFromQueue(Kept(), priced.preimage, a, kept);
      limbo := Removed(queue[a], kept);
      queue := queue[a := kept];
      assert Kept() == r;
    }

    /**
     Moves the executable run at the front of an account's queue to its pending list, and its
     virtual nonce to the end of the run.
     */
    method PromoteReady(a: Address)
      requires Inv() && limbo == {} && a in queue
      requires forall n :: n in queue[a].items ==> chain.Nonce(a) <= n
      modifies this`pending, this`queue, this`virtual, this`limbo
      ensures Inv() && limbo == {}
      ensures a in queue && queue == old(queue)[a := queue[a]] && ChangedAt(old(pending), pending, a)
      ensures Promoted(old(queue)[a], queue[a], ListOf(old(pending), a, true), ListOf(pending, a, true),
                       old(virtual), virtual, chain, a)
      ensures Quiet(queue, virtual, chain, a)
      ensures Keeps(old(pending), old(virtual), pending, virtual, chain)
    {
      var list := queue[a];
      assert ListOk(a, list, false);
      ghost var p0, v0 := ListOf(pending, a, true), virtual;
      var start := VirtualNonce(virtual, chain, a);
      if list.items != map[] && Least(list.items) <= start {
        PromoteFrom(a, list, Least(list.items));
      } else {
        NothingPromoted(list, p0, virtual, chain, a);
      }
      PromotedLeavesNothing(list, queue, p0, ListOf(pending, a, true), v0, virtual, chain, a);
    }

    /** Promotes the run at the front of an account's queue, which starts at the given nonce. */
    method PromoteFrom(a: Address, list: List, first: nat)
      requires Inv() && limbo == {} && a in queue && list == queue[a] && list.items != map[]
      requires first == Least(list.items) <= VirtualNonce(virtual, chain, a)
      requires forall n :: n in list.items ==> chain.Nonce(a) <= n
      modifies this`pending, this`queue, this`virtual, this`limbo
      ensures Inv() && limbo == {}
      ensures a in queue && queue == old(queue)[a := queue[a]] && ChangedAt(old(pending), pending, a)
      ensures Promoted(list, queue[a], ListOf(old(pending), a, true), ListOf(pending, a, true), old(virtual), virtual,
                       chain, a)
      ensures Keeps(old(pending), old(virtual), pending, virtual, chain)
    {
      assert ListOk(a, list, false);
      var end := first + RunLength(list.items, first);
      var kept := list.(items := AtLeast(list.items, end));
      ReadyRun(list, kept, first, end);
      FirstReady(Kept(), priced.preimage, virtual, chain, a);
      ghost var p0, v0 := pending, virtual;
      Dequeue(a, kept);
      PromoteRun(a, list.items, first, end);
      RunPromoted(list, kept, p0, pending, v0, virtual, chain, a, first, end);
    }

    method PromoteRun(a: Address, items: Items, first: nat, end: nat)
      requires Inv() && limbo == Upcoming(items, first, end)
      requires KeyedByNonce(items) && forall n :: n in items ==> items[n].sender == a
      requires first < end && forall n :: first <= n < end ==> n in items
      modifies this`pending, this`virtual, this`limbo
      ensures Inv() && limbo == {} && MovedOver(old(pending), pending, old(virtual), virtual, a, items, first, end)
      ensures VirtualNonce(old(virtual), chain, a) == first ==>
                Keeps(old(pending), old(virtual), pending, virtual, chain)
    {
      ghost var p0, v0 := pending, virtual;
      NoneMoved(p0, v0, a, items, first, end);
      for n := first to end
        invariant Inv() && limbo == Upcoming(items, n, end)
        invariant MovedOver(p0, pending, v0, virtual, a, items, first, n)
        invariant VirtualNonce(v0, chain, a) == first ==> Keeps(p0, v0, pending, virtual, chain)
      {
        PromoteNext(a, items, first, n, end, p0, v0);
      }
    }

    method PromoteNext(a: Address, items: Items, first: nat, n: nat, end: nat, ghost p0: Lists, ghost v0: Nonces)
      requires Inv() && limbo == Upcoming(items, n, end) && MovedOver(p0, pending, v0, virtual, a, items, first, n)
      requires first <= n < end && n in items && items[n].nonce == n && items[n].sender == a && KeyedByNonce(items)
      modifies this`pending, this`virtual, this`limbo
      ensures Inv() && limbo == Upcoming(items, n + 1, end)
      ensures MovedOver(p0, pending, v0, virtual, a, items, first, n + 1)
      ensures VirtualNonce(old(virtual), chain, a) == n ==> Keeps(old(pending), old(virtual), pending, virtual, chain)
    {
      UpcomingStep(items, n, end);
      ghost var p, v := pending, virtual;
      var ok := PromoteTx(items[n]);
      ExtendContiguous(p, pending, v, virtual, chain, a, n);
      OneMoved(p0, p, pending, v0, v, virtual, a, items, first, n);
    }

    /**
     Drops what an account's queue may no longer hold, promotes what has become executable and
     caps the rest unless the account is local.
     */
    method PromoteAccount(a: Address)
      requires Inv() && limbo == {} && a in queue
      modifies this`pending, this`queue, this`all, this`virtual, this`limbo, priced
      ensures Inv() && limbo == {} && LostFairly(chain, maxGas, locals, old(all), all)
      ensures ChangedAt(old(queue), queue, a) && ChangedAt(old(pending), pending, a)
      ensures PromotedAndCapped(old(queue)[a].items, ListOf(queue, a, false).items,
                                ListOf(old(pending), a, true).items, ListOf(pending, a, true).items,
                                old(virtual), virtual, chain, maxGas, a, a in locals, config.accountQueue)
      ensures a !in locals ==> |ListOf(queue, a, false).items| <= config.accountQueue
      ensures PayableList(chain, maxGas, ListOf(queue, a, false))
      ensures PayableList(chain, maxGas, ListOf(old(pending), a, true)) ==>
                PayableList(chain, maxGas, ListOf(pending, a, true))
      ensures StaysQuiet(old(queue), old(virtual), queue, virtual, chain, {}) && Quiet(queue, virtual, chain, a)
      ensures Keeps(old(pending), old(virtual), pending, virtual, chain)
    {
      ghost var q0, p0, v0 := queue, pending, virtual;
      DropUnrunnable(a);
      ghost var q1 := queue;
      PromoteReady(a);
      ghost var q2 := queue;
      CapAccountQueue(a);
      ghost var local, limit := a in locals, config.accountQueue;
      PromotionSteps(chain, maxGas, a, q0, q1, q2, queue, p0, pending, v0, virtual, local, limit);
      PromotedQuiet(q0, queue, ListOf(p0, a, true).items, ListOf(pending, a, true).items, v0, virtual,
                    chain, maxGas, a, local, limit);
      PromotedPayable(q0[a].items, ListOf(queue, a, false), ListOf(p0, a, true), ListOf(pending, a, true), v0, virtual,
                      chain, maxGas, a, local, limit);
    }

    /** The last two steps of promotion: the limit per remote account, and deletion of an empty list. */
    method CapAccountQueue(a: Address)
      requires Inv() && limbo == {} && a in queue
      modifies this`queue, this`all, this`limbo, priced
      ensures Inv() && limbo == {} && LostRemote(locals, old(all), all)
      ensures ChangedAt(old(queue), queue, a)
      ensures ListOf(queue, a, false).items == CappedItems(old(queue)[a].items, a in locals, config.accountQueue)
      ensures a !in locals ==> |ListOf(queue, a, false).items| <= config.accountQueue
    {
      assert ListOk(a, queue[a], false);
      if a !in locals {
        var list := queue[a];
        CapLength(list.items, config.accountQueue);
        DropFromQueue(a, list.(items := Below(list.items, CutOff(list.items, config.accountQueue))));
      }
      if queue[a].items == map[] {
        DeleteQueue(Kept(), priced.preimage, a);
        queue := queue - {a};
      }
    }

    /** The first two steps of promotion: old nonces and unaffordable transactions leave the queue. */
    method DropUnrunnable(a: Address)
      requires Inv() && limbo == {} && a in queue
      modifies this`queue, this`all, this`limbo, priced
      ensures Inv() && limbo == {} && LostUnpayable(chain, maxGas, old(all), all)
      ensures a in queue && queue == old(queue)[a := queue[a]]
      ensures queue[a].items == PayableItems(chain, maxGas, old(queue)[a].items)
      ensures forall n :: n in queue[a].items ==> chain.Nonce(a) <= n
    {
      assert ListOk(a, queue[a], false);
      PayableIs(chain, maxGas, a, queue[a]);
      DropFromQueue(a, queue[a].(items := AtLeast(queue[a].items, chain.Nonce(a))));
      DropFromQueue(a, Filtered(queue[a], chain.Balance(a), maxGas));
      assert ListOk(a, queue[a], false);
    }

    /** Takes entries off a pending list and out of the pool. */
    method DropFromPending(a: Address, kept: List)
      requires Inv() && limbo == {} && a in pending && Shrunk(pending[a], kept)
      modifies this`pending, this`all, this`limbo, priced
      ensures Inv() && limbo == {} && pending == old(pending)[a := kept]
      ensures all == Without(old(all), Removed(old(pending)[a], kept))
    {
      var gone := Removed(pending[a], kept);
      Unlist(a, kept);
      Forget(gone);
    }

    /** Takes entries off a pending list; where they go is for the caller to say. */
    method Unlist(a: Address, kept: List)
      requires Inv() && limbo == {} && a in pending && Shrunk(pending[a], kept)
      modifies this`pending, this`limbo
      ensures Inv() && limbo == Removed(old(pending)[a], kept) && pending == old(pending)[a := kept]
    {
      ghost var r := TakeFromPending(Kept(), priced.preimage, a, kept);
      limbo := Removed(pending[a], kept);
      pending := pending[a := kept];
      assert Kept() == r;
    }

    /** Drops the highest nonce of an account's pending list and lowers its virtual nonce to it. */
    method CutTop(a: Address)
      requires Inv() && limbo == {} && Len(pending, a) > 0
      modifies this`pending, this`all, this`virtual, this`limbo, priced
      ensures Inv() && limbo == {}
      ensures TopCut(old(Stocked()), Stocked(), chain, a) && Total(pending) == Total(old(pending)) - 1
      ensures Keeps(old(pending), old(virtual), pending, virtual, chain)
    {
      ghost var was, v := pending, virtual;
      var top := DropTop(a);
      Lower(a, top);
      CutContiguous(was, pending, v, virtual, chain, a, top);
    }

    method DropTop(a: Address) returns (top: nat)
      requires Inv() && limbo == {} && Len(pending, a) > 0
      modifies this`pending, this`all, this`limbo, priced
      ensures Inv() && limbo == {} && TopDropped(old(pending), pending, old(all), all, a, top)
      ensures Total(pending) == Total(old(pending)) - 1
    {
      var list := pending[a];
      assert ListOk(a, list, true);
      TopAlone(a, list);
      top := Top(list.items) - 1;
      var kept := list.(items := Below(list.items, top));
      TotalUpdate(pending, a, kept);
      DropFromPending(a, kept);
    }

    /** Cuts every listed account by one transaction. */
    method CutRound(who: seq<Address>)
      requires Inv() && limbo == {} && Distinct(who)
      requires forall i :: 0 <= i < |who| ==> Len(pending, who[i]) > 0
      modifies this`pending, this`all, this`virtual, this`limbo, priced
      ensures Inv() && limbo == {} && Trimmed(old(Stocked()), Stocked(), chain, who)
      ensures CutOnly(old(pending), pending, who)
      ensures forall i :: 0 <= i < |who| ==> Len(pending, who[i]) == Len(old(pending), who[i]) - 1
      ensures Total(pending) == Total(old(pending)) - |who|
      ensures Keeps(old(pending), old(virtual), pending, virtual, chain)
    {
      TrimmedRefl(Stocked(), chain, who);
      for i := 0 to |who|
        invariant Inv() && limbo == {} && Trimmed(old(Stocked()), Stocked(), chain, who)
        invariant PartlyCut(old(pending), pending, who, i) && Total(pending) == Total(old(pending)) - i
        invariant Keeps(old(pending), old(virtual), pending, virtual, chain)
      {
        ghost var p, mid := pending, Stocked();
        CutTop(who[i]);
        TrimmedTop(mid, Stocked(), chain, who, who[i]);
        TrimmedTrans(old(Stocked()), mid, Stocked(), chain, who);
        OneCut(old(pending), p, pending, who, i);
      }
    }

    /**
     Cuts accounts of equal length by one transaction each, round after round, until the pool is
     within its limit or they are down to the threshold.
     */
    method CutDown(who: seq<Address>, threshold: nat, count: nat) returns (left: nat)
      requires Inv() && limbo == {} && who != [] && Distinct(who) && count == Total(pending)
      requires Level(pending, who, Len(pending, who[0])) && threshold <= Len(pending, who[0])
      modifies this`pending, this`all, this`virtual, this`limbo, priced
      ensures Inv() && limbo == {} && Trimmed(old(Stocked()), Stocked(), chain, who)
      ensures left == Total(pending) && CutOnly(old(pending), pending, who)
      ensures Level(pending, who, Len(pending, who[0])) && threshold <= Len(pending, who[0])
      ensures left <= config.globalSlots || Len(pending, who[0]) == threshold
      ensures Rounds(old(pending), pending, who, count, left, config.globalSlots)
      ensures Keeps(old(pending), old(virtual), pending, virtual, chain)
    {
      left := count;
      ghost var s0 := Stocked();
      TrimmedRefl(s0, chain, who);
      while left > config.globalSlots && Len(pending, who[|who| - 1]) > threshold
        invariant Inv() && limbo == {} && Trimmed(s0, Stocked(), chain, who)
        invariant left == Total(pending) && CutOnly(s0.pending, pending, who)
        invariant Level(pending, who, Len(pending, who[0])) && threshold <= Len(pending, who[0])
        invariant Rounds(s0.pending, pending, who, count, left, config.globalSlots)
        invariant Keeps(s0.pending, s0.virtual, pending, virtual, chain)
        decreases left
      {
        ghost var mid := Stocked();
        CutRound(who);
        TrimmedTrans(s0, mid, Stocked(), chain, who);
        left := left - |who|;
      }
    }

    /**
     Enforces the limit on pending transactions.  The running counter is the true total; either
     it ends within the limit or every remote account is down to its allowance; local accounts
     are never cut and nobody is cut below the allowance, or below another remote account; one more
     transaction for each account cut would be too many.
     */
    method CapPending() returns (count: nat)
      requires Inv() && limbo == {}
      modifies this`pending, this`all, this`virtual, this`limbo, priced
      ensures Inv() && limbo == {} && LostRemote(locals, old(all), all) && NoneRaised(old(virtual), virtual, chain)
      ensures count == Total(pending)
      ensures || count <= config.globalSlots
              || forall a :: a in pending && a !in locals ==> |pending[a].items| <= config.accountSlots
      ensures FairlyCut(old(pending), pending, locals, config.accountSlots)
      ensures HighestCut(old(Stocked()), Stocked(), chain)
      ensures Total(old(pending)) <= config.globalSlots ==> Stocked() == old(Stocked())
      ensures PendingCapped(old(pending), pending, locals, config.globalSlots, config.accountSlots)
      ensures Keeps(old(pending), old(virtual), pending, virtual, chain)
    {
      count := Count(pending);
      TrimmedRefl(Stocked(), chain, []);
      TrimmedRemote(Stocked(), Stocked(), chain, [], locals);
      if count > config.globalSlots {
        ghost var was := Stocked();
        ghost var offenders;
        count, offenders := CutOffenders(count);
        TrimmedRemote(was, Stocked(), chain, offenders, locals);
        CutLowest(was, Stocked(), chain);
      }
    }

    /** Both phases of the cap, in a pool above the limit. */
    method CutOffenders(total: nat) returns (count: nat, ghost who: seq<Address>)
      requires Inv() && limbo == {} && total == Total(pending) > config.globalSlots
      modifies this`pending, this`all, this`virtual, this`limbo, priced
      ensures Inv() && limbo == {} && Trimmed(old(Stocked()), Stocked(), chain, who)
      ensures count == Total(pending) && forall o :: o in who ==> o !in locals
      ensures || count <= config.globalSlots
              || forall a :: a in pending && a !in locals ==> |pending[a].items| <= config.accountSlots
      ensures FairlyCut(old(pending), pending, locals, config.accountSlots)
      ensures NoneFavoured(old(pending), pending, locals)
      ensures NoMoreThanNeeded(old(pending), pending, config.globalSlots)
      ensures Keeps(old(pending), old(virtual), pending, virtual, chain)
    {
      ghost var was := Stocked();
      var offenders;
      offenders, count := Equalize(total);
      ghost var mid := Stocked();
      if count > config.globalSlots && |offenders| > 0 {
        ghost var above := count;
        count := CutDown(offenders, config.accountSlots, count);
        TrimmedTrans(was, mid, Stocked(), chain, offenders);
        RestLower(was.pending, mid.pending, pending, offenders, locals, config.accountSlots, above, count,
                  config.globalSlots);
      }
      CutToAllowance(was.pending, mid.pending, pending, offenders, locals, config.accountSlots);
      who := offenders;
    }

    /** The first phase of the cap: equalizes ever more of the largest accounts. */
    method Equalize(total: nat) returns (offenders: seq<Address>, count: nat)
      requires Inv() && limbo == {} && total == Total(pending) > config.globalSlots
      modifies this`pending, this`all, this`virtual, this`limbo, priced
      ensures Inv() && limbo == {} && Trimmed(old(Stocked()), Stocked(), chain, offenders)
      ensures count == Total(pending) && Distinct(offenders) && CutOnly(old(pending), pending, offenders)
      ensures forall o :: o in offenders ==> o in pending && o !in locals && Len(pending, o) > config.accountSlots
      ensures NoneFavoured(old(pending), pending, locals)
      ensures NoMoreThanNeeded(old(pending), pending, config.globalSlots)
      ensures count > config.globalSlots ==>
                && (offenders != [] ==> Level(pending, offenders, Len(pending, offenders[0])))
                && forall a :: a in pending && a !in locals && a !in offenders ==>
                    |pending[a].items| <= config.accountSlots
      ensures Keeps(old(pending), old(virtual), pending, virtual, chain)
    {
      count, offenders := total, [];
      ghost var s0 := Stocked();
      TrimmedRefl(s0, chain, offenders);
      var spammers := ListSpammers(pending, locals, config.accountSlots);
      while count > config.globalSlots && spammers != []
        invariant Equalizing(s0, spammers, offenders, count)
        decreases |spammers|
      {
        spammers, offenders, count := EqualizeNext(s0, spammers, offenders, count);
      }
      if spammers == [] {
        assert multiset(Suspects(s0.pending, locals, config.accountSlots, offenders)) == multiset{};
        NoSuspects(s0.pending, locals, config.accountSlots, offenders);
      }
    }

    /** The state of the first phase: the offenders are level, and the heap holds the other suspects. */
    ghost predicate Equalizing(s0: Stock, spammers: seq<Spammer>, offenders: seq<Address>, count: nat)
      reads this, priced
    {
      && Inv() && limbo == {} && count == Total(pending)
      && Trimmed(s0, Stocked(), chain, offenders) && Keeps(s0.pending, s0.virtual, pending, virtual, chain)
      && Heap.IsHeap(spammers, SpamKey)
      && multiset(spammers) == multiset(Suspects(s0.pending, locals, config.accountSlots, offenders))
      && SingledOut(s0.pending, pending, offenders, locals, config.accountSlots)
      && NoneFavoured(s0.pending, pending, locals) && NoMoreThanNeeded(s0.pending, pending, config.globalSlots)
      && (count > config.globalSlots ==> Levelled(s0.pending, pending, offenders, locals, config.accountSlots))
    }

    /** Cuts the offenders so far towards the next largest account, which becomes one of them. */
    method EqualizeNext(ghost s0: Stock, spammers: seq<Spammer>, offenders: seq<Address>, count: nat)
      returns (rest: seq<Spammer>, more: seq<Address>, left: nat)
      requires Equalizing(s0, spammers, offenders, count) && count > config.globalSlots && spammers != []
      modifies this`pending, this`all, this`virtual, this`limbo, priced
      ensures Equalizing(s0, rest, more, left) && |rest| < |spammers|
    {
      var offender;
      offender, rest := PopSpammer(spammers, s0.pending, locals, config.accountSlots, offenders);
      ghost var p, mid := pending, Stocked();
      TrimmedMore(s0, mid, chain, offenders, offender);
      NextIsNoLonger(s0.pending, p, offenders, offender, locals, config.accountSlots);
      left := CutTowards(offenders, offender, count);
      CutLevel(s0.pending, p, pending, offenders, offender, locals, config.accountSlots, count, left,
               config.globalSlots);
      OneMore(s0.pending, p, pending, offenders, offender, locals, config.accountSlots);
      more := offenders + [offender];
      TrimmedTrans(s0, mid, Stocked(), chain, more);
    }

    /** Cuts the offenders, if there are any, down to the length of the next one or to the limit. */
    method CutTowards(offenders: seq<Address>, offender: Address, count: nat) returns (left: nat)
      requires Inv() && limbo == {} && Distinct(offenders) && count == Total(pending)
      requires LevelAbove(pending, offenders, offender)
      modifies this`pending, this`all, this`virtual, this`limbo, priced
      ensures Inv() && limbo == {} && left == Total(pending)
      ensures Trimmed(old(Stocked()), Stocked(), chain, offenders + [offender])
      ensures Keeps(old(pending), old(virtual), pending, virtual, chain)
      ensures CutBack(old(pending), pending, offenders, offender)
      ensures Rounds(old(pending), pending, offenders, count, left, config.globalSlots)
      ensures left > config.globalSlots && offenders != [] ==> Len(pending, offenders[0]) == Len(old(pending), offender)
    {
      left := count;
      TrimmedRefl(Stocked(), chain, offenders);
      if |offenders| > 0 {
        left := CutDown(offenders, Len(pending, offender), count);
      }
      TrimmedMore(old(Stocked()), Stocked(), chain, offenders, offender);
    }

    /** Removes queued transactions of one account, in the order given. */
    method RemoveQueued(a: Address, txs: seq<Tx>)
      requires Inv() && limbo == {}
      requires QueuedOf(queue, a, txs, 0)
      modifies this`pending, this`queue, this`all, this`limbo, this`dropping, this`virtual, priced
      ensures Inv() && limbo == {} && dropping <= old(dropping)
      ensures pending == old(pending) && virtual == old(virtual)
      ensures StaysQuiet(old(queue), old(virtual), queue, virtual, chain, {})
      ensures TakenOut(old(queue), queue, old(all), all, a, txs, |txs|) && NoLonger(old(queue), queue)
    {
      ghost var q0, all0 := queue, all;
      NoneTakenOut(Kept(), priced.preimage, a, txs);
      for i := 0 to |txs|
        invariant Inv() && limbo == {} && dropping <= old(dropping)
        invariant pending == old(pending) && virtual == old(virtual)
        invariant StaysQuiet(q0, virtual, queue, virtual, chain, {})
        invariant QueuedOf(queue, a, txs, i) && TakenOut(q0, queue, all0, all, a, txs, i)
      {
        RemoveQueuedTx(a, txs, i, q0, all0);
      }
      OutNoLonger(q0, queue, all0, all, a, txs);
    }

    method RemoveQueuedTx(a: Address, txs: seq<Tx>, i: nat, ghost q0: Lists, ghost all0: Lookup)
      requires Inv() && limbo == {} && i < |txs| && AllListed(q0, all0, a, txs)
      requires QueuedOf(queue, a, txs, i) && TakenOut(q0, queue, all0, all, a, txs, i)
      modifies this`pending, this`queue, this`all, this`limbo, this`dropping, this`virtual, priced
      ensures Inv() && limbo == {} && dropping <= old(dropping)
      ensures pending == old(pending) && virtual == old(virtual)
      ensures StaysQuiet(old(queue), old(virtual), queue, virtual, chain, {})
      ensures QueuedOf(queue, a, txs, i + 1) && TakenOut(q0, queue, all0, all, a, txs, i + 1)
    {
      OneTakenOut(q0, queue, all0, all, a, txs, i);
      assert Placed(Kept(), txs[i]);
      RemoveTx(txs[i].hash, true);
    }

    /**
     Enforces the limit on queued transactions at the expense of remote accounts, in whatever
     order their heartbeats put them.  Nothing goes while the limit is kept, and no more than exceeds
     it; whole queues go, but for one that may keep its lowest nonces.
     */
    method CapQueue()
      requires Inv() && limbo == {}
      modifies this`pending, this`queue, this`all, this`limbo, this`dropping, this`virtual, priced
      ensures Inv() && limbo == {} && dropping <= old(dropping) && LostRemote(locals, old(all), all)
      ensures pending == old(pending) && virtual == old(virtual)
      ensures StaysQuiet(old(queue), old(virtual), queue, virtual, chain, {})
      ensures Total(queue) <= config.globalQueue || forall a :: a in queue && a !in locals ==> Len(queue, a) == 0
      ensures forall a :: a in old(queue) && a in locals ==> a in queue && queue[a] == old(queue)[a]
      ensures QueueCapped(old(queue), queue, locals, config.globalQueue)
      ensures Total(old(queue)) <= config.globalQueue ==> all == old(all)
    {
      var queued := Count(queue);
      WholeRefl(queue);
      if queued <= config.globalQueue {
        return;
      }
      var drop: nat := queued - config.globalQueue;
      var addresses := set a | a in queue && a !in locals;
      ghost var was := Snap();
      while drop > 0 && addresses != {}
        invariant Capping(was, drop, addresses) && dropping <= old(dropping)
        decreases addresses
      {
        var a :| a in addresses;
        addresses := addresses - {a};
        drop := CapNext(was, a, drop, addresses);
      }
    }

    /** How far the cap on queues has come: so many are still to be dropped, at the expense of these accounts. */
    ghost predicate Capping(was: Snapshot, drop: nat, addresses: set<Address>)
      reads this, priced
    {
      && Inv() && limbo == {} && LostRemote(locals, was.all, all)
      && pending == was.pending && virtual == was.virtual
      && StaysQuiet(was.queue, was.virtual, queue, virtual, chain, {})
      && addresses !! locals && addresses <= queue.Keys
      && Total(queue) == config.globalQueue + drop
      && WholeButOne(was.queue, queue) && (drop > 0 ==> AllWhole(was.queue, queue))
      && (forall a :: a in queue ==> a in locals || a in addresses || drop == 0 || Len(queue, a) == 0)
      && (forall a :: a in was.queue && a in locals ==> a in queue && queue[a] == was.queue[a])
    }

    method CapNext(ghost was: Snapshot, a: Address, drop: nat, ghost rest: set<Address>) returns (left: nat)
      requires drop > 0 && a !in rest && Capping(was, drop, rest + {a})
      modifies this`pending, this`queue, this`all, this`limbo, this`dropping, this`virtual, priced
      ensures Capping(was, left, rest) && dropping <= old(dropping)
    {
      ghost var q := queue;
      left := CapQueueOf(a, drop);
      OneMoreCut(was.queue, q, queue, a);
    }

    /** Drops up to so many transactions of one account's queue, the highest nonces first. */
    method CapQueueOf(a: Address, drop: nat) returns (left: nat)
      requires Inv() && limbo == {} && a in queue && drop > 0
      modifies this`pending, this`queue, this`all, this`limbo, this`dropping, this`virtual, priced
      ensures Inv() && limbo == {} && dropping <= old(dropping) && LostOfOne(a, old(all), all)
      ensures pending == old(pending) && virtual == old(virtual)
      ensures StaysQuiet(old(queue), old(virtual), queue, virtual, chain, {}) && ChangedAt(old(queue), queue, a)
      ensures left <= drop && Total(queue) == Total(old(queue)) - (drop - left)
      ensures left > 0 ==> Len(queue, a) == 0
      ensures LowestKept(old(queue)[a].items, ListOf(queue, a, false).items)
    {
      var txs := Flatten(queue[a].items);
      AllQueued(Kept(), priced.preimage, a);
      assert ListOk(a, queue[a], false);
      ghost var q, all0 := queue, all;
      if |txs| <= drop {
        RemoveQueued(a, txs);
        TailGone(q, queue, all0, all, a, |txs|, txs);
        left := drop - |txs|;
      } else {
        LastQueued(queue, a, txs, drop);
        RemoveQueued(a, Reverse(txs[|txs| - drop..]));
        TailGone(q, queue, all0, all, a, drop, Reverse(txs[|txs| - drop..]));
        left := 0;
      }
    }

    /**
     Promotes what has become executable among the given accounts and enforces the limits of the
     whole pool.  `mid` is the pool between both: from there on transactions leave only to meet a limit
     that is exceeded.
     */
    method PromoteExecutables(accounts: set<Address>) returns (ghost mid: Snapshot)
      requires Settled()
      modifies this`pending, this`queue, this`all, this`limbo, this`dropping, this`virtual, priced
      ensures Settled() && LostFairly(chain, maxGas, locals, old(all), all)
      ensures Keeps(old(pending), old(virtual), pending, virtual, chain)
      ensures StaysQuiet(old(queue), old(virtual), queue, virtual, chain, {})
      ensures forall a :: a in accounts ==> Quiet(queue, virtual, chain, a)
      ensures PayableLists(chain, maxGas, old(pending), {}) && old(queue).Keys <= accounts ==>
                PayableAll(chain, maxGas, all)
      ensures WithinLimits()
      ensures EachPromoted(old(Snap()), mid, chain, maxGas, config.accountQueue, accounts)
      ensures PendingCapped(mid.pending, pending, locals, config.globalSlots, config.accountSlots)
      ensures QueueCapped(mid.queue, queue, locals, config.globalQueue)
      ensures Total(mid.pending) <= config.globalSlots ==> virtual == mid.virtual
      ensures Total(mid.pending) <= config.globalSlots && Total(mid.queue) <= config.globalQueue ==> all == mid.all
      ensures Ample(old(Snap()), accounts, config) ==> LostUnpayable(chain, maxGas, old(all), all)
    {
      ghost var was := Snap();
      PromoteEach(accounts);
      AmpleKeeps(was, Snap(), priced.preimage, chain, maxGas, config, accounts);
      AllPayable(Kept(), priced.preimage, chain, maxGas);
      ghost var v := virtual;
      mid := Snap();
      var count := CapPending();
      FewerQuiet(queue, v, queue, virtual, chain);
      CapQueue();
    }

    /** The first part: every given account is promoted. */
    method PromoteEach(accounts: set<Address>)
      requires Settled()
      modifies this`pending, this`queue, this`all, this`limbo, this`dropping, this`virtual, priced
      ensures Settled() && LostFairly(chain, maxGas, locals, old(all), all)
      ensures Keeps(old(pending), old(virtual), pending, virtual, chain)
      ensures StaysQuiet(old(queue), old(virtual), queue, virtual, chain, {})
      ensures forall a :: a in accounts ==> Quiet(queue, virtual, chain, a)
      ensures old(queue).Keys <= accounts ==> PayableLists(chain, maxGas, queue, {})
      ensures PayableLists(chain, maxGas, old(pending), {}) ==> PayableLists(chain, maxGas, pending, {})
      ensures EachPromoted(old(Snap()), Snap(), chain, maxGas, config.accountQueue, accounts)
    {
      ghost var was := Snap();
      NonePromoted(was, chain, maxGas, config.accountQueue);
      var todo := accounts;
      while todo != {}
        invariant Settled() && LostFairly(chain, maxGas, locals, old(all), all) && todo <= accounts
        invariant Keeps(old(pending), old(virtual), pending, virtual, chain)
        invariant StaysQuiet(old(queue), old(virtual), queue, virtual, chain, {})
        invariant forall a :: a in accounts && a !in todo ==> Quiet(queue, virtual, chain, a)
        invariant old(queue).Keys <= accounts ==> PayableLists(chain, maxGas, queue, todo)
        invariant PayableLists(chain, maxGas, old(pending), {}) ==> PayableLists(chain, maxGas, pending, {})
        invariant EachPromoted(was, Snap(), chain, maxGas, config.accountQueue, accounts - todo)
        decreases todo
      {
        var a :| a in todo;
        ghost var mid, done := Snap(), accounts - todo;
        todo := todo - {a};
        PromoteIfQueued(a, todo);
        OneMorePromoted(was, mid, Snap(), chain, maxGas, config.accountQueue, done, a);
        assert accounts - todo == done + {a};
      }
      assert accounts - todo == accounts;
    }

    method PromoteIfQueued(a: Address, ghost todo: set<Address>)
      requires Settled()
      modifies this`pending, this`queue, this`all, this`virtual, this`limbo, priced
      ensures Settled() && LostFairly(chain, maxGas, locals, old(all), all)
      ensures Keeps(old(pending), old(virtual), pending, virtual, chain)
      ensures StaysQuiet(old(queue), old(virtual), queue, virtual, chain, {}) && Quiet(queue, virtual, chain, a)
      ensures PayableLists(chain, maxGas, old(queue), todo + {a}) ==> PayableLists(chain, maxGas, queue, todo)
      ensures PayableLists(chain, maxGas, old(pending), {}) ==> PayableLists(chain, maxGas, pending, {})
      ensures EachPromoted(old(Snap()), Snap(), chain, maxGas, config.accountQueue, {a})
    {
      ghost var was := Snap();
      NothingToPromote(was, chain, maxGas, config.accountQueue, a);
      if a in queue {
        ghost var p, q := pending, queue;
        PromoteAccount(a);
        PromotedOne(was, Snap(), chain, maxGas, config.accountQueue, a);
        StillPayable(chain, maxGas, q, queue, a, todo, false);
        StillPayable(chain, maxGas, p, pending, a, {}, true);
      }
    }

    /** Lists that got no longer are within their limits if they were. */
    lemma StillLimited(p0: Lists, p1: Lists, q0: Lists, q1: Lists, locals0: set<Address>)
      requires p1 == pending && q1 == queue && locals0 <= locals && NoLonger(p0, p1)
      ensures PendingWithin(p0, locals0, config.globalSlots, config.accountSlots) ==> PendingLimited()
      ensures NoLonger(q0, q1) && QueueWithin(q0, locals0, config.globalQueue) ==> QueueLimited()
    {
      StillWithin(p0, p1, locals0, locals, config.globalSlots, config.accountSlots);
      if NoLonger(q0, q1) {
        StillWithin(q0, q1, locals0, locals, config.globalQueue, 0);
      }
    }

    /** What the caps guarantee of the whole pool. */
    ghost predicate WithinLimits()
      reads this
    {
      PendingLimited() && QueueLimited()
    }

    ghost predicate PendingLimited()
      reads this
    {
      PendingWithin(pending, locals, config.globalSlots, config.accountSlots)
    }

    ghost predicate QueueLimited()
      reads this
    {
      QueueWithin(queue, locals, config.globalQueue)
    }

    /**
     Brings one account's pending list in line with the chain: used-up nonces and unaffordable
     transactions leave the pool, what they leave behind a gap goes back to the queue, and so
     does the whole list if it does not start at the account's nonce.
     */
    method DemoteAccount(a: Address)
      requires Settled() && a in pending
      modifies this`pending, this`queue, this`all, this`limbo, priced
      ensures Settled() && LostUnpayable(chain, maxGas, old(all), all)
      ensures ChangedAt(old(pending), pending, a)
      ensures a in pending ==> Runnable(chain, maxGas, a, pending[a], Gapless(old(pending)[a].items))
      ensures DemotedTo(old(pending)[a].items, ListOf(pending, a, true).items, chain, maxGas, a)
    {
      KeepRunnable(a);
      var list := pending[a];
      if list.items != map[] && chain.Nonce(a) !in list.items {
        PostponeAll(a);
      }
      DropIfEmpty(a);
    }

    /** Drops used-up nonces and unaffordable transactions; what is left runs if it starts at the account's nonce. */
    method KeepRunnable(a: Address)
      requires Settled() && a in pending
      modifies this`pending, this`queue, this`all, this`limbo, priced
      ensures Settled() && LostUnpayable(chain, maxGas, old(all), all)
      ensures a in pending && pending == old(pending)[a := pending[a]]
      ensures chain.Nonce(a) in pending[a].items ==>
                Runnable(chain, maxGas, a, pending[a], Gapless(old(pending)[a].items))
      ensures PayableStretch(old(pending)[a].items, pending[a].items, chain, maxGas, a)
    {
      ghost var list, was, p := pending[a], all, pending;
      assert ListOk(a, pending[a], true);
      UnpayableGone(chain, maxGas, a, list, was);
      DropFromPending(a, pending[a].(items := AtLeast(pending[a].items, chain.Nonce(a))));
      ghost var mid := pending[a];
      DemoteInvalid(a);
      UpdatedTwice(p, a, mid, pending[a]);
      assert ListOk(a, pending[a], true);
      FilteredRunnable(chain, maxGas, a, list, pending[a]);
      FilteredStretch(chain, maxGas, a, list, pending[a].items);
    }

    method DropIfEmpty(a: Address)
      requires Settled() && a in pending
      modifies this`pending
      ensures Settled()
      ensures pending == if old(pending)[a].items == map[] then old(pending) - {a} else old(pending)
    {
      if pending[a].items == map[] {
        DeletePending(Kept(), priced.preimage, a);
        pending := pending - {a};
      }
    }

    /** Filters a pending list: the costly leave the pool, the invalidated go back to the queue. */
    method DemoteInvalid(a: Address)
      requires Settled() && a in pending
      modifies this`pending, this`queue, this`all, this`limbo, priced
      ensures Settled() && all == Without(old(all), Costly(old(pending)[a].items, chain.Balance(a), maxGas).Values)
      ensures a in pending && pending == old(pending)[a := pending[a]]
      ensures pending[a].items == Affordable(old(pending)[a], chain.Balance(a), maxGas)
    {
      var list := pending[a];
      assert ListOk(a, list, true);
      var kept := Filtered(list, chain.Balance(a), maxGas);
      var drops := Costly(list.items, chain.Balance(a), maxGas).Values;
      var invalids := Invalidated(list, chain.Balance(a), maxGas).Values;
      FilterRemoved(list, kept, chain.Balance(a), maxGas);
      Scatter(a, kept, drops, invalids);
    }

    /** Of what is taken off a pending list, some leaves the pool and the rest goes back to the queue. */
    method Scatter(a: Address, kept: List, drops: set<Tx>, invalids: set<Tx>)
      requires Settled() && a in pending && Shrunk(pending[a], kept)
      requires Removed(pending[a], kept) == drops + invalids && drops !! invalids
      modifies this`pending, this`queue, this`all, this`limbo, priced
      ensures Settled() && all == Without(old(all), drops) && pending == old(pending)[a := kept]
    {
      Unlist(a, kept);
      Forget(drops);
      RequeueAll(invalids);
    }

    /** Puts a whole pending list back into the queue. */
    method PostponeAll(a: Address)
      requires Settled() && a in pending
      modifies this`pending, this`queue, this`all, this`limbo, priced
      ensures Settled() && all == old(all)
      ensures a in pending && pending == old(pending)[a := pending[a]] && pending[a].items == map[]
    {
      var list := pending[a];
      assert ListOk(a, list, true);
      var kept := list.(items := map[]);
      Unlist(a, kept);
      RequeueAll(Removed(list, kept));
    }

    method DemoteUnexecutables()
      requires Settled()
      modifies this`pending, this`queue, this`all, this`limbo, priced
      ensures Settled() && LostUnpayable(chain, maxGas, old(all), all)
      ensures AllRunnable(chain, maxGas, old(pending), pending, {})
      ensures AllDemoted(chain, maxGas, old(pending), pending, {})
    {
      ghost var was := pending;
      var todo := pending.Keys;
      while todo != {}
        invariant Settled() && LostUnpayable(chain, maxGas, old(all), all) && todo <= pending.Keys
        invariant AllRunnable(chain, maxGas, old(pending), pending, todo)
        invariant AllDemoted(chain, maxGas, was, pending, todo)
        decreases todo
      {
        var a :| a in todo;
        ghost var mid := pending;
        DemoteAccount(a);
        OneDemoted(chain, maxGas, was, mid, pending, todo, a);
        todo := todo - {a};
      }
    }

    /** Sets every pending account's virtual nonce right after its last pending transaction. */
    method TrackPendingNonces()
      requires Settled() && forall a :: a in pending ==> pending[a].items != map[]
      modifies this`virtual
      ensures forall a :: VirtualNonce(virtual, chain, a) ==
                if a in pending then Top(pending[a].items) else VirtualNonce(old(virtual), chain, a)
    {
      var todo := pending.Keys;
      while todo != {}
        invariant todo <= pending.Keys
        invariant forall a :: VirtualNonce(virtual, chain, a) ==
                    if a in pending && a !in todo then Top(pending[a].items) else VirtualNonce(old(virtual), chain, a)
        decreases todo
      {
        var a :| a in todo;
        todo := todo - {a};
        assert ListOk(a, pending[a], true);
        CapByOne(pending[a].items);
        FlattenSorted(pending[a].items);
        var txs := Flatten(pending[a].items);
        virtual := virtual[a := txs[|txs| - 1].nonce + 1];
      }
    }

    /** Adds a batch and promotes the accounts that gained a transaction. */
    method AddTxsLocked(txs: seq<Tx>, local: bool) returns (errs: seq<Option<Error>>, ghost stages: seq<Snapshot>)
      requires Settled() && forall tx :: tx in txs ==> Genuine(priced.preimage, tx)
      modifies this`pending, this`queue, this`all, this`limbo, this`dropping, this`virtual, this`locals, priced
      ensures Settled() && |errs| == |txs|
      ensures PayableAll(chain, maxGas, old(all)) ==> PayableAll(chain, maxGas, all)
      ensures Keeps(old(pending), old(virtual), pending, virtual, chain)
      ensures StaysQuiet(old(queue), old(virtual), queue, virtual, chain, {})
      ensures LocalsKept(chain, maxGas, old(locals), old(all), all) && old(locals) <= locals
      ensures old(PendingLimited()) ==> PendingLimited()
      ensures old(QueueLimited()) && |old(all)| < Capacity() ==> QueueLimited()
      ensures NoneGained(old(all), all, txs, errs) || WithinLimits()
      ensures OnlyAdded(old(all), all, Elements(txs))
      ensures AcceptedStand(chain, maxGas, old(locals), all, txs, errs)
      ensures txs == [] ==> pending == old(pending) && queue == old(queue) && virtual == old(virtual) && all == old(all)
      ensures Staged(old(Rules()), txs, local, errs, stages) && stages[0] == old(Snap())
      ensures Fewer(stages[|txs|].all, all) && locals == stages[|txs|].locals
      ensures Spacious(stages[|txs|].all, locals, config) ==> LostUnpayable(chain, maxGas, stages[|txs|].all, all)
    {
      var dirty;
      ghost var all0, locals0 := all, locals;
      errs, dirty, stages := AddEach(txs, local);
      StillLimited(old(pending), pending, old(queue), queue, old(locals));
      if dirty != {} {
        ghost var was := all;
        if Spacious(all, locals, config) {
          SpaciousAmple(all, locals, Snap(), priced.preimage, dirty, config);
        }
        ghost var mid := PromoteExecutables(dirty);
        FairlyKept(chain, maxGas, locals, was, all);
        StillKept(chain, maxGas, locals0, locals, all0, was, all);
        StillStand(chain, maxGas, locals0, was, all, txs, errs);
      }
    }

    /** The first part: adds the transactions one by one and collects the accounts to promote. */
    method AddEach(txs: seq<Tx>, local: bool)
        returns (errs: seq<Option<Error>>, dirty: set<Address>, ghost stages: seq<Snapshot>)
      requires Settled() && forall tx :: tx in txs ==> Genuine(priced.preimage, tx)
      modifies this`pending, this`queue, this`all, this`limbo, this`dropping, this`virtual, this`locals, priced
      ensures Settled() && (PayableAll(chain, maxGas, old(all)) ==> PayableAll(chain, maxGas, all))
      ensures NoLonger(old(pending), pending)
      ensures Keeps(old(pending), old(virtual), pending, virtual, chain)
      ensures StaysQuiet(old(queue), old(virtual), queue, virtual, chain, dirty)
      ensures LocalsKept(chain, maxGas, old(locals), old(all), all) && old(locals) <= locals
      ensures dirty == {} ==> NoneGained(old(all), all, txs, errs)
      ensures dirty == {} && |old(all)| < Capacity() ==> NoLonger(old(queue), queue)
      ensures OnlyAdded(old(all), all, Elements(txs))
      ensures AcceptedStand(chain, maxGas, old(locals), all, txs, errs)
      ensures txs == [] ==>
                && dirty == {} && all == old(all)
                && pending == old(pending) && queue == old(queue) && virtual == old(virtual)
      ensures Staged(old(Rules()), txs, local, errs, stages) && stages[0] == old(Snap()) && stages[|txs|] == Snap()
    {
      errs, dirty := [], {};
      ghost var was, rules := Snap(), Rules();
      stages := [was];
      for i := 0 to |txs|
        invariant Adding(was, txs, i, errs, dirty)
        invariant i == 0 ==> dirty == {} && Snap() == was
        invariant rules == Rules() && Staged(rules, txs[..i], local, errs, stages)
        invariant stages[0] == was && stages[i] == Snap()
      {
        ghost var before := errs;
        var err;
        err, errs, dirty := AddNext(was, txs, i, local, errs, dirty);
        OneMoreStage(rules, txs, i, local, before, stages, err, Snap());
        stages := stages + [Snap()];
      }
      assert txs[..|txs|] == txs;
    }

    ghost function Snap(): Snapshot
      reads this
    {
      Snapshot(pending, queue, all, virtual, locals)
    }

    /** What holds of a batch once its first i transactions have been added. */
    ghost predicate Adding(was: Snapshot, txs: seq<Tx>, i: nat, errs: seq<Option<Error>>, dirty: set<Address>)
      reads this, priced
    {
      && i <= |txs| && Settled() && (PayableAll(chain, maxGas, was.all) ==> PayableAll(chain, maxGas, all))
      && NoLonger(was.pending, pending) && Keeps(was.pending, was.virtual, pending, virtual, chain)
      && StaysQuiet(was.queue, was.virtual, queue, virtual, chain, dirty)
      && LocalsKept(chain, maxGas, was.locals, was.all, all) && was.locals <= locals
      && (dirty == {} ==> NoneGained(was.all, all, txs[..i], errs))
      && (dirty == {} && |was.all| < Capacity() ==> NoLonger(was.queue, queue))
      && OnlyAdded(was.all, all, Elements(txs))
      && AcceptedStand(chain, maxGas, was.locals, all, txs[..i], errs)
    }

    method AddNext(ghost was: Snapshot, txs: seq<Tx>, i: nat, local: bool, errs: seq<Option<Error>>,
                   dirty: set<Address>)
        returns (err: Option<Error>, errs': seq<Option<Error>>, dirty': set<Address>)
      requires i < |txs| && Genuine(priced.preimage, txs[i]) && Adding(was, txs, i, errs, dirty)
      modifies this`pending, this`queue, this`all, this`limbo, this`dropping, this`virtual, this`locals, priced
      ensures Adding(was, txs, i + 1, errs', dirty')
      ensures errs' == errs + [err] && Answers(old(Rules()), old(Snap()), Snap(), txs[i], local, err)
    {
      ghost var before := all;
      var replaced;
      replaced, err := Add(txs[i], local);
      if dirty == {} && (err.Some? || replaced) {
        StillNoneGained(was.all, before, all, txs, i, errs, err);
      }
      OneOfThem(was.all, before, all, txs, i);
      OneAccepted(chain, maxGas, was.locals, before, all, txs, i, errs, err);
      errs', dirty' := errs + [err], dirty;
      if err.None? && !replaced {
        dirty' := dirty + {txs[i].sender};
      }
    }

    /**
     Moves the pool to a new chain state, or leaves it alone if that state is unavailable.
     Whatever was reinjected, everything left is payable and nothing queued could be promoted; and
     if nothing was reinjected, contiguous pending lists stay contiguous.
     */
    method Reset(state: Option<Chain>, gasLimit: nat, reinject: seq<Tx>)
      returns (ghost errs: seq<Option<Error>>, ghost stages: seq<Snapshot>)
      requires Valid() && forall tx :: tx in reinject ==> Genuine(priced.preimage, tx)
      modifies this`chain, this`maxGas, this`pending, this`queue, this`all, this`limbo, this`dropping, this`virtual,
          this`locals, priced
      ensures Valid()
      ensures if state.None? then chain == old(chain) && maxGas == old(maxGas) && all == old(all)
              else chain == state.value && maxGas == gasLimit
      ensures state.Some? ==> WithinLimits()
      ensures old(Contig()) && reinject == [] ==> Contig()
      ensures if state.None? then queue == old(queue) && virtual == old(virtual) else AllQuiet()
      ensures state.None? ==> pending == old(pending) && locals == old(locals)
      ensures OnlyAdded(old(all), all, Elements(reinject))
      ensures LocalsKept(chain, maxGas, old(locals), old(all), all) && old(locals) <= locals
      ensures state.Some? ==>
                && Staged(Rules(), reinject, false, errs, stages)
                && stages[0].all == old(all) && stages[0].locals == old(locals)
                && (Spacious(stages[|reinject|].all, locals, config) ==>
                      LostUnpayable(chain, maxGas, stages[|reinject|].all, all))
    {
      errs, stages := [], [];
      if state.None? {
        return;
      }
      chain, virtual, maxGas := state.value, map[], gasLimit;
      ghost var all0, locals0 := all, locals;
      errs, stages := Resettle(reinject, old(chain), old(virtual));
      ghost var was := all;
      PromoteAll(stages[|reinject|].all);
      StillKept(chain, maxGas, locals0, locals, all0, was, all);
    }

    /** The last part of Reset; `placed` is the lookup after the reinjection. */
    method PromoteAll(ghost placed: Lookup)
      requires Settled() && PayableLists(chain, maxGas, pending, {}) && Fewer(placed, all)
      requires Spacious(placed, locals, config) ==> LostUnpayable(chain, maxGas, placed, all)
      modifies this`pending, this`queue, this`all, this`limbo, this`dropping, this`virtual, priced
      ensures Valid() && WithinLimits() && AllQuiet() && Fewer(old(all), all)
      ensures Keeps(old(pending), old(virtual), pending, virtual, chain)
      ensures LocalsKept(chain, maxGas, locals, old(all), all)
      ensures Spacious(placed, locals, config) ==> LostUnpayable(chain, maxGas, placed, all)
    {
      ghost var was := Snap();
      if Spacious(placed, locals, config) {
        SpaciousAmple(placed, locals, was, priced.preimage, queue.Keys, config);
      }
      ghost var mid := PromoteExecutables(queue.Keys);
      FairlyKept(chain, maxGas, locals, was.all, all);
      EveryoneQuiet(was.queue, was.virtual, queue, virtual, chain);
      if Spacious(placed, locals, config) { LostTwice(chain, maxGas, placed, was.all, all); }
    }

    /** The middle part of Reset: reinjection, demotion, and the nonces after the pending lists. */
    method Resettle(reinject: seq<Tx>, ghost oldChain: Chain, ghost oldVirtual: Nonces)
      returns (ghost errs: seq<Option<Error>>, ghost stages: seq<Snapshot>)
      requires Settled() && virtual == map[] && forall tx :: tx in reinject ==> Genuine(priced.preimage, tx)
      modifies this`pending, this`queue, this`all, this`limbo, this`dropping, this`virtual, this`locals, priced
      ensures Settled() && PayableLists(chain, maxGas, pending, {})
      ensures Contiguous(old(pending), oldVirtual, oldChain) && reinject == [] ==> Contiguous(pending, virtual, chain)
      ensures OnlyAdded(old(all), all, Elements(reinject))
      ensures LocalsKept(chain, maxGas, old(locals), old(all), all) && old(locals) <= locals
      ensures Staged(old(Rules()), reinject, false, errs, stages)
      ensures stages[0].all == old(all) && stages[0].locals == old(locals) && Fewer(stages[|reinject|].all, all)
      ensures Spacious(stages[|reinject|].all, locals, config) ==>
                LostUnpayable(chain, maxGas, stages[|reinject|].all, all)
    {
      ghost var contiguous := Contiguous(pending, oldVirtual, oldChain) && reinject == [];
      ghost var all0, locals0 := all, locals;
      errs, stages := Reinject(reinject);
      ghost var before, was := pending, all;
      DemoteUnexecutables();
      if Spacious(stages[|reinject|].all, locals, config) {
        LostTwice(chain, maxGas, stages[|reinject|].all, was, all);
      }
      FairlyKept(chain, maxGas, locals, was, all);
      StillKept(chain, maxGas, locals0, locals, all0, was, all);
      TrackPendingNonces();
      if contiguous {
        RestoreContiguous(oldChain, oldVirtual, before, pending, virtual, chain, maxGas);
      }
    }

    method Reinject(txs: seq<Tx>) returns (ghost errs: seq<Option<Error>>, ghost stages: seq<Snapshot>)
      requires Settled() && forall tx :: tx in txs ==> Genuine(priced.preimage, tx)
      modifies this`pending, this`queue, this`all, this`limbo, this`dropping, this`virtual, this`locals, priced
      ensures Settled() && OnlyAdded(old(all), all, Elements(txs))
      ensures LocalsKept(chain, maxGas, old(locals), old(all), all) && old(locals) <= locals
      ensures txs == [] ==> pending == old(pending) && virtual == old(virtual)
      ensures Staged(old(Rules()), txs, false, errs, stages)
      ensures stages[0].all == old(all) && stages[0].locals == old(locals) && Fewer(stages[|txs|].all, all)
      ensures Spacious(stages[|txs|].all, locals, config) ==> LostUnpayable(chain, maxGas, stages[|txs|].all, all)
    {
      var answers;
      answers, stages := AddTxsLocked(txs, false);
      errs := answers;
    }

    /** AddLocal and AddRemote: adds one transaction and promotes its sender if it is a new one. */
    method AddTx(tx: Tx, fromHere: bool) returns (err: Option<Error>, ghost placed: Snapshot)
      requires Valid() && Genuine(priced.preimage, tx)
      modifies this`pending, this`queue, this`all, this`limbo, this`dropping, this`virtual, this`locals, priced
      ensures Valid()
      ensures Keeps(old(pending), old(virtual), pending, virtual, chain)
      ensures StaysQuiet(old(queue), old(virtual), queue, virtual, chain, {})
      ensures LocalsKept(chain, maxGas, old(locals), old(all), all)
      ensures old(locals) <= locals <= old(locals) + {tx.sender}
      ensures old(PendingLimited()) ==> PendingLimited()
      ensures old(QueueLimited()) && |old(all)| < Capacity() ==> QueueLimited()
      ensures err.None? && !SlotTaken(old(all), tx.sender, tx.nonce) ==> WithinLimits()
      ensures err.None? && NoTwins(old(priced.items), old(all), old(locals)) ==>
                |all| <= Capacity() || OthersLocal(all, tx, old(locals))
      ensures OnlyAdded(old(all), all, {tx})
      ensures err == Some(KnownTransaction) <==> tx.hash in old(all)
      ensures err.None? ==> PayableTx(chain, maxGas, tx) && (tx.sender in locals ==> Known(all, tx))
      ensures err.Some? ==> all.Keys <= old(all).Keys && locals == old(locals)
      ensures Answers(old(Rules()), old(Snap()), placed, tx, fromHere && !config.noLocals, err)
      ensures placed.locals == locals && Fewer(placed.all, all) && (err.Some? ==> all == placed.all)
      ensures Consistent(BooksOf(placed), priced.preimage)
      ensures Ample(placed, {tx.sender}, config) ==> all == placed.all
      ensures RoomFor(old(Snap()), tx, config) ==> |old(all)| < Capacity() && all == placed.all
    {
      var replaced;
      ghost var was := Snap();
      replaced, err, placed := Enter(tx, fromHere && !config.noLocals);
      PromoteIf(err.None? && !replaced, tx.sender);
      StillKept(chain, maxGas, was.locals, locals, was.all, placed.all, all);
    }

    method PromoteIf(gained: bool, a: Address)
      requires Valid()
      modifies this`pending, this`queue, this`all, this`limbo, this`dropping, this`virtual, priced
      ensures Valid() && Fewer(old(all), all) && |all| <= |old(all)|
      ensures Keeps(old(pending), old(virtual), pending, virtual, chain)
      ensures StaysQuiet(old(queue), old(virtual), queue, virtual, chain, {})
      ensures gained ==> Quiet(queue, virtual, chain, a)
      ensures LocalsKept(chain, maxGas, locals, old(all), all)
      ensures forall tx :: Known(old(all), tx) && tx.sender in locals ==> Known(all, tx)
      ensures if gained then WithinLimits() else Snap() == old(Snap())
      ensures Ample(old(Snap()), {a}, config) ==> all == old(all)
    {
      if gained {
        PromoteSender(a);
      }
    }

    /** Adds one transaction to a pool that could be paid for; its sender is still to be promoted. */
    method Enter(tx: Tx, local: bool) returns (replaced: bool, err: Option<Error>, ghost placed: Snapshot)
      requires Valid() && Genuine(priced.preimage, tx)
      modifies this`pending, this`queue, this`all, this`limbo, this`dropping, this`virtual, this`locals, priced
      ensures Valid()
      ensures Keeps(old(pending), old(virtual), pending, virtual, chain)
      ensures StaysQuiet(old(queue), old(virtual), queue, virtual, chain, Unsettled(tx, err.None? && !replaced))
      ensures LocalsKept(chain, maxGas, old(locals), old(all), all)
      ensures old(locals) <= locals <= old(locals) + {tx.sender}
      ensures old(PendingLimited()) ==> PendingLimited()
      ensures (err.Some? || replaced) && old(QueueLimited()) && |old(all)| < Capacity() ==> QueueLimited()
      ensures err.None? && replaced ==> SlotTaken(old(all), tx.sender, tx.nonce)
      ensures err.None? && NoTwins(old(priced.items), old(all), old(locals)) ==>
                |all| <= Capacity() || OthersLocal(all, tx, old(locals))
      ensures OnlyAdded(old(all), all, {tx})
      ensures err.None? ==> Known(all, tx) && PayableTx(chain, maxGas, tx)
      ensures err.Some? ==> all.Keys <= old(all).Keys && locals == old(locals)
      ensures err == Some(KnownTransaction) <==> tx.hash in old(all)
      ensures placed == Snap() && Answers(old(Rules()), old(Snap()), placed, tx, local, err)
      ensures RoomFor(old(Snap()), tx, config) ==> |old(all)| < Capacity() && Ample(Snap(), {tx.sender}, config)
    {
      ghost var was := Snap();
      replaced, err := Add(tx, local);
      StillLimited(was.pending, pending, was.queue, queue, was.locals);
      if RoomFor(was, tx, config) {
        RoomIsBelow(was, priced.preimage, tx, config);
        RoomIsAmple(was, Snap(), tx, config);
      }
      placed := Snap();
    }

    /** Promotes one sender, in a pool that could be paid for. */
    method PromoteSender(a: Address)
      requires Valid()
      modifies this`pending, this`queue, this`all, this`limbo, this`dropping, this`virtual, priced
      ensures Valid() && Fewer(old(all), all) && |all| <= |old(all)|
      ensures Keeps(old(pending), old(virtual), pending, virtual, chain)
      ensures StaysQuiet(old(queue), old(virtual), queue, virtual, chain, {}) && Quiet(queue, virtual, chain, a)
      ensures LocalsKept(chain, maxGas, locals, old(all), all)
      ensures forall tx :: Known(old(all), tx) && tx.sender in locals ==> Known(all, tx)
      ensures WithinLimits()
      ensures Ample(old(Snap()), {a}, config) ==> all == old(all)
    {
      ghost var was := Snap();
      ghost var mid := PromoteExecutables({a});
      FairlyKept(chain, maxGas, locals, was.all, all);
      SmallerSet(all.Keys, was.all.Keys);
      if Ample(was, {a}, config) { AllStay(chain, maxGas, was.all, all); }
    }

    /** Raises or lowers the minimum price; exactly the remote transactions below it leave the pool. */
    method SetGasPrice(price: nat)
      requires Valid()
      modifies this`gasPrice, this`pending, this`queue, this`all, this`limbo, this`dropping, this`virtual, priced
      ensures Valid() && gasPrice == price
      ensures LocalsKept(chain, maxGas, locals, old(all), all)
      ensures all == Dear(old(all), locals, price)
      ensures old(PendingLimited()) ==> PendingLimited()
      ensures Keeps(old(pending), old(virtual), pending, virtual, chain)
      ensures StaysQuiet(old(queue), old(virtual), queue, virtual, chain, {})
    {
      gasPrice := price;
      DropBelow(price);
      StillLimited(old(pending), pending, old(queue), queue, locals);
      DearKept(old(Kept()), priced.preimage, chain, maxGas, locals, price);
    }

    /** Removes the remote transactions below a price. */
    method DropBelow(price: nat)
      requires Settled()
      modifies this`pending, this`queue, this`all, this`limbo, this`dropping, this`virtual, priced
      ensures Settled() && all == Dear(old(all), locals, price)
      ensures NoLonger(old(pending), pending)
      ensures Keeps(old(pending), old(virtual), pending, virtual, chain)
      ensures StaysQuiet(old(queue), old(virtual), queue, virtual, chain, {})
    {
      var drop := priced.Cap(price, locals, all);
      dropping := set tx | tx in drop;
      PriceFilter(all, drop, locals, price);
      RemoveDropped(drop);
    }

    /** The eviction tick: the queues of the given accounts expire unless they are local. */
    method Expire(accounts: set<Address>)
      requires Valid()
      modifies this`pending, this`queue, this`all, this`limbo, this`dropping, this`virtual, priced
      ensures Valid() && LostRemote(locals, old(all), all) && LapsedOnly(accounts, locals, old(all), all)
      ensures NoLonger(old(queue), queue)
      ensures pending == old(pending) && virtual == old(virtual)
      ensures StaysQuiet(old(queue), old(virtual), queue, virtual, chain, {})
      ensures forall a :: a in accounts && a !in locals ==> Len(queue, a) == 0
      ensures forall a :: a in old(queue) && (a in locals || a !in accounts) ==> a in queue && queue[a] == old(queue)[a]
    {
      var todo := accounts - locals;
      while todo != {}
        invariant todo <= accounts - locals
        invariant Inv() && limbo == {} && dropping <= {} && LapsedOnly(accounts, locals, old(all), all)
        invariant NoLonger(old(queue), queue)
        invariant pending == old(pending) && virtual == old(virtual)
        invariant StaysQuiet(old(queue), old(virtual), queue, virtual, chain, {})
        invariant forall a :: a in accounts && a !in locals && a !in todo ==> Len(queue, a) == 0
        invariant forall a :: a in old(queue) && (a in locals || a !in accounts) ==>
                    a in queue && queue[a] == old(queue)[a]
        decreases todo
      {
        var a :| a in todo;
        todo := todo - {a};
        if a in queue {
          AllQueued(Kept(), priced.preimage, a);
          RemoveQueued(a, Flatten(queue[a].items));
        }
      }
    }

    /**
     One operation of a run.  It leaves nobody with something to promote who had nothing, and no
     payable transaction of a local account is lost except to one that outbid it at its nonce.
     */
    method Perform(op: Op) returns (ghost errs: seq<Option<Error>>, ghost stages: seq<Snapshot>)
      requires Valid() && GenuineOp(priced.preimage, op)
      modifies this`gasPrice, this`chain, this`maxGas, this`homestead, this`locals, this`pending, this`queue,
        this`all, this`limbo, this`dropping, this`virtual, priced
      ensures Valid() && (old(AllQuiet()) ==> AllQuiet())
      ensures old(PendingLimited()) ==> PendingLimited()
      ensures old(QueueLimited()) && !op.Reprice? && |old(all)| < Capacity() ==> QueueLimited()
      ensures OnlyAdded(old(all), all, Given(op))
      ensures LocalsKept(chain, maxGas, old(locals), old(all), all) && old(locals) <= locals
      ensures if op.NewHead? && op.state.Some? then chain == op.state.value && maxGas == op.gasLimit
              else chain == old(chain) && maxGas == old(maxGas)
      ensures old(Contig()) && !Reinjects(op) ==> Contig()
      ensures Brings(op) ==>
                && Staged(Rules(), Offered(op), FromHere(op) && !config.noLocals, errs, stages)
                && stages[0].all == old(all) && stages[0].locals == old(locals)
                && var placed := stages[|Offered(op)|].all;
                   Spacious(placed, locals, config) ==> LostUnpayable(chain, maxGas, placed, all)
      ensures op.Reprice? ==> gasPrice == op.price && all == Dear(old(all), locals, op.price)
      ensures op.Lapse? ==> pending == old(pending) && LapsedOnly(op.accounts, locals, old(all), all)
    {
      match op {
        case Reprice(price) =>
          SetGasPrice(price);
          errs, stages := [], [];
        case Lapse(accounts) =>
          Expire(accounts);
          FairlyKept(chain, maxGas, locals, old(all), all);
          StillLimited(old(pending), pending, old(queue), queue, locals);
          errs, stages := [], [];
        case _ =>
          errs, stages := Offer(op);
      }
    }

    /** An operation that offers transactions to the pool. */
    method Offer(op: Op) returns (ghost errs: seq<Option<Error>>, ghost stages: seq<Snapshot>)
      requires Valid() && GenuineOp(priced.preimage, op) && !op.Reprice? && !op.Lapse?
      modifies this`chain, this`maxGas, this`homestead, this`locals, this`pending, this`queue,
        this`all, this`limbo, this`dropping, this`virtual, priced
      ensures Valid() && (old(AllQuiet()) ==> AllQuiet())
      ensures old(PendingLimited()) ==> PendingLimited()
      ensures old(QueueLimited()) && |old(all)| < Capacity() ==> QueueLimited()
      ensures OnlyAdded(old(all), all, Given(op))
      ensures LocalsKept(chain, maxGas, old(locals), old(all), all) && old(locals) <= locals
      ensures if op.NewHead? && op.state.Some? then chain == op.state.value && maxGas == op.gasLimit
              else chain == old(chain) && maxGas == old(maxGas)
      ensures old(Contig()) && !Reinjects(op) ==> Contig()
      ensures Brings(op) ==>
                && Staged(Rules(), Offered(op), FromHere(op) && !config.noLocals, errs, stages)
                && stages[0].all == old(all) && stages[0].locals == old(locals)
                && var placed := stages[|Offered(op)|].all;
                   Spacious(placed, locals, config) ==> LostUnpayable(chain, maxGas, placed, all)
    {
      match op {
        case AddOne(tx, fromHere) =>
          errs, stages := PerformOne(tx, fromHere);
        case AddBatch(txs, fromHere) =>
          var answers;
          answers, stages := AddTxsLocked(txs, fromHere && !config.noLocals);
          errs := answers;
        case NewHead(state, gasLimit, reinject, hs) =>
          homestead := homestead || hs;
          errs, stages := Reset(state, gasLimit, reinject);
      }
    }

    method PerformOne(tx: Tx, fromHere: bool) returns (ghost errs: seq<Option<Error>>, ghost stages: seq<Snapshot>)
      requires Valid() && Genuine(priced.preimage, tx)
      modifies this`pending, this`queue, this`all, this`limbo, this`dropping, this`virtual, this`locals, priced
      ensures Valid()
      ensures Keeps(old(pending), old(virtual), pending, virtual, chain)
      ensures StaysQuiet(old(queue), old(virtual), queue, virtual, chain, {})
      ensures LocalsKept(chain, maxGas, old(locals), old(all), all) && old(locals) <= locals
      ensures old(PendingLimited()) ==> PendingLimited()
      ensures old(QueueLimited()) && |old(all)| < Capacity() ==> QueueLimited()
      ensures OnlyAdded(old(all), all, {tx})
      ensures Staged(old(Rules()), [tx], fromHere && !config.noLocals, errs, stages) && stages[0] == old(Snap())
      ensures Spacious(stages[1].all, locals, config) ==> LostUnpayable(chain, maxGas, stages[1].all, all)
    {
      ghost var was := Snap();
      var err;
      ghost var placed;
      err, placed := AddTx(tx, fromHere);
      errs, stages := [err], [was, placed];
      OneAnswered(old(Rules()), was, placed, tx, fromHere && !config.noLocals, err, errs, stages);
      if Spacious(placed.all, locals, config) {
        SpaciousAmple(placed.all, locals, placed, priced.preimage, {tx.sender}, config);
      }
    }

    /** The operations of a run, one after the other. */
    method PerformAll(ops: seq<Op>)
      requires Valid() && forall op :: op in ops ==> GenuineOp(priced.preimage, op)
      modifies this`gasPrice, this`chain, this`maxGas, this`homestead, this`locals, this`pending, this`queue,
        this`all, this`limbo, this`dropping, this`virtual, priced
      ensures old(PendingLimited()) ==> PendingLimited()
      ensures Valid() && (old(AllQuiet()) ==> AllQuiet()) && old(locals) <= locals
      ensures old(Contig()) && (forall op :: op in ops ==> !Reinjects(op)) ==> Contig()
      ensures (forall op :: op in ops ==> !op.NewHead?) ==> LocalsKept(chain, maxGas, old(locals), old(all), all)
      ensures LocalsStay(old(all), all, ops, |ops|, old(locals))
    {
      ghost var start, locals0 := all, locals;
      ghost var contig := old(Contig()) && forall op :: op in ops ==> !Reinjects(op);
      for i := 0 to |ops|
        invariant Valid() && (old(AllQuiet()) ==> AllQuiet()) && old(locals) <= locals
        invariant (forall op :: op in ops ==> !op.NewHead?) ==>
                    && chain == old(chain) && maxGas == old(maxGas)
                    && LocalsKept(chain, maxGas, old(locals), old(all), all)
        invariant (contig ==> Contig()) && (old(PendingLimited()) ==> PendingLimited())
        invariant LocalsStay(start, all, ops, i, locals0) && StayPayable(start, ops, locals0, chain, maxGas)
      {
        ghost var was, c, g := all, chain, maxGas;
        ghost var errs, stages := Perform(ops[i]);
        LocalsStayOn(start, was, all, ops, i, locals0, c, g, chain, maxGas, priced.preimage);
      }
    }

    /**
     Every run of the pool.  Afterwards pending and queued nonces are disjoint, the lookup is
     exactly the union of both, its size is their total, the price heap misses none of it and the
     chain could charge all of it; the pending lists are within their limit, remote accounts above
     their allowance having been cut; every queued nonce lies beyond its account's virtual nonce; and
     unless a reset reinjected transactions, every pending list holds the consecutive nonces from
     the chain nonce up to the virtual nonce.  A transaction of a local account that every chain
     state of the run lets its sender pay is still there, unless an operation of the run brought one
     with its nonce and a higher price.
     */
    method Run(ops: seq<Op>)
      requires Valid() && Contig()
      requires forall op :: op in ops ==> GenuineOp(priced.preimage, op)
      modifies this`gasPrice, this`chain, this`maxGas, this`homestead, this`locals, this`pending, this`queue,
        this`all, this`limbo, this`dropping, this`virtual, priced
      ensures Valid()
      ensures forall a, n :: Taken(pending, a, n) ==> !Taken(queue, a, n)
      ensures forall tx :: Known(all, tx) <==> Has(pending, tx) || Has(queue, tx)
      ensures |all| == Total(pending) + Total(queue)
      ensures forall h :: h in all ==> all[h] in priced.items && PayableTx(chain, maxGas, all[h])
      ensures old(AllQuiet()) ==> AllQuiet()
      ensures old(PendingLimited()) ==> PendingLimited()
      ensures LocalsStay(old(all), all, ops, |ops|, old(locals))
      ensures (forall op :: op in ops ==> !op.NewHead?) ==> LocalsKept(chain, maxGas, old(locals), old(all), all)
      ensures (forall op :: op in ops ==> !Reinjects(op)) ==>
                forall a :: ContiguousAt(pending, virtual, chain, a)
                            && VirtualNonce(virtual, chain, a) == chain.Nonce(a) + Len(pending, a)
    {
      PerformAll(ops);
      ExactUnion(Kept(), priced.preimage);
      CountsAgree(Kept(), priced.preimage);
      if forall op :: op in ops ==> !Reinjects(op) {
        forall a ensures VirtualNonce(virtual, chain, a) == chain.Nonce(a) + Len(pending, a) {
          RunLengthIs(pending, virtual, chain, a);
        }
      }
    }
  }

  /** What can happen to the pool from outside. */
  datatype Op =
    | AddOne(tx: Tx, fromHere: bool)
    | AddBatch(txs: seq<Tx>, fromHere: bool)
    | Reprice(price: nat)
    | Lapse(accounts: set<Address>)
    | NewHead(state: Option<Chain>, gasLimit: nat, reinject: seq<Tx>, homestead: bool)

  ghost predicate GenuineOp(preimage: Hash -> Tx, op: Op) {
    match op
    case AddOne(tx, _) => Genuine(preimage, tx)
    case AddBatch(txs, _) => forall tx :: tx in txs ==> Genuine(preimage, tx)
    case NewHead(_, _, reinject, _) => forall tx :: tx in reinject ==> Genuine(preimage, tx)
    case _ => true
  }

  predicate Reinjects(op: Op) {
    op.NewHead? && op.reinject != []
  }

  /** Every new chain state among the operations lets the sender pay for the transaction. */
  ghost predicate PayableUnder(ops: seq<Op>, tx: Tx) {
    forall op :: op in ops && op.NewHead? && op.state.Some? ==> PayableTx(op.state.value, op.gasLimit, tx)
  }

  /** Whether an operation offers transactions to the pool: a reset does unless its state is unavailable. */
  predicate Brings(op: Op) {
    op.AddOne? || op.AddBatch? || (op.NewHead? && op.state.Some?)
  }

  function Offered(op: Op): seq<Tx> {
    match op
    case AddOne(tx, _) => [tx]
    case AddBatch(txs, _) => txs
    case NewHead(_, _, reinject, _) => reinject
    case _ => []
  }

  predicate FromHere(op: Op) {
    (op.AddOne? || op.AddBatch?) && op.fromHere
  }

  /** Only transactions of the given accounts have left, none of them local. */
  ghost predicate LapsedOnly(accounts: set<Address>, locals: set<Address>, was: Lookup, now: Lookup) {
    && Fewer(was, now)
    && forall h :: h in was && h !in now ==> was[h].sender in accounts && was[h].sender !in locals
  }

  lemma OneAnswered(terms: Terms, was: Snapshot, now: Snapshot, tx: Tx, local: bool, err: Option<Error>,
                    errs: seq<Option<Error>>, stages: seq<Snapshot>)
    requires Answers(terms, was, now, tx, local, err)
    requires errs == [err] && stages == [was, now]
    ensures Staged(terms, [tx], local, errs, stages)
  {
    assert [tx][..0] == [] && [tx][..1] == [tx];
    OneMoreStage(terms, [tx], 0, local, [], [was], err, now);
  }

  /** The transactions an operation brings. */
  function Given(op: Op): set<Tx> {
    match op
    case AddOne(tx, _) => {tx}
    case AddBatch(txs, _) => Elements(txs)
    case NewHead(_, _, reinject, _) => Elements(reinject)
    case _ => {}
  }

  /** One of the transactions has this one's sender and nonce and a higher price. */
  ghost predicate Offer(txs: set<Tx>, tx: Tx) {
    exists u :: u in txs && u.sender == tx.sender && u.nonce == tx.nonce && u.price > tx.price
  }

  function Elements(txs: seq<Tx>): set<Tx> {
    set tx | tx in txs
  }

  lemma OneOfThem(was: Lookup, mid: Lookup, now: Lookup, txs: seq<Tx>, i: nat)
    requires i < |txs| && OnlyAdded(was, mid, Elements(txs)) && OnlyAdded(mid, now, {txs[i]})
    ensures OnlyAdded(was, now, Elements(txs))
  {
  }

  /** Whatever is in the lookup was there before or is one of the given transactions. */
  ghost predicate OnlyAdded(was: Lookup, now: Lookup, txs: set<Tx>) {
    forall h :: h in now ==> (h in was && now[h] == was[h]) || now[h] in txs
  }

  /**
   A local account's transaction that all states of the run let it pay is still there after the first
   i operations, unless one of them brought one with its nonce and a higher price.
   */
  ghost predicate LocalsStay(start: Lookup, now: Lookup, ops: seq<Op>, i: nat, locals: set<Address>) {
    forall tx: Tx {:trigger PayableUnder(ops, tx)} ::
      Known(start, tx) && tx.sender in locals && PayableUnder(ops, tx) ==>
        Known(now, tx) || exists j :: 0 <= j < i && j < |ops| && Offer(Given(ops[j]), tx)
  }

  ghost predicate StayPayable(start: Lookup, ops: seq<Op>, locals: set<Address>, chain: Chain, maxGas: nat) {
    forall tx: Tx {:trigger PayableUnder(ops, tx)} ::
      Known(start, tx) && tx.sender in locals && PayableUnder(ops, tx) ==> PayableTx(chain, maxGas, tx)
  }

  lemma LocalsStayOn(start: Lookup, was: Lookup, now: Lookup, ops: seq<Op>, i: nat, locals: set<Address>,
                     chain: Chain, maxGas: nat, newChain: Chain, newMaxGas: nat, preimage: Hash -> Tx)
    requires i < |ops| && LocalsStay(start, was, ops, i, locals) && StayPayable(start, ops, locals, chain, maxGas)
    requires if ops[i].NewHead? && ops[i].state.Some?
             then newChain == ops[i].state.value && newMaxGas == ops[i].gasLimit
             else newChain == chain && newMaxGas == maxGas
    requires LookupOk(was, preimage) && LookupOk(now, preimage) && OnlyAdded(was, now, Given(ops[i]))
    requires LocalsKept(newChain, newMaxGas, locals, was, now)
    ensures LocalsStay(start, now, ops, i + 1, locals) && StayPayable(start, ops, locals, newChain, newMaxGas)
  {
    forall tx: Tx | Known(start, tx) && tx.sender in locals && PayableUnder(ops, tx)
      ensures PayableTx(newChain, newMaxGas, tx)
      ensures Known(now, tx) || exists j :: 0 <= j < i + 1 && j < |ops| && Offer(Given(ops[j]), tx)
    {
      assert ops[i] in ops;
      if Known(was, tx) {
        StaysOrOffer(was, now, Given(ops[i]), locals, newChain, newMaxGas, preimage, tx);
      }
    }
  }

  lemma StaysOrOffer(was: Lookup, now: Lookup, given: set<Tx>, locals: set<Address>, chain: Chain, maxGas: nat,
                     preimage: Hash -> Tx, tx: Tx)
    requires Known(was, tx) && tx.sender in locals && PayableTx(chain, maxGas, tx)
    requires LookupOk(was, preimage) && LookupOk(now, preimage) && OnlyAdded(was, now, given)
    requires LocalsKept(chain, maxGas, locals, was, now)
    ensures Known(now, tx) || Offer(given, tx)
  {
    assert Heir(chain, maxGas, was[tx.hash], tx);
    assert Stands(chain, maxGas, now, tx);
    var h :| h in now && Heir(chain, maxGas, now[h], tx);
    if now[h] != tx {
      assert now[h] in given;
    }
  }

  /** With nothing in transit the lookup is the disjoint union of both kinds of lists. */
  lemma ExactUnion(b: Books, preimage: Hash -> Tx)
    requires Consistent(b, preimage) && b.limbo == {}
    ensures forall a, n :: Taken(b.pending, a, n) ==> !Taken(b.queue, a, n)
    ensures forall tx :: Known(b.all, tx) <==> Has(b.pending, tx) || Has(b.queue, tx)
  {
    forall a, n | Taken(b.pending, a, n) ensures !Taken(b.queue, a, n) { Disjoint(b, preimage, a, n); }
    forall tx ensures Known(b.all, tx) <==> Has(b.pending, tx) || Has(b.queue, tx) { assert Placed(b, tx); }
  }

  lemma PendingRemoved(b: Books, preimage: Hash -> Tx, tx: Tx) returns (r: Books)
    requires Consistent(b, preimage) && b.limbo == {} && Has(b.pending, tx)
    ensures Consistent(r, preimage) && r.limbo == {} && r.all == b.all - {tx.hash} && r.queue == b.queue
    ensures Total(r.pending) == Total(b.pending) - 1
  {
    var list := b.pending[tx.sender];
    var kept := list.(items := list.items - {tx.nonce});
    assert ListOk(tx.sender, list, true);
    assert Removed(list, kept) == {tx};
    assert kept.items.Keys == list.items.Keys - {tx.nonce};
    var c := TakeFromPending(b, preimage, tx.sender, kept);
    ForgetOne(c, preimage, tx);
    r := c.(all := c.all - {tx.hash}, limbo := c.limbo - {tx});
    assert r.limbo == {};
    TotalUpdate(b.pending, tx.sender, kept);
  }

  /** The lookup is as large as all lists together. */
  lemma {:induction false} CountsAgree(b: Books, preimage: Hash -> Tx)
    requires Consistent(b, preimage) && b.limbo == {}
    ensures |b.all| == Total(b.pending) + Total(b.queue)
    decreases |b.all|
  {
    if b.all == map[] {
      NothingListed(b, preimage);
    } else {
      var h :| h in b.all;
      var tx := b.all[h];
      assert Placed(b, tx);
      assert (b.all - {h}).Keys == b.all.Keys - {h};
      if Has(b.pending, tx) {
        var r := PendingRemoved(b, preimage, tx);
        CountsAgree(r, preimage);
      } else {
        DequeuedConsistent(b, preimage, tx);
        QueuedStep(b.queue, tx.sender, [tx], 0);
        CountsAgree(b.(queue := Dequeued(b.queue, tx.sender, tx.nonce), all := b.all - {h}), preimage);
      }
    }
  }

  lemma NothingListed(b: Books, preimage: Hash -> Tx)
    requires Consistent(b, preimage) && b.limbo == {} && b.all == map[]
    ensures Total(b.pending) == 0 && Total(b.queue) == 0
  {
    forall a ensures Len(b.pending, a) == 0 && Len(b.queue, a) == 0 {
      forall n ensures !Taken(b.pending, a, n) && !Taken(b.queue, a, n) {
        EntryPlaced(b, preimage, a, n, preimage(0));
      }
      assert a in b.pending ==> forall n :: n in b.pending[a].items ==> Taken(b.pending, a, n);
      assert a in b.queue ==> forall n :: n in b.queue[a].items ==> Taken(b.queue, a, n);
      assert a in b.pending ==> b.pending[a].items.Keys == {};
      assert a in b.queue ==> b.queue[a].items.Keys == {};
    }
    AllZero(b.pending, b.pending.Keys);
    AllZero(b.queue, b.queue.Keys);
  }

  lemma {:induction false} AllZero(m: Lists, who: set<Address>)
    requires forall a :: a in who ==> Len(m, a) == 0
    ensures TotalOf(m, who) == 0
    decreases |who|
  {
    if who != {} {
      var a :| a in who;
      TotalSplit(m, who, a);
      AllZero(m, who - {a});
    }
  }

  /** A contiguous list is as long as its range of nonces. */
  lemma RunLengthIs(pending: Lists, virtual: Nonces, chain: Chain, a: Address)
    requires ContiguousAt(pending, virtual, chain, a)
    ensures VirtualNonce(virtual, chain, a) == chain.Nonce(a) + Len(pending, a)
  {
    if a in pending {
      assert forall n: nat :: n in pending[a].items <==> Taken(pending, a, n);
      RangeSize(pending[a].items.Keys, chain.Nonce(a), VirtualNonce(virtual, chain, a));
    } else {
      assert !Taken(pending, a, chain.Nonce(a));
    }
  }

  lemma {:induction false} RangeSize(s: set<nat>, lo: nat, hi: nat)
    requires lo <= hi && forall n: nat :: n in s <==> lo <= n < hi
    ensures |s| == hi - lo
    decreases hi
  {
    if lo == hi {
      assert s == {};
    } else {
      RangeSize(s - {hi - 1}, lo, hi - 1);
    }
  }

  /** Every account's list outside `but` is runnable, and gapless if it was before. */
  ghost predicate AllRunnable(chain: Chain, maxGas: nat, was: Lists, now: Lists, but: set<Address>) {
    && now.Keys <= was.Keys
    && (forall a :: a in now && a in but ==> now[a] == was[a])
    && forall a :: a in now && a !in but ==> Runnable(chain, maxGas, a, now[a], Gapless(was[a].items))
  }

  /** Of a pending list exactly the entries from the account's nonce up to the first that cannot be paid for. */
  ghost predicate PayableStretch(was: Items, now: Items, chain: Chain, maxGas: nat, a: Address) {
    && (forall n :: n in now ==> n in was && now[n] == was[n])
    && forall n :: n in was ==> (n in now <==> chain.Nonce(a) <= n && AllPayableUpTo(was, chain, maxGas, a, n))
  }

  ghost predicate AllPayableUpTo(items: Items, chain: Chain, maxGas: nat, a: Address, n: nat) {
    forall m :: m in items && chain.Nonce(a) <= m <= n ==> PayableTx(chain, maxGas, items[m])
  }

  /** That stretch stays pending if it starts at the account's nonce, and nothing otherwise. */
  ghost predicate DemotedTo(was: Items, now: Items, chain: Chain, maxGas: nat, a: Address) {
    if chain.Nonce(a) in was && PayableTx(chain, maxGas, was[chain.Nonce(a)])
    then PayableStretch(was, now, chain, maxGas, a)
    else now == map[]
  }

  /** Every account's list outside `but` has been demoted. */
  ghost predicate AllDemoted(chain: Chain, maxGas: nat, was: Lists, now: Lists, but: set<Address>) {
    forall a {:trigger DemotedIn(chain, maxGas, was, now, a)} ::
      a in was && a !in but ==> DemotedIn(chain, maxGas, was, now, a)
  }

  ghost predicate DemotedIn(chain: Chain, maxGas: nat, was: Lists, now: Lists, a: Address) {
    DemotedTo(ListOf(was, a, true).items, ListOf(now, a, true).items, chain, maxGas, a)
  }

  lemma OneDemoted(chain: Chain, maxGas: nat, was: Lists, mid: Lists, now: Lists, but: set<Address>, a: Address)
    requires a in but && a in was && AllDemoted(chain, maxGas, was, mid, but)
    requires ChangedAt(mid, now, a) && DemotedIn(chain, maxGas, was, now, a)
    ensures AllDemoted(chain, maxGas, was, now, but - {a})
  {
    forall b | b in was && b !in but - {a} ensures DemotedIn(chain, maxGas, was, now, b) {
      if b != a {
        StillDemoted(chain, maxGas, was, mid, now, b);
      }
    }
  }

  lemma StillDemoted(chain: Chain, maxGas: nat, was: Lists, mid: Lists, now: Lists, b: Address)
    requires DemotedIn(chain, maxGas, was, mid, b) && ListOf(now, b, true) == ListOf(mid, b, true)
    ensures DemotedIn(chain, maxGas, was, now, b)
  {
  }

  lemma FilteredStretch(chain: Chain, maxGas: nat, a: Address, was: List, now: Items)
    requires ListOk(a, was, true)
    requires now == Affordable(was.(items := AtLeast(was.items, chain.Nonce(a))), chain.Balance(a), maxGas)
    ensures PayableStretch(was.items, now, chain, maxGas, a)
  {
    var rest := was.(items := AtLeast(was.items, chain.Nonce(a)));
    var costly := Costly(rest.items, chain.Balance(a), maxGas);
    forall n | n in rest.items
      ensures n < Top(rest.items) && (n in costly <==> !PayableTx(chain, maxGas, was.items[n]))
    {
    }
    forall n | n in was.items && chain.Nonce(a) <= n
      ensures n in now <==> AllPayableUpTo(was.items, chain, maxGas, a, n)
    {
      if costly != map[] {
        FirstCostly(was.items, costly, chain, maxGas, a, n);
      }
    }
  }

  lemma FirstCostly(items: Items, costly: Items, chain: Chain, maxGas: nat, a: Address, n: nat)
    requires costly != map[] && forall m :: m in costly ==> chain.Nonce(a) <= m && m in items
    requires forall m :: m in items && chain.Nonce(a) <= m ==> (m in costly <==> !PayableTx(chain, maxGas, items[m]))
    ensures AllPayableUpTo(items, chain, maxGas, a, n) <==> n < Least(costly)
  {
    var gap := Least(costly);
    assert gap in costly;
    if n >= gap {
      assert !PayableTx(chain, maxGas, items[gap]);
    }
  }

  /** Demotion and the nonces tracked after it make the pending lists contiguous with the new chain state. */
  lemma RestoreContiguous(oldChain: Chain, oldVirtual: Nonces, was: Lists,
                          now: Lists, virtual: Nonces, chain: Chain, maxGas: nat)
    requires Contiguous(was, oldVirtual, oldChain)
    requires AllRunnable(chain, maxGas, was, now, {})
    requires forall a :: VirtualNonce(virtual, chain, a) == if a in now then Top(now[a].items) else chain.Nonce(a)
    requires ListsOk(now, true)
    ensures Contiguous(now, virtual, chain)
  {
    forall a ensures ContiguousAt(now, virtual, chain, a) {
      assert ContiguousAt(was, oldVirtual, oldChain, a);
      if a in now {
        assert ListOk(a, now[a], true);
        RestoredAt(oldChain, oldVirtual, was, now, virtual, chain, maxGas, a);
      }
    }
  }

  lemma RestoredAt(oldChain: Chain, oldVirtual: Nonces, was: Lists,
                   now: Lists, virtual: Nonces, chain: Chain, maxGas: nat, a: Address)
    requires ContiguousAt(was, oldVirtual, oldChain, a) && a in was && a in now && ListOk(a, now[a], true)
    requires Runnable(chain, maxGas, a, now[a], Gapless(was[a].items))
    requires VirtualNonce(virtual, chain, a) == Top(now[a].items)
    ensures ContiguousAt(now, virtual, chain, a)
  {
    assert Gapless(was[a].items) by {
      assert forall n: nat :: n in was[a].items <==> Taken(was, a, n);
    }
    var top := Top(now[a].items);
    assert forall n :: n in now[a].items ==> chain.Nonce(a) <= n < top;
    assert top - 1 in now[a].items;
  }

  ghost predicate Gapless(items: Items) {
    forall i, j, k :: i in items && k in items && i <= j <= k ==> j in items
  }

  /** A non-empty pending list the chain would run from the account's nonce on. */
  ghost predicate Runnable(chain: Chain, maxGas: nat, a: Address, l: List, gapless: bool) {
    && l.items != map[]
    && chain.Nonce(a) in l.items
    && PayableList(chain, maxGas, l)
    && (gapless ==> Gapless(l.items))
  }

  lemma FilteredRunnable(chain: Chain, maxGas: nat, a: Address, was: List, now: List)
    requires ListOk(a, was, true) && ListOk(a, now, true)
    requires now.items == Affordable(was.(items := AtLeast(was.items, chain.Nonce(a))), chain.Balance(a), maxGas)
    ensures chain.Nonce(a) in now.items ==> Runnable(chain, maxGas, a, now, Gapless(was.items))
  {
    FilterPartitions(was.(items := AtLeast(was.items, chain.Nonce(a))), chain.Balance(a), maxGas);
  }

  lemma UpdatedTwice(m: Lists, a: Address, l: List, k: List)
    ensures m[a := l][a := k] == m[a := k]
  {
  }

  /** Used-up nonces and costly transactions of a list could not be paid for. */
  lemma UnpayableGone(chain: Chain, maxGas: nat, a: Address, list: List, all: Lookup)
    requires ListOk(a, list, true)
    ensures var kept := list.(items := AtLeast(list.items, chain.Nonce(a)));
            LostUnpayable(chain, maxGas, all, Without(Without(all, Removed(list, kept)),
                                                      Costly(kept.items, chain.Balance(a), maxGas).Values))
  {
  }

  lemma FilterRemoved(l: List, kept: List, costLimit: nat, gasLimit: nat)
    requires WellFormed(l) && kept == Filtered(l, costLimit, gasLimit)
    ensures var drops := Costly(l.items, costLimit, gasLimit).Values;
            var invalids := Invalidated(l, costLimit, gasLimit).Values;
            Removed(l, kept) == drops + invalids && drops !! invalids
    ensures Shrunk(l, kept) && kept.items == Affordable(l, costLimit, gasLimit)
  {
    FilteredItems(l, costLimit, gasLimit);
    var costly, gone := Costly(l.items, costLimit, gasLimit), Invalidated(l, costLimit, gasLimit);
    forall n | n in l.items && n !in kept.items ensures l.items[n] in costly.Values + gone.Values {
      assert n in costly || n in gone;
      assert n in costly ==> costly[n] in costly.Values;
      assert n in gone ==> gone[n] in gone.Values;
    }
  }

  /** Every list outside `but` could be paid for. */
  ghost predicate PayableLists(chain: Chain, maxGas: nat, m: Lists, but: set<Address>) {
    forall a :: a in m && a !in but ==> PayableList(chain, maxGas, m[a])
  }

  lemma StillPayable(chain: Chain, maxGas: nat, was: Lists, now: Lists, a: Address, but: set<Address>, strict: bool)
    requires ChangedAt(was, now, a)
    ensures PayableLists(chain, maxGas, was, but + {a}) && PayableList(chain, maxGas, ListOf(now, a, strict)) ==>
              PayableLists(chain, maxGas, now, but)
    ensures PayableLists(chain, maxGas, was, {}) ==> PayableList(chain, maxGas, ListOf(was, a, strict))
  {
  }

  lemma AllPayable(b: Books, preimage: Hash -> Tx, chain: Chain, maxGas: nat)
    requires Consistent(b, preimage) && b.limbo == {}
    ensures PayableLists(chain, maxGas, b.pending, {}) && PayableLists(chain, maxGas, b.queue, {}) ==>
              PayableAll(chain, maxGas, b.all)
  {
    forall h | h in b.all && PayableLists(chain, maxGas, b.pending, {}) && PayableLists(chain, maxGas, b.queue, {})
      ensures PayableTx(chain, maxGas, b.all[h])
    {
      assert Placed(b, b.all[h]);
    }
  }

  /** From position i on these are transactions of one account, all queued and no two the same. */
  ghost predicate QueuedOf(queue: Lists, a: Address, txs: seq<Tx>, i: nat) {
    && (forall k :: i <= k < |txs| ==> txs[k].sender == a && Has(queue, txs[k]))
    && forall k, l :: i <= k < l < |txs| ==> txs[k].nonce != txs[l].nonce
  }

  lemma QueuedStep(queue: Lists, a: Address, txs: seq<Tx>, i: nat)
    requires QueuedOf(queue, a, txs, i) && i < |txs|
    ensures a in queue && Has(queue, txs[i]) && txs[i].sender == a
    ensures var after := Dequeued(queue, a, txs[i].nonce);
            && QueuedOf(after, a, txs, i + 1)
            && ChangedAt(queue, after, a)
            && Total(after) == Total(queue) - 1
            && Len(after, a) == Len(queue, a) - 1
            && ListOf(after, a, false).items == queue[a].items - {txs[i].nonce}
  {
    var n := txs[i].nonce;
    assert Has(queue, txs[i]);
    var kept := queue[a].(items := queue[a].items - {n});
    assert kept.items.Keys == queue[a].items.Keys - {n};
    TotalUpdate(queue, a, kept);
    TotalDelete(queue, a);
    var after := Dequeued(queue, a, n);
    forall k | i + 1 <= k < |txs| ensures Has(after, txs[k]) {
      assert Has(queue, txs[k]);
    }
  }

  /** Exactly the first i of these transactions of one account have left the queue and the lookup. */
  ghost predicate TakenOut(q0: Lists, q1: Lists, all0: Lookup, all1: Lookup, a: Address, txs: seq<Tx>, i: nat) {
    && i <= |txs| && ChangedAt(q0, q1, a)
    && Total(q1) == Total(q0) - i && Len(q1, a) == Len(q0, a) - i
    && ListOf(q1, a, false).items == Unlisted(ListOf(q0, a, false).items, txs[..i])
    && all1 == Lacking(all0, txs[..i])
  }

  lemma OutNoLonger(q0: Lists, q1: Lists, all0: Lookup, all1: Lookup, a: Address, txs: seq<Tx>)
    requires TakenOut(q0, q1, all0, all1, a, txs, |txs|)
    ensures NoLonger(q0, q1)
  {
    forall x ensures Len(q1, x) <= Len(q0, x) {
    }
  }

  lemma NoneTakenOut(b: Books, preimage: Hash -> Tx, a: Address, txs: seq<Tx>)
    requires Consistent(b, preimage) && QueuedOf(b.queue, a, txs, 0)
    ensures AllListed(b.queue, b.all, a, txs)
    ensures TakenOut(b.queue, b.queue, b.all, b.all, a, txs, 0)
  {
    assert a in b.queue ==> ListOk(a, b.queue[a], false);
    forall i | 0 <= i < |txs| ensures Known(b.all, txs[i]) {
      assert Has(b.queue, txs[i]) && Placed(b, txs[i]);
    }
    assert Unlisted(ListOf(b.queue, a, false).items, []) == ListOf(b.queue, a, false).items;
    assert Lacking(b.all, []) == b.all;
  }

  /** The account's queue and the lookup are keyed properly and hold the transactions. */
  ghost predicate AllListed(queue: Lists, all: Lookup, a: Address, txs: seq<Tx>) {
    && KeyedByNonce(ListOf(queue, a, false).items)
    && (forall h :: h in all ==> all[h].hash == h)
    && forall i :: 0 <= i < |txs| ==> Known(all, txs[i]) && Has(queue, txs[i]) && txs[i].sender == a
  }

  lemma OneTakenOut(q0: Lists, q1: Lists, all0: Lookup, all1: Lookup, a: Address, txs: seq<Tx>, i: nat)
    requires i < |txs| && AllListed(q0, all0, a, txs)
    requires QueuedOf(q1, a, txs, i) && TakenOut(q0, q1, all0, all1, a, txs, i)
    ensures a in q1 && Has(q1, txs[i]) && txs[i].sender == a
    ensures QueuedOf(Dequeued(q1, a, txs[i].nonce), a, txs, i + 1)
    ensures TakenOut(q0, Dequeued(q1, a, txs[i].nonce), all0, all1 - {txs[i].hash}, a, txs, i + 1)
  {
    QueuedStep(q1, a, txs, i);
    LackingStep(all0, txs, i);
    UnlistedStep(ListOf(q0, a, false).items, txs, i);
    ChangedTwice(q0, q1, Dequeued(q1, a, txs[i].nonce), a);
  }

  lemma ChangedTwice(was: Lists, mid: Lists, now: Lists, a: Address)
    requires ChangedAt(was, mid, a) && ChangedAt(mid, now, a)
    ensures ChangedAt(was, now, a)
  {
  }

  lemma AllQueued(b: Books, preimage: Hash -> Tx, a: Address)
    requires Consistent(b, preimage) && a in b.queue
    ensures QueuedOf(b.queue, a, Flatten(b.queue[a].items), 0)
    ensures |Flatten(b.queue[a].items)| == Len(b.queue, a)
  {
    assert ListOk(a, b.queue[a], false);
    FlattenSorted(b.queue[a].items);
    var txs := Flatten(b.queue[a].items);
    forall i | 0 <= i < |txs| ensures txs[i].sender == a && Has(b.queue, txs[i]) {
      assert txs[i] in txs;
    }
  }

  lemma LastQueued(queue: Lists, a: Address, txs: seq<Tx>, k: nat)
    requires QueuedOf(queue, a, txs, 0) && k <= |txs|
    ensures QueuedOf(queue, a, Reverse(txs[|txs| - k..]), 0) && |Reverse(txs[|txs| - k..])| == k
  {
    ReverseElements(txs[|txs| - k..]);
  }

  /** Taking out the last entries of a queue leaves the lowest nonces. */
  lemma TailGone(q0: Lists, q1: Lists, all0: Lookup, all1: Lookup, a: Address, k: nat, txs: seq<Tx>)
    requires a in q0 && KeyedByNonce(q0[a].items) && (forall n :: n in q0[a].items ==> q0[a].items[n].sender == a)
    requires TakenOut(q0, q1, all0, all1, a, txs, |txs|) && k <= |Flatten(q0[a].items)|
    requires var flat := Flatten(q0[a].items); txs == flat[|flat| - k..] || txs == Reverse(flat[|flat| - k..])
    ensures LostOfOne(a, all0, all1)
    ensures LowestKept(q0[a].items, ListOf(q1, a, false).items)
  {
    assert txs[..|txs|] == txs;
    TailHighest(q0[a].items, k, txs);
    assert forall tx :: tx in txs ==> tx.sender == a;
    LackingOne(all0, a, txs);
  }

  lemma LackingOne(all: Lookup, a: Address, txs: seq<Tx>)
    requires forall tx :: tx in txs ==> tx.sender == a
    ensures LostOfOne(a, all, Lacking(all, txs))
  {
  }

  lemma TailHighest(items: Items, k: nat, txs: seq<Tx>)
    requires KeyedByNonce(items) && k <= |Flatten(items)|
    requires var flat := Flatten(items); txs == flat[|flat| - k..] || txs == Reverse(flat[|flat| - k..])
    ensures LowestKept(items, Unlisted(items, txs))
    ensures forall tx :: tx in txs ==> tx.nonce in items && items[tx.nonce] == tx
  {
    FlattenSorted(items);
    var flat := Flatten(items);
    SameElements(flat[|flat| - k..], txs);
    forall n, m | n in items && m in items && items[n] !in txs && items[m] in txs ensures n < m {
      assert items[n] in flat;
      var i :| 0 <= i < |flat| && flat[i] == items[n];
      var j :| |flat| - k <= j < |flat| && flat[j] == items[m];
      assert flat[i] !in flat[|flat| - k..];
      EarlierThan(flat, |flat| - k, i);
    }
  }

  lemma EarlierThan(s: seq<Tx>, from: nat, i: nat)
    requires from <= |s| && i < |s| && s[i] !in s[from..]
    ensures i < from
  {
    assert forall j :: from <= j < |s| ==> s[j] == s[from..][j - from];
  }

  lemma SameElements(s: seq<Tx>, txs: seq<Tx>)
    requires txs == s || txs == Reverse(s)
    ensures forall tx :: tx in txs <==> tx in s
  {
    ReverseElements(s);
    forall tx ensures tx in Reverse(s) <==> tx in s {
      if tx in s {
        var i :| 0 <= i < |s| && s[i] == tx;
        assert Reverse(s)[|s| - 1 - i] == tx;
      }
    }
  }

  /** The offenders are distinct remote accounts, still above their allowance, and only they were cut. */
  ghost predicate SingledOut(was: Lists, now: Lists, offenders: seq<Address>, locals: set<Address>, slots: nat) {
    && Distinct(offenders)
    && CutOnly(was, now, offenders)
    && forall o :: o in offenders ==> o in now && o !in locals && Len(now, o) > slots
  }

  /** All offenders have the same length, and no remaining suspect is longer. */
  ghost predicate Levelled(was: Lists, now: Lists, offenders: seq<Address>, locals: set<Address>, slots: nat) {
    offenders != [] ==>
      && Level(now, offenders, Len(now, offenders[0]))
      && forall a :: a in was && a !in locals && a !in offenders && |was[a].items| > slots ==>
           |was[a].items| <= Len(now, offenders[0])
  }

  /** Only remote accounts above their allowance were cut, and none of them below it. */
  ghost predicate FairlyCut(was: Lists, now: Lists, locals: set<Address>, slots: nat) {
    && now.Keys == was.Keys
    && (forall a :: a in now && (a in locals || |was[a].items| <= slots) ==> now[a] == was[a])
    && forall a :: a in now && now[a] != was[a] ==> slots <= |now[a].items|
  }

  lemma CutToAllowance(was: Lists, mid: Lists, now: Lists, offenders: seq<Address>, locals: set<Address>, slots: nat)
    requires CutOnly(was, mid, offenders)
    requires forall o :: o in offenders ==> o in mid && o !in locals && Len(mid, o) > slots
    requires now == mid || CutOnly(mid, now, offenders)
    requires now == mid || forall i :: 0 <= i < |offenders| ==> slots <= Len(now, offenders[i])
    ensures FairlyCut(was, now, locals, slots)
  {
    forall a | a in now && now[a] != was[a] ensures slots <= |now[a].items| {
      assert a in offenders;
      var i :| 0 <= i < |offenders| && offenders[i] == a;
      assert Len(mid, a) > slots;
    }
  }

  /** No account was cut below a remote one: whoever was cut is among the longest remote ones still. */
  ghost predicate NoneFavoured(was: Lists, now: Lists, locals: set<Address>) {
    forall a, b :: a in was && Len(now, a) < Len(was, a) && b in was && b !in locals ==> Len(now, b) <= Len(now, a)
  }

  /** The accounts that were cut. */
  ghost function CutAccounts(was: Lists, now: Lists): set<Address> {
    set a | a in was && Len(now, a) < Len(was, a)
  }

  /** With one more transaction for each account that was cut there would be too many. */
  ghost predicate NoMoreThanNeeded(was: Lists, now: Lists, limit: nat) {
    Total(now) + |CutAccounts(was, now)| > limit
  }

  /** Whole rounds, the last of which was needed, have cut these accounts; or there was none. */
  ghost predicate Rounds(was: Lists, now: Lists, who: seq<Address>, count: nat, left: nat, limit: nat) {
    && left <= count && (left == count ==> now == was)
    && (left < count ==> left + |who| > limit && forall i :: 0 <= i < |who| ==> Len(now, who[i]) < Len(was, who[i]))
  }

  lemma {:induction false} AllInSet(who: seq<Address>, s: set<Address>)
    requires Distinct(who) && forall i :: 0 <= i < |who| ==> who[i] in s
    ensures |who| <= |s|
    decreases |who|
  {
    if who != [] {
      AllInSet(who[1..], s - {who[0]});
    }
  }

  /** Rounds that are still needed leave no more room than their accounts could fill. */
  lemma StillNeeded(was: Lists, p: Lists, now: Lists, who: seq<Address>, count: nat, left: nat, limit: nat)
    requires Distinct(who) && CutOnly(was, p, who) && CutOnly(p, now, who)
    requires count == Total(p) && left == Total(now) && Rounds(p, now, who, count, left, limit)
    requires forall o :: o in who ==> o in was
    requires NoMoreThanNeeded(was, p, limit)
    ensures NoMoreThanNeeded(was, now, limit)
  {
    if left < count {
      forall i | 0 <= i < |who| ensures who[i] in CutAccounts(was, now) {
        assert who[i] in who;
      }
      AllInSet(who, CutAccounts(was, now));
    }
  }

  /** Cutting level offenders towards the next one favours nobody. */
  lemma CutLevel(was: Lists, p: Lists, now: Lists, offenders: seq<Address>, next: Address, locals: set<Address>,
                 slots: nat, count: nat, left: nat, limit: nat)
    requires SingledOut(was, p, offenders, locals, slots) && LongestSuspect(was, offenders, next, locals, slots)
    requires CutBack(p, now, offenders, next) && NoneFavoured(was, p, locals) && NoMoreThanNeeded(was, p, limit)
    requires count == Total(p) && left == Total(now) && Rounds(p, now, offenders, count, left, limit)
    ensures NoneFavoured(was, now, locals) && NoMoreThanNeeded(was, now, limit)
  {
    if offenders != [] {
      StillNeeded(was, p, now, offenders, count, left, limit);
      OnlyLevelCut(was, p, now, offenders, locals, |was[next].items|);
    }
  }

  lemma OnlyLevelCut(was: Lists, p: Lists, now: Lists, offenders: seq<Address>, locals: set<Address>, rest: nat)
    requires offenders != [] && CutOnly(was, p, offenders) && CutOnly(p, now, offenders)
    requires Level(now, offenders, Len(now, offenders[0])) && rest <= Len(now, offenders[0])
    requires forall b :: b in was && b !in locals && b !in offenders ==> |was[b].items| <= rest
    ensures NoneFavoured(was, now, locals)
  {
    var len := Len(now, offenders[0]);
    forall b | b in offenders ensures Len(now, b) == len {
      var i :| 0 <= i < |offenders| && offenders[i] == b;
    }
    forall a, b | a in was && Len(now, a) < Len(was, a) && b in was && b !in locals ensures Len(now, b) <= Len(now, a) {
      assert a in offenders;
    }
  }

  /** The last phase of the cap, in which every longer account is an offender. */
  lemma RestLower(was: Lists, p: Lists, now: Lists, offenders: seq<Address>, locals: set<Address>, slots: nat,
                  count: nat, left: nat, limit: nat)
    requires offenders != [] && Distinct(offenders) && CutOnly(was, p, offenders) && CutOnly(p, now, offenders)
    requires forall o :: o in offenders ==> o in p
    requires Level(now, offenders, Len(now, offenders[0])) && slots <= Len(now, offenders[0])
    requires forall a :: a in p && a !in locals && a !in offenders ==> |p[a].items| <= slots
    requires count == Total(p) && left == Total(now) && Rounds(p, now, offenders, count, left, limit)
    requires NoMoreThanNeeded(was, p, limit)
    ensures NoneFavoured(was, now, locals) && NoMoreThanNeeded(was, now, limit)
  {
    StillNeeded(was, p, now, offenders, count, left, limit);
    OnlyLevelCut(was, p, now, offenders, locals, slots);
  }

  /** The offenders have the same length, and the next one is no longer than they are. */
  ghost predicate LevelAbove(m: Lists, offenders: seq<Address>, next: Address) {
    offenders != [] ==> Level(m, offenders, Len(m, offenders[0])) && Len(m, next) <= Len(m, offenders[0])
  }

  /** The offenders alone were cut, and not below the length of the next one. */
  ghost predicate CutBack(was: Lists, now: Lists, offenders: seq<Address>, next: Address) {
    if offenders == [] then now == was
    else
      && CutOnly(was, now, offenders) && Level(now, offenders, Len(now, offenders[0]))
      && Len(was, next) <= Len(now, offenders[0])
  }

  /** The next offender is a suspect that was not singled out yet, and none of those is longer. */
  ghost predicate LongestSuspect(was: Lists, offenders: seq<Address>, next: Address, locals: set<Address>, slots: nat) {
    && next in was && next !in locals && next !in offenders && |was[next].items| > slots
    && forall a :: a in was && a !in locals && a !in offenders && |was[a].items| > slots ==>
         |was[a].items| <= |was[next].items|
  }

  lemma NextIsNoLonger(was: Lists, p: Lists, offenders: seq<Address>, next: Address, locals: set<Address>, slots: nat)
    requires SingledOut(was, p, offenders, locals, slots) && Levelled(was, p, offenders, locals, slots)
    requires LongestSuspect(was, offenders, next, locals, slots)
    ensures LevelAbove(p, offenders, next)
  {
  }

  /** One step of equalizing: the offenders so far are cut towards the length of the next one. */
  lemma OneMore(was: Lists, p: Lists, now: Lists, offenders: seq<Address>, next: Address, locals: set<Address>,
                slots: nat)
    requires SingledOut(was, p, offenders, locals, slots) && Levelled(was, p, offenders, locals, slots)
    requires LongestSuspect(was, offenders, next, locals, slots) && CutBack(p, now, offenders, next)
    ensures SingledOut(was, now, offenders + [next], locals, slots)
    ensures offenders == [] || Len(now, offenders[0]) == Len(p, next) ==>
              Levelled(was, now, offenders + [next], locals, slots)
  {
    var more := offenders + [next];
    assert forall a :: a in more <==> a in offenders || a == next;
    forall o | o in offenders ensures Len(now, o) > slots {
      var i :| 0 <= i < |offenders| && offenders[i] == o;
    }
  }

  /** What adding transactions changes. */
  datatype Snapshot = Snapshot(pending: Lists, queue: Lists, all: Lookup, virtual: Nonces, locals: set<Address>)

  /** What the cap on pending transactions changes. */
  datatype Stock = Stock(pending: Lists, all: Lookup, virtual: Nonces)

  /** Only the given accounts lost transactions; every list kept its lowest nonces and no virtual nonce was raised. */
  ghost predicate Trimmed(was: Stock, now: Stock, chain: Chain, who: seq<Address>) {
    && HighestCut(was, now, chain)
    && forall h {:trigger LostOf(was.all, now.all, who, h)} :: LostOf(was.all, now.all, who, h)
  }

  ghost predicate LostOf(was: Lookup, now: Lookup, who: seq<Address>, h: Hash) {
    && (h in now ==> h in was && now[h] == was[h])
    && (h in was && h !in now ==> was[h].sender in who)
  }

  ghost predicate HighestCut(was: Stock, now: Stock, chain: Chain) {
    forall a {:trigger HighestCutAt(was, now, chain, a)} :: HighestCutAt(was, now, chain, a)
  }

  ghost predicate HighestCutAt(was: Stock, now: Stock, chain: Chain, a: Address) {
    && VirtualNonce(now.virtual, chain, a) <= VirtualNonce(was.virtual, chain, a)
    && LowestKept(ListOf(was.pending, a, true).items, ListOf(now.pending, a, true).items)
  }

  lemma CutLowest(was: Stock, now: Stock, chain: Chain)
    requires HighestCut(was, now, chain)
    ensures forall a {:trigger ListOf(now.pending, a, true)} ::
              LowestKept(ListOf(was.pending, a, true).items, ListOf(now.pending, a, true).items)
  {
    forall a ensures LowestKept(ListOf(was.pending, a, true).items, ListOf(now.pending, a, true).items) {
      assert HighestCutAt(was, now, chain, a);
    }
  }

  lemma TrimmedRefl(s: Stock, chain: Chain, who: seq<Address>)
    ensures Trimmed(s, s, chain, who)
  {
  }

  lemma TrimmedTrans(s0: Stock, s1: Stock, s2: Stock, chain: Chain, who: seq<Address>)
    requires Trimmed(s0, s1, chain, who) && Trimmed(s1, s2, chain, who)
    ensures Trimmed(s0, s2, chain, who)
  {
    forall a ensures HighestCutAt(s0, s2, chain, a) {
      assert HighestCutAt(s0, s1, chain, a) && HighestCutAt(s1, s2, chain, a);
    }
    forall h ensures LostOf(s0.all, s2.all, who, h) {
      assert LostOf(s0.all, s1.all, who, h) && LostOf(s1.all, s2.all, who, h);
    }
  }

  lemma TrimmedMore(was: Stock, now: Stock, chain: Chain, who: seq<Address>, next: Address)
    requires Trimmed(was, now, chain, who)
    ensures Trimmed(was, now, chain, who + [next])
  {
    forall h ensures LostOf(was.all, now.all, who + [next], h) { assert LostOf(was.all, now.all, who, h); }
  }

  lemma TrimmedTop(was: Stock, now: Stock, chain: Chain, who: seq<Address>, a: Address)
    requires a in who && a in was.pending && TopCut(was, now, chain, a)
    ensures Trimmed(was, now, chain, who)
  {
    forall x ensures HighestCutAt(was, now, chain, x) {
      if x == a { assert forall n :: n in was.pending[a].items ==> n < Top(was.pending[a].items); }
    }
  }

  /** The account's highest pending nonce is gone and its virtual nonce is not above it. */
  ghost predicate TopCut(was: Stock, now: Stock, chain: Chain, a: Address)
    requires a in was.pending
  {
    var top := Top(was.pending[a].items) - 1;
    && top >= 0 && TopDropped(was.pending, now.pending, was.all, now.all, a, top)
    && now.virtual == if VirtualNonce(was.virtual, chain, a) > top then was.virtual[a := top] else was.virtual
  }

  ghost predicate TopDropped(was: Lists, now: Lists, all: Lookup, left: Lookup, a: Address, top: nat) {
    && Taken(was, a, top) && top == Top(was[a].items) - 1
    && was[a].items[top].sender == a && left == Without(all, {was[a].items[top]})
    && now == was[a := was[a].(items := Below(was[a].items, top))] && Len(now, a) == Len(was, a) - 1
  }

  lemma TopAlone(a: Address, list: List)
    requires ListOk(a, list, true) && list.items != map[]
    ensures Top(list.items) > 0 && Top(list.items) - 1 in list.items && list.items[Top(list.items) - 1].sender == a
    ensures var kept := list.(items := Below(list.items, Top(list.items) - 1));
            && Shrunk(list, kept) && |kept.items| == |list.items| - 1
            && Removed(list, kept) == {list.items[Top(list.items) - 1]}
  {
    CapByOne(list.items);
  }

  lemma TrimmedRemote(was: Stock, now: Stock, chain: Chain, who: seq<Address>, locals: set<Address>)
    requires Trimmed(was, now, chain, who) && forall o :: o in who ==> o !in locals
    ensures LostRemote(locals, was.all, now.all) && NoneRaised(was.virtual, now.virtual, chain)
  {
    forall a ensures NotRaised(was.virtual, now.virtual, chain, a) { assert HighestCutAt(was, now, chain, a); }
    forall h ensures LostOf(was.all, now.all, who, h) {}
    assert forall h :: h in now.all ==> LostOf(was.all, now.all, who, h);
    assert forall h :: h in was.all ==> LostOf(was.all, now.all, who, h);
  }

  ghost predicate LowestKept(was: Items, now: Items) {
    && (forall n :: n in now ==> n in was && now[n] == was[n])
    && forall n, m :: n in now && m in was && m !in now ==> n < m
  }

  /** The first i accounts have lost one transaction each, nobody else any. */
  ghost predicate PartlyCut(was: Lists, now: Lists, who: seq<Address>, i: nat) {
    && CutOnly(was, now, who)
    && forall j :: 0 <= j < |who| ==> Len(now, who[j]) == Len(was, who[j]) - if j < i then 1 else 0
  }

  lemma OneCut(was: Lists, p: Lists, now: Lists, who: seq<Address>, i: nat)
    requires i < |who| && Distinct(who) && PartlyCut(was, p, who, i)
    requires who[i] in p && who[i] in now && now == p[who[i] := now[who[i]]] && Len(now, who[i]) == Len(p, who[i]) - 1
    ensures PartlyCut(was, now, who, i + 1)
  {
  }

  /** A limit one below the length drops the highest nonce alone. */
  lemma CapByOne(items: Items)
    requires KeyedByNonce(items) && items != map[]
    ensures Top(items) > 0 && Top(items) - 1 in items
    ensures CutOff(items, |items| - 1) == Top(items) - 1
    ensures Below(items, Top(items) - 1) == items - {Top(items) - 1} && |items - {Top(items) - 1}| == |items| - 1
  {
    var top := Top(items) - 1;
    FlattenSorted(items);
    var all := Flatten(items);
    assert items[top] in all;
    assert all[|all| - 1] in all;
    assert Below(items, top).Keys == items.Keys - {top};
  }

  /** Splitting a queued list after the run from its lowest nonce. */
  lemma ReadyRun(list: List, kept: List, first: nat, end: nat)
    requires WellFormed(list) && list.items != map[] && first == Least(list.items)
    requires end == first + RunLength(list.items, first)
    requires kept == list.(items := AtLeast(list.items, end))
    ensures Shrunk(list, kept) && Removed(list, kept) == Upcoming(list.items, first, end) && first < end
    ensures Stretch(list.items, first, end) == Below(list.items, end)
  {
  }

  /**
   What promotion makes of one account: of its queue exactly the payable entries count, the run from
   the lowest up moves to pending and the virtual nonce to its end, and the rest stays, for a remote
   account only the lowest nonces up to the limit.
   */
  ghost predicate PromotedAt(s: Snapshot, t: Snapshot, chain: Chain, maxGas: nat, limit: nat, a: Address) {
    var payable := PayableItems(chain, maxGas, ListOf(s.queue, a, false).items);
    var end := ReadyEnd(payable, VirtualNonce(s.virtual, chain, a));
    && ListOf(t.queue, a, false).items == CappedItems(AtLeast(payable, end), a in s.locals, limit)
    && ListOf(t.pending, a, true).items == ListOf(s.pending, a, true).items + Below(payable, end)
    && VirtualNonce(t.virtual, chain, a) == if end == 0 then VirtualNonce(s.virtual, chain, a) else end
  }

  ghost predicate SameAt(s: Snapshot, t: Snapshot, chain: Chain, a: Address) {
    && ListOf(t.queue, a, false) == ListOf(s.queue, a, false)
    && ListOf(t.pending, a, true) == ListOf(s.pending, a, true)
    && VirtualNonce(t.virtual, chain, a) == VirtualNonce(s.virtual, chain, a)
  }

  ghost predicate PromotedIf(s: Snapshot, t: Snapshot, chain: Chain, maxGas: nat, limit: nat, who: set<Address>,
                             a: Address) {
    if a in who then PromotedAt(s, t, chain, maxGas, limit, a) else SameAt(s, t, chain, a)
  }

  /** Exactly the given accounts have been promoted. */
  ghost predicate EachPromoted(s: Snapshot, t: Snapshot, chain: Chain, maxGas: nat, limit: nat, who: set<Address>) {
    && t.locals == s.locals
    && forall a {:trigger PromotedIf(s, t, chain, maxGas, limit, who, a)} ::
         PromotedIf(s, t, chain, maxGas, limit, who, a)
  }

  lemma NonePromoted(s: Snapshot, chain: Chain, maxGas: nat, limit: nat)
    ensures EachPromoted(s, s, chain, maxGas, limit, {})
  {
  }

  lemma NothingToPromote(s: Snapshot, chain: Chain, maxGas: nat, limit: nat, a: Address)
    ensures a !in s.queue ==> EachPromoted(s, s, chain, maxGas, limit, {a})
  {
    if a !in s.queue {
      assert PayableItems(chain, maxGas, map[]) == map[] && AtLeast(map[], 0) == map[] && Below(map[], 0) == map[];
      assert CappedItems(map[], a in s.locals, limit) == map[];
      assert ListOf(s.pending, a, true).items + map[] == ListOf(s.pending, a, true).items;
    }
  }

  lemma PromotedOne(s: Snapshot, t: Snapshot, chain: Chain, maxGas: nat, limit: nat, a: Address)
    requires a in s.queue && ChangedAt(s.queue, t.queue, a) && ChangedAt(s.pending, t.pending, a)
    requires t.locals == s.locals
    requires PromotedAndCapped(s.queue[a].items, ListOf(t.queue, a, false).items,
                               ListOf(s.pending, a, true).items, ListOf(t.pending, a, true).items,
                               s.virtual, t.virtual, chain, maxGas, a, a in s.locals, limit)
    ensures EachPromoted(s, t, chain, maxGas, limit, {a})
  {
  }

  lemma OneMorePromoted(s: Snapshot, m: Snapshot, t: Snapshot, chain: Chain, maxGas: nat, limit: nat,
                        who: set<Address>, a: Address)
    requires EachPromoted(s, m, chain, maxGas, limit, who) && EachPromoted(m, t, chain, maxGas, limit, {a}) && a !in who
    ensures EachPromoted(s, t, chain, maxGas, limit, who + {a})
  {
    forall b ensures PromotedIf(s, t, chain, maxGas, limit, who + {a}, b) {
      assert PromotedIf(s, m, chain, maxGas, limit, who, b) && PromotedIf(m, t, chain, maxGas, limit, {a}, b);
    }
  }

  ghost function BooksOf(s: Snapshot): Books {
    Books(s.pending, s.queue, s.all, {})
  }

  /** No limit stands in the way of promoting the accounts. */
  ghost predicate Ample(s: Snapshot, who: set<Address>, config: Config) {
    && Total(s.pending) + TotalOf(s.queue, who) <= config.globalSlots && Total(s.queue) <= config.globalQueue
    && forall a :: a in who && a !in s.locals ==> Len(s.queue, a) <= config.accountQueue
  }

  /** Then whatever could be paid for stays, and the limits of the whole pool are not reached. */
  lemma AmpleKeeps(s: Snapshot, t: Snapshot, preimage: Hash -> Tx, chain: Chain, maxGas: nat, config: Config,
                   who: set<Address>)
    requires Consistent(BooksOf(s), preimage) && Consistent(BooksOf(t), preimage) && Fewer(s.all, t.all)
    requires EachPromoted(s, t, chain, maxGas, config.accountQueue, who)
    ensures Ample(s, who, config) ==>
              && LostUnpayable(chain, maxGas, s.all, t.all)
              && Total(t.pending) <= config.globalSlots && Total(t.queue) <= config.globalQueue
  {
    if Ample(s, who, config) {
      PromotionTotals(s, t, preimage, chain, maxGas, config.accountQueue, who);
      forall h | h in s.all && h !in t.all ensures !PayableTx(chain, maxGas, s.all[h]) {
        if PayableTx(chain, maxGas, s.all[h]) {
          StillListed(s, t, preimage, chain, maxGas, config.accountQueue, who, s.all[h]);
        }
      }
    }
  }

  lemma StillListed(s: Snapshot, t: Snapshot, preimage: Hash -> Tx, chain: Chain, maxGas: nat, limit: nat,
                    who: set<Address>, tx: Tx)
    requires Consistent(BooksOf(s), preimage) && Consistent(BooksOf(t), preimage)
    requires EachPromoted(s, t, chain, maxGas, limit, who)
    requires forall a :: a in who && a !in s.locals ==> Len(s.queue, a) <= limit
    requires Known(s.all, tx) && PayableTx(chain, maxGas, tx)
    ensures Known(t.all, tx)
  {
    var a, n := tx.sender, tx.nonce;
    assert Placed(BooksOf(s), tx) && Placed(BooksOf(t), tx);
    assert PromotedIf(s, t, chain, maxGas, limit, who, a);
    Disjoint(BooksOf(s), preimage, a, n);
    if a in who {
      var items := ListOf(s.queue, a, false).items;
      assert a in s.queue ==> ListOk(a, s.queue[a], false);
      var end := ReadyEnd(PayableItems(chain, maxGas, items), VirtualNonce(s.virtual, chain, a));
      NoneDropped(chain, maxGas, items, ListOf(s.pending, a, true).items, end, a in s.locals, limit, n);
    }
  }

  /** Below the limit a payable entry of either list is in one of them afterwards. */
  lemma NoneDropped(chain: Chain, maxGas: nat, queue: Items, pending: Items, end: nat, local: bool, limit: nat, n: nat)
    requires KeyedByNonce(queue) && (local || |queue| <= limit)
    ensures var payable := PayableItems(chain, maxGas, queue);
            var q, p := CappedItems(AtLeast(payable, end), local, limit), pending + Below(payable, end);
            && (n in queue && PayableTx(chain, maxGas, queue[n]) ==>
                  (n in q && q[n] == queue[n]) || (n in p && p[n] == queue[n]))
            && (n in pending && n !in queue ==> n in p && p[n] == pending[n])
  {
    var payable := PayableItems(chain, maxGas, queue);
    SubItems(queue, payable);
    SubItems(payable, AtLeast(payable, end));
    if !local { CapAll(AtLeast(payable, end), limit); }
  }

  lemma SubItems(items: Items, part: Items)
    requires forall n :: n in part ==> n in items && part[n] == items[n]
    ensures |part| <= |items| && (KeyedByNonce(items) ==> KeyedByNonce(part))
  {
    SmallerSet(part.Keys, items.Keys);
  }

  lemma CapAll(items: Items, k: nat)
    requires KeyedByNonce(items) && |items| <= k
    ensures Below(items, CutOff(items, k)) == items
  {
    FlattenSorted(items);
  }

  /** Promotion makes no queue longer, and a pending list longer by no more than its queue. */
  lemma PromotionTotals(s: Snapshot, t: Snapshot, preimage: Hash -> Tx, chain: Chain, maxGas: nat, limit: nat,
                        who: set<Address>)
    requires Consistent(BooksOf(s), preimage) && EachPromoted(s, t, chain, maxGas, limit, who)
    ensures NoLonger(s.queue, t.queue) && Total(t.queue) <= Total(s.queue)
    ensures Total(t.pending) <= Total(s.pending) + TotalOf(s.queue, who)
  {
    forall a
      ensures Len(t.queue, a) <= Len(s.queue, a)
      ensures Len(t.pending, a) <= Len(s.pending, a) + if a in who then Len(s.queue, a) else 0
    {
      PromotedLengths(s, t, preimage, chain, maxGas, limit, who, a);
    }
    NoLongerTotal(s.queue, t.queue);
    var keys := s.pending.Keys + t.pending.Keys + who;
    TotalGrowth(s.pending, t.pending, s.queue, keys, who);
    TotalPadded(s.pending, keys);
    TotalPadded(t.pending, keys);
  }

  lemma PromotedLengths(s: Snapshot, t: Snapshot, preimage: Hash -> Tx, chain: Chain, maxGas: nat, limit: nat,
                        who: set<Address>, a: Address)
    requires Consistent(BooksOf(s), preimage) && EachPromoted(s, t, chain, maxGas, limit, who)
    ensures Len(t.queue, a) <= Len(s.queue, a)
    ensures Len(t.pending, a) <= Len(s.pending, a) + if a in who then Len(s.queue, a) else 0
  {
    assert PromotedIf(s, t, chain, maxGas, limit, who, a);
    if a in who {
      var items := ListOf(s.queue, a, false).items;
      var payable := PayableItems(chain, maxGas, items);
      var end := ReadyEnd(payable, VirtualNonce(s.virtual, chain, a));
      SubItems(items, CappedItems(AtLeast(payable, end), a in s.locals, limit));
      SubItems(items, Below(payable, end));
      UnionLength(ListOf(s.pending, a, true).items, Below(payable, end));
    }
  }

  lemma UnionLength(a: Items, b: Items)
    ensures |a + b| <= |a| + |b|
  {
    assert (a + b).Keys == a.Keys + b.Keys;
  }

  lemma {:induction false} TotalGrowth(was: Lists, now: Lists, q: Lists, keys: set<Address>, who: set<Address>)
    requires who <= keys
    requires forall a :: a in keys ==> Len(now, a) <= Len(was, a) + if a in who then Len(q, a) else 0
    ensures TotalOf(now, keys) <= TotalOf(was, keys) + TotalOf(q, who)
    decreases |keys|
  {
    if a :| a in keys {
      TotalSplit(was, keys, a);
      TotalSplit(now, keys, a);
      if a in who {
        TotalSplit(q, who, a);
        TotalGrowth(was, now, q, keys - {a}, who - {a});
      } else {
        TotalGrowth(was, now, q, keys - {a}, who);
      }
    }
  }

  /** The transactions of one sender. */
  ghost function Owned(all: Lookup, a: Address): set<Hash> {
    set h | h in all && all[h].sender == a
  }

  /** So few transactions, in all and of every remote account, that no limit can matter. */
  ghost predicate Spacious(all: Lookup, locals: set<Address>, config: Config) {
    && |all| <= config.globalSlots && |all| <= config.globalQueue
    && forall a {:trigger Owned(all, a)} :: a !in locals ==> |Owned(all, a)| <= config.accountQueue
  }

  lemma SpaciousAmple(all: Lookup, locals: set<Address>, s: Snapshot, preimage: Hash -> Tx, who: set<Address>,
                      config: Config)
    requires Spacious(all, locals, config) && Fewer(all, s.all) && locals <= s.locals
    requires Consistent(BooksOf(s), preimage)
    ensures Ample(s, who, config)
  {
    CountsAgree(BooksOf(s), preimage);
    SmallerSet(s.all.Keys, all.Keys);
    TotalOfSome(s.queue, who);
    forall a | a in who && a !in s.locals ensures Len(s.queue, a) <= config.accountQueue {
      QueueOwned(s, preimage, a);
      SmallerSet(Owned(s.all, a), Owned(all, a));
    }
  }

  lemma TotalOfSome(m: Lists, who: set<Address>)
    ensures TotalOf(m, who) <= Total(m)
  {
    var keys := m.Keys + who;
    TotalPadded(m, keys);
    TotalOfPart(m, who, keys);
  }

  lemma {:induction false} TotalOfPart(m: Lists, who: set<Address>, keys: set<Address>)
    requires who <= keys
    ensures TotalOf(m, who) <= TotalOf(m, keys)
    decreases |keys|
  {
    if who != keys {
      var a :| a in keys && a !in who;
      TotalSplit(m, keys, a);
      TotalOfPart(m, who, keys - {a});
    }
  }

  lemma QueueOwned(s: Snapshot, preimage: Hash -> Tx, a: Address)
    requires Consistent(BooksOf(s), preimage)
    ensures Len(s.queue, a) <= |Owned(s.all, a)|
  {
    if a in s.queue {
      var items := s.queue[a].items;
      assert ListOk(a, s.queue[a], false);
      forall n | n in items ensures Known(s.all, items[n]) {
        EntryPlaced(BooksOf(s), preimage, a, n, items[n]);
      }
      EachOwned(items, s.all, Owned(s.all, a));
    }
  }

  lemma {:induction false} EachOwned(items: Items, all: Lookup, owned: set<Hash>)
    requires KeyedByNonce(items) && forall n :: n in items ==> Known(all, items[n]) && items[n].hash in owned
    ensures |items| <= |owned|
    decreases |items|
  {
    if n :| n in items {
      var rest := items - {n};
      assert rest.Keys == items.Keys - {n};
      EachOwned(rest, all, owned - {items[n].hash});
    }
  }

  /** The pool has room for one more of the sender, wherever it goes. */
  ghost predicate RoomFor(s: Snapshot, tx: Tx, config: Config) {
    && Total(s.pending) + Len(s.queue, tx.sender) + 1 <= config.globalSlots
    && Total(s.queue) + 1 <= config.globalQueue
    && (tx.sender in s.locals || Len(s.queue, tx.sender) + 1 <= config.accountQueue)
  }

  lemma RoomIsAmple(s: Snapshot, t: Snapshot, tx: Tx, config: Config)
    requires NoLonger(s.pending, t.pending) && GrownBy(s.queue, t.queue, tx) && s.locals <= t.locals
    ensures RoomFor(s, tx, config) ==> Ample(t, {tx.sender}, config)
  {
    NoLongerTotal(s.pending, t.pending);
    TotalSplit(t.queue, {tx.sender}, tx.sender);
    assert {tx.sender} - {tx.sender} == {};
  }

  lemma RoomIsBelow(s: Snapshot, preimage: Hash -> Tx, tx: Tx, config: Config)
    requires Consistent(BooksOf(s), preimage) && RoomFor(s, tx, config)
    ensures |s.all| < config.globalSlots + config.globalQueue
  {
    CountsAgree(BooksOf(s), preimage);
  }

  /** If whatever left could not have been paid for, and all could be, nothing left. */
  lemma AllStay(chain: Chain, maxGas: nat, was: Lookup, now: Lookup)
    requires LostUnpayable(chain, maxGas, was, now) && PayableAll(chain, maxGas, was)
    ensures now == was
  {
  }

  lemma LostTwice(chain: Chain, maxGas: nat, was: Lookup, mid: Lookup, now: Lookup)
    requires LostUnpayable(chain, maxGas, was, mid) && LostUnpayable(chain, maxGas, mid, now)
    ensures LostUnpayable(chain, maxGas, was, now)
  {
  }

  function Senders(txs: seq<Tx>): set<Address> {
    set tx | tx in txs :: tx.sender
  }

  /** The answers to a batch, one by one, each by the contents its predecessors have left. */
  ghost predicate Staged(terms: Terms, txs: seq<Tx>, local: bool, errs: seq<Option<Error>>, stages: seq<Snapshot>) {
    && |errs| == |txs| && |stages| == |txs| + 1
    && forall i {:trigger StageOk(terms, txs, local, errs, stages, i)} ::
         0 <= i < |txs| ==> StageOk(terms, txs, local, errs, stages, i)
  }

  ghost predicate StageOk(terms: Terms, txs: seq<Tx>, local: bool, errs: seq<Option<Error>>, stages: seq<Snapshot>,
                          i: nat)
    requires i < |txs| == |errs| && |stages| == |txs| + 1
  {
    Answers(terms, stages[i], stages[i + 1], txs[i], local, errs[i])
  }

  /** The answer to a transaction by what the pool holds, and what it holds then. */
  ghost predicate Answers(terms: Terms, was: Snapshot, now: Snapshot, tx: Tx, local: bool, err: Option<Error>) {
    && was.locals <= now.locals <= was.locals + {tx.sender}
    && Judged(terms, was.all, now.all, was.locals, tx, local, err)
  }

  lemma OneMoreStage(terms: Terms, txs: seq<Tx>, i: nat, local: bool, errs: seq<Option<Error>>, stages: seq<Snapshot>,
                     err: Option<Error>, now: Snapshot)
    requires i < |txs| && Staged(terms, txs[..i], local, errs, stages)
    requires Answers(terms, stages[i], now, txs[i], local, err)
    ensures Staged(terms, txs[..i + 1], local, errs + [err], stages + [now])
  {
    var ts, es, ss := txs[..i + 1], errs + [err], stages + [now];
    forall k: nat {:trigger StageOk(terms, ts, local, es, ss, k)} | k < i + 1
      ensures StageOk(terms, ts, local, es, ss, k)
    {
      if k < i { assert StageOk(terms, txs[..i], local, errs, stages, k); }
    }
  }

  /**
   The cap on pending transactions: nothing changes within the limit; beyond it only remote accounts
   above the allowance are cut, none below it or below another remote one, and no more than needed.
   */
  ghost predicate PendingCapped(was: Lists, now: Lists, locals: set<Address>, limit: nat, slots: nat) {
    if Total(was) <= limit then now == was
    else
      && FairlyCut(was, now, locals, slots) && NoneFavoured(was, now, locals) && NoMoreThanNeeded(was, now, limit)
      && forall a {:trigger ListOf(now, a, true)} :: LowestKept(ListOf(was, a, true).items, ListOf(now, a, true).items)
  }

  /** The cap on queued transactions: nothing changes within the limit; beyond it remote queues go, down to it. */
  ghost predicate QueueCapped(was: Lists, now: Lists, locals: set<Address>, limit: nat) {
    if Total(was) <= limit then now == was
    else
      && Total(now) >= limit && WholeButOne(was, now)
      && forall a :: a in was && a in locals ==> a in now && now[a] == was[a]
  }

  /** The account's queue is as it was, or gone. */
  ghost predicate WholeAt(was: Lists, now: Lists, a: Address) {
    ListOf(now, a, false).items == ListOf(was, a, false).items || Len(now, a) == 0
  }

  ghost predicate AllWhole(was: Lists, now: Lists) {
    forall a {:trigger WholeAt(was, now, a)} :: WholeAt(was, now, a)
  }

  /** Every queue but one is as it was or gone, and that one has kept its lowest nonces. */
  ghost predicate WholeButOne(was: Lists, now: Lists) {
    && (forall a, b {:trigger WholeAt(was, now, a), WholeAt(was, now, b)} ::
          a != b ==> WholeAt(was, now, a) || WholeAt(was, now, b))
    && forall a {:trigger ListOf(now, a, false)} :: LowestKept(ListOf(was, a, false).items, ListOf(now, a, false).items)
  }

  lemma WholeRefl(q: Lists)
    ensures AllWhole(q, q) && WholeButOne(q, q)
  {
  }

  lemma OneMoreCut(was: Lists, q: Lists, now: Lists, a: Address)
    requires AllWhole(was, q) && WholeButOne(was, q) && ChangedAt(q, now, a)
    requires LowestKept(ListOf(q, a, false).items, ListOf(now, a, false).items)
    ensures WholeButOne(was, now) && (Len(now, a) == 0 ==> AllWhole(was, now))
  {
    forall b | b != a ensures WholeAt(was, now, b) {
      assert WholeAt(was, q, b);
    }
    forall b ensures LowestKept(ListOf(was, b, false).items, ListOf(now, b, false).items) {
      assert WholeAt(was, q, b);
      assert LowestKept(ListOf(was, b, false).items, ListOf(q, b, false).items);
    }
  }

  /** Every queued nonce lies beyond the virtual one: the account has nothing left to promote. */
  ghost predicate Quiet(queue: Lists, virtual: Nonces, chain: Chain, a: Address) {
    forall n: nat :: Taken(queue, a, n) ==> VirtualNonce(virtual, chain, a) < n
  }

  /** Whoever had nothing to promote still has nothing, the given accounts excepted. */
  ghost predicate StaysQuiet(queue: Lists, virtual: Nonces, newQueue: Lists, newVirtual: Nonces,
                             chain: Chain, but: set<Address>) {
    forall a {:trigger Quiet(newQueue, newVirtual, chain, a)} ::
      a !in but && Quiet(queue, virtual, chain, a) ==> Quiet(newQueue, newVirtual, chain, a)
  }

  /** Once every account with a queue has been promoted, nobody has anything left to promote. */
  lemma EveryoneQuiet(queue: Lists, virtual: Nonces, newQueue: Lists, newVirtual: Nonces, chain: Chain)
    requires StaysQuiet(queue, virtual, newQueue, newVirtual, chain, {})
    requires forall a :: a in queue ==> Quiet(newQueue, newVirtual, chain, a)
    ensures forall a {:trigger Quiet(newQueue, newVirtual, chain, a)} :: Quiet(newQueue, newVirtual, chain, a)
  {
    forall a ensures Quiet(newQueue, newVirtual, chain, a) {
      if a !in queue { assert Quiet(queue, virtual, chain, a); }
    }
  }

  /** No virtual nonce was raised. */
  ghost predicate NoneRaised(virtual: Nonces, newVirtual: Nonces, chain: Chain) {
    forall a {:trigger NotRaised(virtual, newVirtual, chain, a)} :: NotRaised(virtual, newVirtual, chain, a)
  }

  ghost predicate NotRaised(virtual: Nonces, newVirtual: Nonces, chain: Chain, a: Address) {
    VirtualNonce(newVirtual, chain, a) <= VirtualNonce(virtual, chain, a)
  }

  lemma FewerQuiet(queue: Lists, virtual: Nonces, newQueue: Lists, newVirtual: Nonces, chain: Chain)
    requires forall a, n: nat :: Taken(newQueue, a, n) ==> Taken(queue, a, n)
    requires NoneRaised(virtual, newVirtual, chain)
    ensures StaysQuiet(queue, virtual, newQueue, newVirtual, chain, {})
  {
    forall a | Quiet(queue, virtual, chain, a) ensures Quiet(newQueue, newVirtual, chain, a) {
      assert NotRaised(virtual, newVirtual, chain, a);
    }
  }

  /** What goes back to the queue behind a cut lies beyond the virtual nonce, which is lowered to the cut. */
  lemma CutQuiet(queue: Lists, newQueue: Lists, virtual: Nonces, lowered: Nonces, chain: Chain,
                 requeued: set<Tx>, a: Address, cut: nat)
    requires Joined(queue, newQueue, requeued) && forall tx :: tx in requeued ==> tx.sender == a && tx.nonce > cut
    requires lowered == if VirtualNonce(virtual, chain, a) > cut then virtual[a := cut] else virtual
    ensures StaysQuiet(queue, virtual, newQueue, lowered, chain, {})
  {
    forall x | Quiet(queue, virtual, chain, x) ensures Quiet(newQueue, lowered, chain, x) {
      forall n: nat | Taken(newQueue, x, n) ensures VirtualNonce(lowered, chain, x) < n {
        assert Taken(queue, x, n) || SlotOf(requeued, x, n);
      }
    }
  }

  /** One of the transactions has this sender and nonce. */
  ghost predicate SlotOf(txs: set<Tx>, a: Address, n: nat) {
    exists tx :: tx in txs && tx.sender == a && tx.nonce == n
  }

  /** The occupied slots are the earlier ones and those of the given transactions. */
  ghost predicate Joined(was: Lists, now: Lists, txs: set<Tx>) {
    forall a, n: nat :: Taken(now, a, n) <==> Taken(was, a, n) || SlotOf(txs, a, n)
  }

  lemma OneQueued(queue: Lists, tx: Tx)
    requires !Taken(queue, tx.sender, tx.nonce)
    ensures Total(queue[tx.sender := Insert(ListOf(queue, tx.sender, false), tx)]) == Total(queue) + 1
  {
    var list := ListOf(queue, tx.sender, false);
    assert Insert(list, tx).items.Keys == list.items.Keys + {tx.nonce};
    TotalUpdate(queue, tx.sender, Insert(list, tx));
  }

  lemma JoinedOne(was: Lists, mid: Lists, now: Lists, txs: set<Tx>, more: set<Tx>, tx: Tx)
    requires Joined(was, mid, txs) && more == txs + {tx}
    requires now == mid[tx.sender := Insert(ListOf(mid, tx.sender, false), tx)]
    ensures Joined(was, now, more)
  {
    forall a, n: nat ensures SlotOf(more, a, n) <==> SlotOf(txs, a, n) || (a == tx.sender && n == tx.nonce) {
      assert SlotOf(txs, a, n) ==> exists u :: u in txs && u.sender == a && u.nonce == n && u in more;
      assert tx in more;
    }
    forall a, n: nat ensures Taken(now, a, n) <==> Taken(mid, a, n) || (a == tx.sender && n == tx.nonce) {
    }
  }

  /** Only the entry of one account may differ. */
  ghost predicate ChangedAt(was: Lists, now: Lists, a: Address) {
    now == if a in now then was[a := now[a]] else was - {a}
  }

  /** Transactions may have left the lookup; none was added or changed. */
  ghost predicate Fewer(was: Lookup, now: Lookup) {
    now.Keys <= was.Keys && forall h :: h in now ==> now[h] == was[h]
  }

  ghost predicate PayableList(chain: Chain, maxGas: nat, l: List) {
    forall n :: n in l.items ==> PayableTx(chain, maxGas, l.items[n])
  }

  /** The entries the chain would let their sender run now or later. */
  ghost function PayableItems(chain: Chain, maxGas: nat, items: Items): Items {
    map n | n in items && PayableTx(chain, maxGas, items[n]) :: items[n]
  }

  /** Dropping old nonces and then filtering leaves exactly the payable entries. */
  lemma PayableIs(chain: Chain, maxGas: nat, a: Address, list: List)
    requires ListOk(a, list, false)
    ensures var l1 := list.(items := AtLeast(list.items, chain.Nonce(a)));
            var l2 := Filtered(l1, chain.Balance(a), maxGas);
            && Shrunk(list, l1) && Shrunk(l1, l2) && l2.items == PayableItems(chain, maxGas, list.items)
            && (forall tx :: tx in Removed(list, l1) ==> !PayableTx(chain, maxGas, tx))
            && (forall tx :: tx in Removed(l1, l2) ==> !PayableTx(chain, maxGas, tx))
  {
    var l1 := list.(items := AtLeast(list.items, chain.Nonce(a)));
    FilteredItems(l1, chain.Balance(a), maxGas);
    forall n | n in l1.items
      ensures n in Affordable(l1, chain.Balance(a), maxGas) <==> PayableTx(chain, maxGas, l1.items[n])
    {
      assert n < Top(l1.items);
    }
  }

  /** What the limit per account leaves of a queue: all of a local one, the lowest nonces of a remote one. */
  function CappedItems(items: Items, local: bool, limit: nat): Items {
    if local then items else Below(items, CutOff(items, limit))
  }

  /** Exactly the run that starts at or below the virtual nonce moved over, and the virtual nonce to its end. */
  ghost predicate Promoted(q0: List, q1: List, p0: List, p1: List, v0: Nonces, v1: Nonces, chain: Chain, a: Address) {
    var end := ReadyEnd(q0.items, VirtualNonce(v0, chain, a));
    && q1.items == AtLeast(q0.items, end)
    && p1.items == p0.items + Below(q0.items, end)
    && v1 == if end == 0 then v0 else v0[a := end]
  }

  lemma PromotedLeavesNothing(q0: List, queue: Lists, p0: List, p1: List,
                              v0: Nonces, v1: Nonces, chain: Chain, a: Address)
    requires a in queue && Promoted(q0, queue[a], p0, p1, v0, v1, chain, a)
    ensures Quiet(queue, v1, chain, a)
  {
    RestBeyond(q0.items, VirtualNonce(v0, chain, a), true, 0);
  }

  lemma NothingPromoted(q: List, p: List, virtual: Nonces, chain: Chain, a: Address)
    requires ReadyEnd(q.items, VirtualNonce(virtual, chain, a)) == 0
    ensures Promoted(q, q, p, p, virtual, virtual, chain, a)
  {
    assert AtLeast(q.items, 0) == q.items && Below(q.items, 0) == map[];
    assert p.items + map[] == p.items;
  }

  /** What promoting one account amounts to, from the items of its two lists. */
  ghost predicate PromotedAndCapped(q0: Items, q1: Items, p0: Items, p1: Items, v0: Nonces, v1: Nonces,
                                    chain: Chain, maxGas: nat, a: Address, local: bool, limit: nat) {
    var payable := PayableItems(chain, maxGas, q0);
    var end := ReadyEnd(payable, VirtualNonce(v0, chain, a));
    && q1 == CappedItems(AtLeast(payable, end), local, limit)
    && p1 == p0 + Below(payable, end)
    && v1 == if end == 0 then v0 else v0[a := end]
  }

  /** What dropping, promoting and capping one account's queue amount to together. */
  lemma PromotionSteps(chain: Chain, maxGas: nat, a: Address, q0: Lists, q1: Lists, q2: Lists, q3: Lists, p0: Lists,
                       p1: Lists, v0: Nonces, v1: Nonces, local: bool, limit: nat)
    requires a in q0 && a in q1 && q1 == q0[a := q1[a]] && q1[a].items == PayableItems(chain, maxGas, q0[a].items)
    requires a in q2 && q2 == q1[a := q2[a]]
    requires Promoted(q1[a], q2[a], ListOf(p0, a, true), ListOf(p1, a, true), v0, v1, chain, a)
    requires ChangedAt(q2, q3, a) && ListOf(q3, a, false).items == CappedItems(q2[a].items, local, limit)
    ensures ChangedAt(q0, q3, a)
    ensures PromotedAndCapped(q0[a].items, ListOf(q3, a, false).items,
                              ListOf(p0, a, true).items, ListOf(p1, a, true).items,
                              v0, v1, chain, maxGas, a, local, limit)
  {
  }

  /** Promotion leaves the account nothing to promote and the others as they were. */
  lemma PromotedQuiet(q0: Lists, q1: Lists, p0: Items, p1: Items, v0: Nonces, v1: Nonces,
                      chain: Chain, maxGas: nat, a: Address, local: bool, limit: nat)
    requires a in q0 && ChangedAt(q0, q1, a)
    requires PromotedAndCapped(q0[a].items, ListOf(q1, a, false).items, p0, p1, v0, v1, chain, maxGas, a, local, limit)
    ensures Quiet(q1, v1, chain, a) && StaysQuiet(q0, v0, q1, v1, chain, {})
  {
    RestBeyond(PayableItems(chain, maxGas, q0[a].items), VirtualNonce(v0, chain, a), local, limit);
    forall x | x != a && Quiet(q0, v0, chain, x) ensures Quiet(q1, v1, chain, x) {
      assert forall n: nat :: Taken(q1, x, n) <==> Taken(q0, x, n);
    }
  }

  /** What promotion leaves in a queue lies beyond the nonce it got to. */
  lemma RestBeyond(items: Items, start: nat, local: bool, limit: nat)
    ensures var end := ReadyEnd(items, start);
            forall n :: n in CappedItems(AtLeast(items, end), local, limit) ==> (if end == 0 then start else end) < n
  {
  }

  /** Everything promotion moved or kept is payable. */
  lemma PromotedPayable(q0: Items, q1: List, p0: List, p1: List, v0: Nonces, v1: Nonces,
                        chain: Chain, maxGas: nat, a: Address, local: bool, limit: nat)
    requires PromotedAndCapped(q0, q1.items, p0.items, p1.items, v0, v1, chain, maxGas, a, local, limit)
    ensures PayableList(chain, maxGas, q1)
    ensures PayableList(chain, maxGas, p0) ==> PayableList(chain, maxGas, p1)
  {
    var payable := PayableItems(chain, maxGas, q0);
    var end := ReadyEnd(payable, VirtualNonce(v0, chain, a));
    forall n | n in q1.items ensures PayableTx(chain, maxGas, q1.items[n]) {
      assert n in AtLeast(payable, end);
    }
  }

  lemma CapLength(items: Items, k: nat)
    requires KeyedByNonce(items)
    ensures |Below(items, CutOff(items, k))| <= k
  {
    FlattenSorted(items);
    var kept := Below(items, CutOff(items, k));
    if k <= |items| {
      CutOffSplits(items, k);
      FlattenSorted(kept);
    } else {
      assert kept == items;
    }
  }

  /** The entries from one nonce up to another. */
  function Stretch(items: Items, from: nat, end: nat): Items {
    map n | n in items && from <= n < end :: items[n]
  }

  /** The entries from one nonce up to another joined the account's list, and its virtual nonce follows them. */
  ghost predicate MovedOver(p0: Lists, p1: Lists, v0: Nonces, v1: Nonces, a: Address,
                            items: Items, first: nat, end: nat) {
    && ChangedAt(p0, p1, a)
    && ListOf(p1, a, true).items == ListOf(p0, a, true).items + Stretch(items, first, end)
    && v1 == if end == first then v0 else v0[a := end]
  }

  lemma NoneMoved(pending: Lists, virtual: Nonces, a: Address, items: Items, first: nat, end: nat)
    ensures MovedOver(pending, pending, virtual, virtual, a, items, first, first)
    ensures Upcoming(items, end, end) == {}
  {
    assert Stretch(items, first, first) == map[];
    var l := ListOf(pending, a, true).items;
    assert l + map[] == l;
  }

  lemma OneMoved(p0: Lists, p1: Lists, p2: Lists, v0: Nonces, v1: Nonces, v2: Nonces, a: Address, items: Items,
                 first: nat, n: nat)
    requires MovedOver(p0, p1, v0, v1, a, items, first, n) && first <= n && n in items && items[n].nonce == n
    requires p2 == p1[a := Insert(ListOf(p1, a, true), items[n])] && v2 == v1[a := n + 1]
    ensures MovedOver(p0, p2, v0, v2, a, items, first, n + 1)
  {
    StretchGrows(ListOf(p0, a, true).items, items, first, n);
  }

  lemma StretchGrows(base: Items, items: Items, from: nat, n: nat)
    requires n in items && from <= n
    ensures base + Stretch(items, from, n + 1) == (base + Stretch(items, from, n))[n := items[n]]
  {
  }

  lemma RunPromoted(list: List, kept: List, p0: Lists, p1: Lists, v0: Nonces, v1: Nonces, chain: Chain, a: Address,
                    first: nat, end: nat)
    requires list.items != map[] && first == Least(list.items) <= VirtualNonce(v0, chain, a)
    requires end == first + RunLength(list.items, first) && first < end && kept.items == AtLeast(list.items, end)
    requires Stretch(list.items, first, end) == Below(list.items, end)
    requires MovedOver(p0, p1, v0, v1, a, list.items, first, end)
    ensures Promoted(list, kept, ListOf(p0, a, true), ListOf(p1, a, true), v0, v1, chain, a)
  {
  }

  /** The transactions from one nonce up to another. */
  ghost function Upcoming(items: Items, from: nat, end: nat): set<Tx> {
    set n | n in items && from <= n < end :: items[n]
  }

  lemma UpcomingStep(items: Items, n: nat, end: nat)
    requires KeyedByNonce(items) && n in items && n < end
    ensures items[n] in Upcoming(items, n, end)
    ensures Upcoming(items, n + 1, end) == Upcoming(items, n, end) - {items[n]}
  {
  }

  /** If pending is contiguous, the queue of an account can only start at its virtual nonce or above. */
  lemma FirstReady(b: Books, preimage: Hash -> Tx, virtual: Nonces, chain: Chain, a: Address)
    requires Consistent(b, preimage) && a in b.queue && b.queue[a].items != map[]
    requires forall n :: n in b.queue[a].items ==> chain.Nonce(a) <= n
    ensures Contiguous(b.pending, virtual, chain) ==> VirtualNonce(virtual, chain, a) <= Least(b.queue[a].items)
  {
    var first := Least(b.queue[a].items);
    Disjoint(b, preimage, a, first);
    assert Contiguous(b.pending, virtual, chain) ==> ContiguousAt(b.pending, virtual, chain, a);
    assert Taken(b.queue, a, first);
  }

  lemma ExtendContiguous(was: Lists, now: Lists, virtual: Nonces, raised: Nonces, chain: Chain, a: Address, n: nat)
    requires forall x, k: nat :: Taken(now, x, k) <==> Taken(was, x, k) || (x == a && k == n)
    requires raised == virtual[a := n + 1]
    ensures Contiguous(was, virtual, chain) && VirtualNonce(virtual, chain, a) == n ==> Contiguous(now, raised, chain)
  {
    if Contiguous(was, virtual, chain) && VirtualNonce(virtual, chain, a) == n {
      forall x ensures ContiguousAt(now, raised, chain, x) {
        assert ContiguousAt(was, virtual, chain, x);
      }
    }
  }

  /** The lookup without some of its transactions. */
  function Without(all: Lookup, txs: set<Tx>): Lookup {
    map h | h in all && all[h] !in txs :: all[h]
  }

  lemma WithoutOne(was: Lookup, gone: set<Tx>, now: Lookup, tx: Tx)
    requires now == Without(was, gone) && Known(now, tx) && forall h :: h in now ==> now[h].hash == h
    ensures now - {tx.hash} == Without(was, gone + {tx})
  {
  }

  /** Whatever left the lookup was sent by this account. */
  ghost predicate LostOfOne(a: Address, was: Lookup, now: Lookup) {
    Fewer(was, now) && forall h :: h in was && h !in now ==> was[h].sender == a
  }

  /** Whatever left the lookup was sent by a remote account. */
  ghost predicate LostRemote(locals: set<Address>, was: Lookup, now: Lookup) {
    Fewer(was, now) && forall h :: h in was && h !in now ==> was[h].sender !in locals
  }

  /** Whatever left the lookup could not be paid for or was sent by a remote account. */
  ghost predicate LostFairly(chain: Chain, maxGas: nat, locals: set<Address>, was: Lookup, now: Lookup) {
    && Fewer(was, now)
    && forall h :: h in was && h !in now ==> was[h].sender !in locals || !PayableTx(chain, maxGas, was[h])
  }

  /** Stands in for the transaction: the same one, or one that outbid it at its nonce, and payable. */
  ghost predicate Heir(chain: Chain, maxGas: nat, heir: Tx, tx: Tx) {
    && PayableTx(chain, maxGas, heir)
    && heir.sender == tx.sender && heir.nonce == tx.nonce
    && (heir == tx || heir.price > tx.price)
  }

  /** The transaction, or one that outbid it, is in the lookup and payable. */
  ghost predicate Stands(chain: Chain, maxGas: nat, all: Lookup, tx: Tx) {
    exists h :: h in all && Heir(chain, maxGas, all[h], tx)
  }

  /** No payable transaction of a local account was lost, except to one that outbid it at its nonce. */
  ghost predicate LocalsKept(chain: Chain, maxGas: nat, locals: set<Address>, was: Lookup, now: Lookup) {
    forall tx: Tx {:trigger Stands(chain, maxGas, now, tx)} ::
      tx.sender in locals && Stands(chain, maxGas, was, tx) ==> Stands(chain, maxGas, now, tx)
  }

  lemma FairlyKept(chain: Chain, maxGas: nat, locals: set<Address>, was: Lookup, now: Lookup)
    requires LostFairly(chain, maxGas, locals, was, now)
    ensures LocalsKept(chain, maxGas, locals, was, now)
    ensures forall tx :: Known(was, tx) && tx.sender in locals && PayableTx(chain, maxGas, tx) ==> Known(now, tx)
  {
    forall tx: Tx | tx.sender in locals && Stands(chain, maxGas, was, tx) ensures Stands(chain, maxGas, now, tx) {
      var h :| h in was && Heir(chain, maxGas, was[h], tx);
      assert h in now;
    }
  }

  lemma RemoteKept(b: Books, preimage: Hash -> Tx, chain: Chain, maxGas: nat, locals: set<Address>, now: Lookup)
    requires Consistent(b, preimage) && Fewer(b.all, now) && CheapestGone(b.all, now, locals)
    ensures LocalsKept(chain, maxGas, locals, b.all, now)
  {
    assert LostFairly(chain, maxGas, locals, b.all, now);
    FairlyKept(chain, maxGas, locals, b.all, now);
  }

  /** A new transaction that takes a slot of one of the lists outbids whatever it pushes out. */
  lemma Outbid(b: Books, preimage: Hash -> Tx, m: Lists, chain: Chain, maxGas: nat, locals: set<Address>, tx: Tx,
               bump: nat)
    requires Consistent(b, preimage) && b.limbo == {} && (m == b.pending || m == b.queue)
    requires PayableTx(chain, maxGas, tx) && tx.hash !in b.all
    requires Taken(m, tx.sender, tx.nonce) ==> Outbids(m[tx.sender].items[tx.nonce], tx, bump)
    ensures var now := Superseded(b.all, m, tx)[tx.hash := tx];
            && LocalsKept(chain, maxGas, locals, b.all, now) && OnlyAdded(b.all, now, {tx})
            && (PayableAll(chain, maxGas, b.all) ==> PayableAll(chain, maxGas, now))
  {
    var now := Superseded(b.all, m, tx)[tx.hash := tx];
    EntryPlaced(b, preimage, tx.sender, tx.nonce, tx);
    forall u | Stands(chain, maxGas, b.all, u) ensures Stands(chain, maxGas, now, u) {
      var h :| h in b.all && Heir(chain, maxGas, b.all[h], u);
      if h in now {
        assert now[h] == b.all[h];
      } else {
        assert Heir(chain, maxGas, now[tx.hash], u);
      }
    }
  }

  /** The accounts a new transaction leaves with something to promote. */
  function Unsettled(tx: Tx, added: bool): set<Address> {
    if added then {tx.sender} else {}
  }

  lemma JoinedQuiet(was: Lists, now: Lists, virtual: Nonces, chain: Chain, tx: Tx, replaced: bool, ok: bool)
    requires if ok then now == was[tx.sender := Insert(ListOf(was, tx.sender, false), tx)] else now == was
    requires ok ==> replaced == Taken(was, tx.sender, tx.nonce)
    ensures StaysQuiet(was, virtual, now, virtual, chain, Unsettled(tx, ok && !replaced))
  {
    assert forall a, n: nat :: Taken(now, a, n) ==> Taken(was, a, n) || (a == tx.sender && n == tx.nonce);
  }

  /** Every accepted transaction of an account that was local from the start still stands. */
  ghost predicate AcceptedStand(chain: Chain, maxGas: nat, locals: set<Address>, all: Lookup, txs: seq<Tx>,
                                errs: seq<Option<Error>>)
  {
    && |errs| == |txs|
    && forall i {:trigger StandsIfAccepted(chain, maxGas, locals, all, txs[i], errs[i])} ::
         0 <= i < |txs| ==> StandsIfAccepted(chain, maxGas, locals, all, txs[i], errs[i])
  }

  ghost predicate StandsIfAccepted(chain: Chain, maxGas: nat, locals: set<Address>, all: Lookup, tx: Tx,
                                   err: Option<Error>) {
    err.None? ==> PayableTx(chain, maxGas, tx) && (tx.sender in locals ==> Stands(chain, maxGas, all, tx))
  }

  lemma StillKept(chain: Chain, maxGas: nat, locals: set<Address>, more: set<Address>, was: Lookup, mid: Lookup,
                  now: Lookup)
    requires locals <= more && LocalsKept(chain, maxGas, locals, was, mid) && LocalsKept(chain, maxGas, more, mid, now)
    ensures LocalsKept(chain, maxGas, locals, was, now)
  {
  }

  lemma StillStand(chain: Chain, maxGas: nat, locals: set<Address>, was: Lookup, now: Lookup, txs: seq<Tx>,
                   errs: seq<Option<Error>>)
    requires LocalsKept(chain, maxGas, locals, was, now) && AcceptedStand(chain, maxGas, locals, was, txs, errs)
    ensures AcceptedStand(chain, maxGas, locals, now, txs, errs)
  {
    forall i | 0 <= i < |txs| ensures StandsIfAccepted(chain, maxGas, locals, now, txs[i], errs[i]) {
      assert StandsIfAccepted(chain, maxGas, locals, was, txs[i], errs[i]);
    }
  }

  lemma OneAccepted(chain: Chain, maxGas: nat, locals: set<Address>, was: Lookup, now: Lookup, txs: seq<Tx>, i: nat,
                    errs: seq<Option<Error>>, err: Option<Error>)
    requires i < |txs| && LocalsKept(chain, maxGas, locals, was, now)
    requires AcceptedStand(chain, maxGas, locals, was, txs[..i], errs)
    requires err.None? ==> Known(now, txs[i]) && PayableTx(chain, maxGas, txs[i])
    ensures AcceptedStand(chain, maxGas, locals, now, txs[..i + 1], errs + [err])
  {
    StillStand(chain, maxGas, locals, was, now, txs[..i], errs);
    assert txs[..i + 1] == txs[..i] + [txs[i]];
    if err.None? {
      assert Heir(chain, maxGas, now[txs[i].hash], txs[i]);
    }
    forall j | 0 <= j < i + 1 ensures StandsIfAccepted(chain, maxGas, locals, now, txs[..i + 1][j], (errs + [err])[j]) {
      assert j < i ==> StandsIfAccepted(chain, maxGas, locals, now, txs[..i][j], errs[j]);
    }
  }

  /** Whatever left the lookup could not be paid for. */
  ghost predicate LostUnpayable(chain: Chain, maxGas: nat, was: Lookup, now: Lookup) {
    Fewer(was, now) && forall h :: h in was && h !in now ==> !PayableTx(chain, maxGas, was[h])
  }

  /** The transactions that are local or cost at least the price. */
  function Dear(all: Lookup, locals: set<Address>, price: nat): Lookup {
    map h | h in all && (IsLocal(all[h], locals) || price <= all[h].price) :: all[h]
  }

  lemma DearKept(b: Books, preimage: Hash -> Tx, chain: Chain, maxGas: nat, locals: set<Address>, price: nat)
    requires Consistent(b, preimage)
    ensures LocalsKept(chain, maxGas, locals, b.all, Dear(b.all, locals, price))
  {
    assert LostFairly(chain, maxGas, locals, b.all, Dear(b.all, locals, price));
    FairlyKept(chain, maxGas, locals, b.all, Dear(b.all, locals, price));
  }

  lemma PriceFilter(all: Lookup, drop: seq<Tx>, locals: set<Address>, price: nat)
    requires forall h :: h in all ==> all[h].hash == h
    requires forall tx :: tx in drop <==>
               tx.hash in all && all[tx.hash] == tx && !IsLocal(tx, locals) && tx.price < price
    ensures Lacking(all, drop) == Dear(all, locals, price)
  {
  }

  /** The price of discarded remote transactions is at most that of any remote one left. */
  ghost predicate CheapestGone(was: Lookup, now: Lookup, locals: set<Address>) {
    && (forall h :: h in was && h !in now ==> !IsLocal(was[h], locals))
    && forall h, k :: h in was && h !in now && k in now && !IsLocal(now[k], locals) ==> was[h].price <= now[k].price
  }

  lemma DiscardedCheapest(all: Lookup, drop: seq<Tx>, locals: set<Address>)
    requires forall h :: h in all ==> all[h].hash == h
    requires forall tx :: tx in drop ==> Remote(tx, all, locals)
    requires forall d, k :: d in drop && Remote(k, all, locals) && k !in drop ==> d.price <= k.price
    ensures CheapestGone(all, Lacking(all, drop), locals) && Fewer(all, Lacking(all, drop))
  {
    var now := Lacking(all, drop);
    forall h, k | h in all && h !in now && k in now && !IsLocal(now[k], locals) ensures all[h].price <= now[k].price {
      assert Remote(all[k], all, locals);
    }
  }

  function Unlisted(items: Items, txs: seq<Tx>): Items {
    map n | n in items && items[n] !in txs :: items[n]
  }

  lemma UnlistedStep(items: Items, txs: seq<Tx>, i: nat)
    requires KeyedByNonce(items) && i < |txs| && txs[i].nonce in items && items[txs[i].nonce] == txs[i]
    ensures Unlisted(items, txs[..i + 1]) == Unlisted(items, txs[..i]) - {txs[i].nonce}
  {
    assert txs[..i + 1] == txs[..i] + [txs[i]];
  }

  function Lacking(all: Lookup, drop: seq<Tx>): Lookup {
    map h | h in all && all[h] !in drop :: all[h]
  }

  lemma LackingStep(all: Lookup, drop: seq<Tx>, i: nat)
    requires i < |drop| && Known(all, drop[i]) && forall h :: h in all ==> all[h].hash == h
    ensures Lacking(all, drop[..i + 1]) == Lacking(all, drop[..i]) - {drop[i].hash}
  {
    assert drop[..i + 1] == drop[..i] + [drop[i]];
  }

  /** Some transaction of the lookup has this sender and nonce. */
  ghost predicate SlotTaken(all: Lookup, a: Address, n: nat) {
    exists h :: h in all && all[h].sender == a && all[h].nonce == n
  }

  /** Every slot that is taken was taken before. */
  ghost predicate NoNewSlot(was: Lookup, now: Lookup) {
    forall a, n {:trigger SlotTaken(now, a, n)} :: SlotTaken(now, a, n) ==> SlotTaken(was, a, n)
  }

  /** No transaction of the batch was accepted for a slot that was free, and no new slot is taken. */
  ghost predicate NoneGained(was: Lookup, now: Lookup, txs: seq<Tx>, errs: seq<Option<Error>>) {
    && |errs| == |txs| && |now| <= |was| && NoNewSlot(was, now)
    && forall i :: 0 <= i < |txs| && errs[i].None? ==> SlotTaken(was, txs[i].sender, txs[i].nonce)
  }

  lemma StillNoneGained(was: Lookup, mid: Lookup, now: Lookup, txs: seq<Tx>, i: nat, errs: seq<Option<Error>>,
                        err: Option<Error>)
    requires i < |txs| && NoneGained(was, mid, txs[..i], errs) && |now| <= |mid| && NoNewSlot(mid, now)
    requires err.None? ==> SlotTaken(mid, txs[i].sender, txs[i].nonce)
    ensures NoneGained(was, now, txs[..i + 1], errs + [err])
  {
    forall a, n: nat | SlotTaken(now, a, n) ensures SlotTaken(was, a, n) {
      assert SlotTaken(mid, a, n);
    }
    assert txs[..i + 1] == txs[..i] + [txs[i]];
  }

  ghost predicate AllLocal(all: Lookup, locals: set<Address>) {
    forall h :: h in all ==> IsLocal(all[h], locals)
  }

  ghost predicate OthersLocal(all: Lookup, tx: Tx, locals: set<Address>) {
    forall h :: h in all && all[h] != tx ==> IsLocal(all[h], locals)
  }

  /** A transaction that does not get a slot of its own, but at most that of another one, takes no new slot. */
  lemma SlotsAfter(was: Lookup, mid: Books, preimage: Hash -> Tx, now: Lookup, tx: Tx, ok: bool, replaced: bool)
    requires Consistent(mid, preimage) && mid.limbo == {} && Fewer(was, mid.all) && tx.hash !in mid.all
    requires if ok then now == Superseded(Superseded(mid.all, mid.pending, tx), mid.queue, tx)[tx.hash := tx]
             else now == mid.all && !replaced
    requires ok ==> replaced == (Taken(mid.pending, tx.sender, tx.nonce) || Taken(mid.queue, tx.sender, tx.nonce))
    ensures |now| <= |mid.all| + 1 && |mid.all| <= |was|
    ensures !ok || replaced ==> |now| <= |was| && NoNewSlot(was, now)
    ensures ok && replaced ==> SlotTaken(was, tx.sender, tx.nonce)
  {
    SmallerSet(mid.all.Keys, was.Keys);
    FewerSlots(was, mid.all);
    if ok && replaced {
      var m := if Taken(mid.pending, tx.sender, tx.nonce) then mid.pending else mid.queue;
      Disjoint(mid, preimage, tx.sender, tx.nonce);
      SlotReplaced(mid, preimage, m, tx);
      forall a, n: nat | SlotTaken(now, a, n) ensures SlotTaken(was, a, n) {
        assert SlotTaken(mid.all, a, n);
      }
      assert SlotTaken(mid.all, tx.sender, tx.nonce);
    } else if ok {
      assert now.Keys == mid.all.Keys + {tx.hash};
    }
  }

  lemma FewerSlots(was: Lookup, now: Lookup)
    requires Fewer(was, now)
    ensures NoNewSlot(was, now)
  {
    forall a, n: nat | SlotTaken(now, a, n) ensures SlotTaken(was, a, n) {
      var h :| h in now && now[h].sender == a && now[h].nonce == n;
      assert h in was;
    }
  }

  lemma SlotReplaced(b: Books, preimage: Hash -> Tx, m: Lists, tx: Tx)
    requires Consistent(b, preimage) && b.limbo == {} && (m == b.pending || m == b.queue) && tx.hash !in b.all
    requires Taken(m, tx.sender, tx.nonce)
    ensures var now := Superseded(b.all, m, tx)[tx.hash := tx];
            SlotTaken(b.all, tx.sender, tx.nonce) && |now| == |b.all| && NoNewSlot(b.all, now)
  {
    EntryPlaced(b, preimage, tx.sender, tx.nonce, tx);
    var h := m[tx.sender].items[tx.nonce].hash;
    assert h in b.all && b.all[h].sender == tx.sender && b.all[h].nonce == tx.nonce;
    SlotSwapped(b.all, h, tx);
  }

  lemma SlotSwapped(all: Lookup, h: Hash, tx: Tx)
    requires h in all && all[h].sender == tx.sender && all[h].nonce == tx.nonce && tx.hash !in all
    ensures var now := (all - {h})[tx.hash := tx]; |now| == |all| && NoNewSlot(all, now)
  {
    var now := (all - {h})[tx.hash := tx];
    assert now.Keys == all.Keys - {h} + {tx.hash};
    forall a, n: nat | SlotTaken(now, a, n) ensures SlotTaken(all, a, n) {
      var g :| g in now && now[g].sender == a && now[g].nonce == n;
      assert all[if g == tx.hash then h else g].sender == a;
    }
  }

  lemma RoomUsed(mid: Lookup, now: Lookup, tx: Tx, locals: set<Address>, capacity: nat)
    requires OnlyAdded(mid, now, {tx}) && |now| <= |mid| + 1
    ensures |mid| < capacity || AllLocal(mid, locals) ==> |now| <= capacity || OthersLocal(now, tx, locals)
  {
  }

  /** Unless an entry of the heap is there twice, discarding leaves room for one more or no remote transaction. */
  lemma RoomMade(items: seq<Tx>, all: Lookup, drop: seq<Tx>, locals: set<Address>, capacity: nat)
    requires |all| >= capacity && forall h :: h in all ==> all[h].hash == h
    requires forall tx :: tx in drop ==> Remote(tx, all, locals)
    requires multiset(drop) <= multiset(items)
    requires |drop| < |all| - (capacity - 1) ==> forall k :: Remote(k, all, locals) ==> k in drop
    ensures NoTwins(items, all, locals) ==> |Lacking(all, drop)| < capacity || AllLocal(Lacking(all, drop), locals)
  {
    if NoTwins(items, all, locals) {
      DistinctDrop(drop, items, all, locals);
      LackingSize(all, drop);
      if |drop| < |all| - (capacity - 1) {
        forall h | h in Lacking(all, drop) ensures IsLocal(all[h], locals) {
          var tx := all[h];
          assert Remote(tx, all, locals) <==> !IsLocal(tx, locals);
        }
      }
    }
  }

  lemma LackingSize(all: Lookup, drop: seq<Tx>)
    requires (forall h :: h in all ==> all[h].hash == h) && forall tx :: tx in drop ==> Known(all, tx)
    ensures |Lacking(all, drop)| == |all| - |set tx | tx in drop|
  {
    var gone := set tx | tx in drop;
    var hashes := set tx | tx in drop :: tx.hash;
    SameSize(gone, hashes);
    assert Lacking(all, drop).Keys == all.Keys - hashes;
    assert hashes <= all.Keys;
  }

  lemma {:induction false} SameSize(txs: set<Tx>, hashes: set<Hash>)
    requires hashes == set tx | tx in txs :: tx.hash
    requires forall a, b :: a in txs && b in txs && a.hash == b.hash ==> a == b
    ensures |hashes| == |txs|
    decreases |txs|
  {
    if txs != {} {
      var tx :| tx in txs;
      SameSize(txs - {tx}, hashes - {tx.hash});
    } else {
      assert hashes == {};
    }
  }

  /** The lists with one account's cut at a nonce, and without the account if nothing is left. */
  function CutBefore(m: Lists, a: Address, n: nat): Lists
    requires a in m
  {
    var kept := m[a].(items := Below(m[a].items, n));
    if kept.items == map[] then m - {a} else m[a := kept]
  }

  /** The transactions of an account beyond a nonce. */
  function Later(m: Lists, a: Address, n: nat): set<Tx>
    requires a in m
  {
    AtLeast(m[a].items, n + 1).Values
  }

  lemma CutShorter(m: Lists, a: Address, n: nat)
    requires a in m
    ensures NoLonger(m, CutBefore(m, a, n))
  {
    SmallerSet(Below(m[a].items, n).Keys, m[a].items.Keys);
  }

  lemma SmallerSet(s: set<nat>, t: set<nat>)
    requires s <= t
    ensures |s| <= |t|
  {
    assert t == s + (t - s);
  }

  /** The queue has gained at most one transaction, for the sender of this one. */
  ghost predicate GrownBy(was: Lists, now: Lists, tx: Tx) {
    && Total(now) <= Total(was) + 1
    && forall a {:trigger Len(now, a)} :: Len(now, a) <= Len(was, a) + if a == tx.sender then 1 else 0
  }

  lemma JoinedGrows(was: Lists, now: Lists, tx: Tx, ok: bool)
    requires now == if ok then was[tx.sender := Insert(ListOf(was, tx.sender, false), tx)] else was
    ensures GrownBy(was, now, tx)
  {
    var list := ListOf(was, tx.sender, false);
    assert Insert(list, tx).items.Keys == list.items.Keys + {tx.nonce};
    TotalUpdate(was, tx.sender, Insert(list, tx));
  }

  /** The list a new transaction competes in. */
  ghost function SlotList(pending: Lists, queue: Lists, tx: Tx): List {
    if Taken(pending, tx.sender, tx.nonce) then pending[tx.sender] else ListOf(queue, tx.sender, false)
  }

  /** The one transaction in a slot is the one its sender's lists have there. */
  lemma SlotHolder(b: Books, preimage: Hash -> Tx, tx: Tx, bump: nat)
    requires Consistent(b, preimage) && b.limbo == {} && tx.hash !in b.all
    ensures Admits(b.all, tx, bump) <==> Accepts(SlotList(b.pending, b.queue, tx), tx, bump)
    ensures Seated(b.all, tx) == Superseded(Superseded(b.all, b.pending, tx), b.queue, tx)[tx.hash := tx]
  {
    Disjoint(b, preimage, tx.sender, tx.nonce);
    EntryPlaced(b, preimage, tx.sender, tx.nonce, tx);
    if Taken(b.pending, tx.sender, tx.nonce) {
      HolderIs(b, preimage, b.pending[tx.sender].items[tx.nonce], tx, bump);
    } else if Taken(b.queue, tx.sender, tx.nonce) {
      HolderIs(b, preimage, b.queue[tx.sender].items[tx.nonce], tx, bump);
    } else {
      forall h | h in b.all ensures !SameSlot(b.all[h], tx) {
        assert Placed(b, b.all[h]);
      }
    }
  }

  lemma HolderIs(b: Books, preimage: Hash -> Tx, u: Tx, tx: Tx, bump: nat)
    requires Consistent(b, preimage) && Known(b.all, u) && SameSlot(u, tx) && tx.hash !in b.all
    ensures Admits(b.all, tx, bump) <==> Outbids(u, tx, bump)
    ensures Seated(b.all, tx) == (b.all - {u.hash})[tx.hash := tx]
  {
    OutbidsRaises(u, tx, bump);
    forall h | h in b.all ensures SameSlot(b.all[h], tx) <==> h == u.hash {
    }
  }

  lemma LackingAtMost(all: Lookup, drop: seq<Tx>)
    requires forall h :: h in all ==> all[h].hash == h
    ensures |Lacking(all, drop)| + |drop| >= |all|
    decreases |drop|
  {
    if drop == [] {
      assert Lacking(all, drop) == all;
    } else {
      var rest, last := drop[..|drop| - 1], drop[|drop| - 1];
      LackingAtMost(all, rest);
      assert drop == rest + [last];
      assert Lacking(all, drop).Keys >= Lacking(all, rest).Keys - {last.hash};
      SmallerSet(Lacking(all, rest).Keys - {last.hash}, Lacking(all, drop).Keys);
    }
  }

  /** A pool that the transaction is not too cheap for has room, or has made some by letting remote ones go. */
  ghost predicate RoomIn(was: Lookup, now: Lookup, locals: set<Address>, tx: Tx, local: bool, capacity: nat) {
    && !TooCheap(was, locals, tx, local, capacity) && Fewer(was, now)
    && (if |was| < capacity then now == was else |now| + 1 >= capacity)
    && forall h :: h in was && h !in now ==> !IsLocal(was[h], locals)
  }

  /**
   What every step of adding transactions keeps: payability, contiguity, the quiet of all accounts but
   the given ones and what local senders could pay for; and no pending list gets longer.
   */
  ghost predicate Goes(was: Snapshot, now: Snapshot, chain: Chain, maxGas: nat, but: set<Address>) {
    && (PayableAll(chain, maxGas, was.all) ==> PayableAll(chain, maxGas, now.all))
    && NoLonger(was.pending, now.pending) && Keeps(was.pending, was.virtual, now.pending, now.virtual, chain)
    && StaysQuiet(was.queue, was.virtual, now.queue, now.virtual, chain, but)
    && LocalsKept(chain, maxGas, was.locals, was.all, now.all) && was.locals <= now.locals
  }

  lemma NothingNew(all: Lookup, chain: Chain, maxGas: nat, locals: set<Address>, tx: Tx)
    ensures OnlyAdded(all, all, {tx}) && LocalsKept(chain, maxGas, locals, all, all)
  {
  }

  lemma Supersedes(all: Lookup, m: Lists, tx: Tx, chain: Chain, maxGas: nat)
    ensures var now := Superseded(all, m, tx)[tx.hash := tx];
            && OnlyAdded(all, now, {tx})
            && (PayableAll(chain, maxGas, all) && PayableTx(chain, maxGas, tx) ==> PayableAll(chain, maxGas, now))
  {
  }

  lemma AddedToFewer(was: Lookup, mid: Lookup, now: Lookup, tx: Tx)
    requires Fewer(was, mid) && OnlyAdded(mid, now, {tx})
    ensures OnlyAdded(was, now, {tx})
  {
  }

  lemma GoesOn(was: Snapshot, mid: Snapshot, now: Snapshot, chain: Chain, maxGas: nat, but: set<Address>)
    requires Goes(was, mid, chain, maxGas, {}) && Goes(mid, now, chain, maxGas, but)
    ensures Goes(was, now, chain, maxGas, but)
  {
  }

  /** Making room and taking the slot together decide as they should. */
  lemma RoomAndSlot(terms: Terms, was: Lookup, mid: Lookup, now: Lookup, locals: set<Address>, tx: Tx, local: bool,
                    ok: bool)
    requires tx.hash !in was && RoomIn(was, mid, locals, tx, local, terms.capacity) && OnePerNonce(mid)
    requires ok <==> Admits(mid, tx, terms.bump)
    requires now == if ok then Seated(mid, tx) else mid
    ensures Decided(terms, was, now, locals, tx, local, if ok then None else Some(ReplaceUnderpriced))
  {
    if ok {
      SeatedSize(mid, tx);
    }
    assert Admits(was, tx, terms.bump) ==> Admits(mid, tx, terms.bump);
  }

  lemma SeatedSize(all: Lookup, tx: Tx)
    requires OnePerNonce(all) && tx.hash !in all
    ensures |Seated(all, tx)| >= |all|
  {
    if h :| h in all && SameSlot(all[h], tx) {
      SeatTaken(all, h, tx);
      SlotSwapped(all, h, tx);
    } else {
      SmallerSet(all.Keys, Seated(all, tx).Keys);
    }
  }

  lemma SeatTaken(all: Lookup, h: Hash, tx: Tx)
    requires OnePerNonce(all) && h in all && SameSlot(all[h], tx)
    ensures Seated(all, tx) == (all - {h})[tx.hash := tx]
  {
    forall g | g in all ensures SameSlot(all[g], tx) <==> g == h {
    }
  }

  lemma SameLength(m: Lists, tx: Tx)
    ensures Taken(m, tx.sender, tx.nonce) ==> NoLonger(m, m[tx.sender := Insert(m[tx.sender], tx)])
  {
    if Taken(m, tx.sender, tx.nonce) {
      assert Insert(m[tx.sender], tx).items.Keys == m[tx.sender].items.Keys;
    }
  }

  lemma SameOccupancy(was: Lists, now: Lists, virtual: Nonces, chain: Chain)
    requires forall a, n: nat :: Taken(now, a, n) <==> Taken(was, a, n)
    ensures Contiguous(was, virtual, chain) ==> Contiguous(now, virtual, chain)
  {
    if Contiguous(was, virtual, chain) {
      forall a ensures ContiguousAt(now, virtual, chain, a) { assert ContiguousAt(was, virtual, chain, a); }
    }
  }

  /** Cutting an account's pending list at a nonce keeps it contiguous once the virtual nonce is lowered to it. */
  lemma CutContiguous(was: Lists, now: Lists, virtual: Nonces, lowered: Nonces, chain: Chain, a: Address, cut: nat)
    requires Taken(was, a, cut)
    requires var kept := was[a].(items := Below(was[a].items, cut));
             now == was[a := kept] || (kept.items == map[] && now == was - {a})
    requires lowered == if VirtualNonce(virtual, chain, a) > cut then virtual[a := cut] else virtual
    ensures Contiguous(was, virtual, chain) ==> Contiguous(now, lowered, chain)
  {
    assert forall x, n: nat :: Taken(now, x, n) <==> Taken(was, x, n) && !(x == a && cut <= n) by {
      assert forall n :: n in was[a].items && n < cut ==> n in Below(was[a].items, cut);
    }
    if Contiguous(was, virtual, chain) {
      assert ContiguousAt(was, virtual, chain, a);
      forall x ensures ContiguousAt(now, lowered, chain, x) {
        assert ContiguousAt(was, virtual, chain, x);
      }
    }
  }

  /** The queue without one nonce of an account, and without the account if nothing is left. */
  function Dequeued(m: Lists, a: Address, n: nat): Lists
    requires a in m
  {
    var kept := m[a].(items := m[a].items - {n});
    if kept.items == map[] then m - {a} else m[a := kept]
  }

  lemma DequeuedConsistent(b: Books, preimage: Hash -> Tx, tx: Tx)
    requires Consistent(b, preimage) && b.limbo == {} && Has(b.queue, tx)
    ensures Consistent(b.(queue := Dequeued(b.queue, tx.sender, tx.nonce), all := b.all - {tx.hash}), preimage)
  {
    var list := b.queue[tx.sender];
    var kept := list.(items := list.items - {tx.nonce});
    assert ListOk(tx.sender, list, false);
    assert Removed(list, kept) == {tx};
    var c := TakeFromQueue(b, preimage, tx.sender, kept);
    ForgetOne(c, preimage, tx);
    c := c.(all := c.all - {tx.hash}, limbo := c.limbo - {tx});
    assert c.limbo == {};
    if kept.items == map[] {
      DeleteQueue(c, preimage, tx.sender);
      assert b.queue - {tx.sender} == c.queue - {tx.sender};
    }
  }

  /** Removing a pending transaction leaves the later ones of its list in transit. */
  lemma CutPending(b: Books, preimage: Hash -> Tx, tx: Tx) returns (r: Books)
    requires Consistent(b, preimage) && b.limbo == {} && Has(b.pending, tx)
    ensures r == Books(CutBefore(b.pending, tx.sender, tx.nonce), b.queue, b.all - {tx.hash},
                       Later(b.pending, tx.sender, tx.nonce))
    ensures Consistent(r, preimage)
    ensures forall u :: u in r.limbo ==> u.sender == tx.sender && u.nonce > tx.nonce
  {
    var list := b.pending[tx.sender];
    var kept := list.(items := Below(list.items, tx.nonce));
    var invalids := Later(b.pending, tx.sender, tx.nonce);
    assert ListOk(tx.sender, list, true);
    forall n | n in list.items && n > tx.nonce ensures list.items[n] in invalids {
      assert n in AtLeast(list.items, tx.nonce + 1);
    }
    assert Removed(list, kept) == invalids + {tx};
    r := TakeFromPending(b, preimage, tx.sender, kept);
    ForgetOne(r, preimage, tx);
    r := r.(all := r.all - {tx.hash}, limbo := r.limbo - {tx});
    assert r.limbo == invalids;
    if kept.items == map[] {
      DeletePending(r, preimage, tx.sender);
      assert b.pending - {tx.sender} == r.pending - {tx.sender};
      r := r.(pending := r.pending - {tx.sender});
    }
  }
}
