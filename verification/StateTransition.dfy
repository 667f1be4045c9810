/**
 Applying a message (core/state_transition.go) and a block's transactions
 (core/state_processor.go), with the gas pool they share (core/gaspool.go).  The virtual machine is
 any function that gives back at most the gas it is given.
 */
module StateTransition {
  import opened Types
  import opened Ledger
  import IntrinsicGas

  newtype uint64 = x: int | 0 <= x <= MAX_UINT64

  datatype Message = Message(
    from: Address,
    to: Option<Address>,
    price: nat,
    gas: uint64,
    nonce: nat,
    checkNonce: bool,
    data: seq<nat>)

  /** `destroyed` are the accounts that have self-destructed; they stay until the state is finalised. */
  datatype World = World(balances: Balances, nonces: map<Address, nat>, refund: uint64, destroyed: set<Address>)

  datatype VmError = NoVmError | VmInsufficientBalance | OtherVmError

  datatype Outcome = Outcome(world: World, gasLeft: uint64, err: VmError)

  type Evm = (World, Message, uint64) -> Outcome

  ghost predicate EvmOk(evm: Evm) {
    forall w: World, m: Message, g: uint64 :: evm(w, m, g).gasLeft <= g
  }

  /** The virtual machine only moves balances between accounts. */
  ghost predicate Conserving(evm: Evm) {
    forall w: World, m: Message, g: uint64 :: Wealth(evm(w, m, g).world.balances) == Wealth(w.balances)
  }

  /** No nonce is lower in the second world. */
  ghost predicate CountsUp(w: World, v: World) {
    forall a {:trigger NonceOf(v, a)} :: NonceOf(w, a) <= NonceOf(v, a)
  }

  /** The virtual machine lowers no nonce, and a creation that can be paid for takes its sender's. */
  ghost predicate Counting(evm: Evm) {
    forall w: World, m: Message, g: uint64 {:trigger Counts(w, m, evm(w, m, g))} :: Counts(w, m, evm(w, m, g))
  }

  ghost predicate Counts(w: World, m: Message, out: Outcome) {
    && CountsUp(w, out.world)
    && (m.to.None? && out.err != VmInsufficientBalance ==> NonceOf(w, m.from) < NonceOf(out.world, m.from))
  }

  datatype TxError =
    | NonceTooHigh
    | NonceTooLow
    | InsufficientBalanceForGas
    | GasLimitReached
    | OutOfGas
    | InsufficientBalance

  class GasPool {
    var gas: uint64

    constructor (amount: uint64)
      ensures gas == amount
    {
      gas := 0;
      new;
      AddGas(amount);
    }

    /** Panics above 64 bits, which callers rule out. */
    method AddGas(amount: uint64)
      requires gas as int + amount as int <= MAX_UINT64
      modifies this
      ensures gas == old(gas) + amount
    {
      gas := gas + amount;
    }

    method SubGas(amount: uint64) returns (err: Option<TxError>)
      modifies this
      ensures err == if amount <= old(gas) then None else Some(GasLimitReached)
      ensures gas == if err == None then old(gas) - amount else old(gas)
    {
      if gas < amount { return Some(GasLimitReached); }
      gas := gas - amount;
      return None;
    }
  }

  class StateDB {
    var world: World

    constructor (world: World)
      ensures this.world == world
    {
      this.world := world;
    }

    method AddBalance(a: Address, amount: nat)
      modifies this
      ensures world == old(world).(balances := Credit(old(world).balances, a, amount))
    {
      world := world.(balances := world.balances[a := BalanceOf(world.balances, a) + amount]);
    }

    method SubBalance(a: Address, amount: nat)
      requires amount <= BalanceOf(world.balances, a)
      modifies this
      ensures world == old(world).(balances := Debit(old(world).balances, a, amount))
    {
      world := world.(balances := world.balances[a := BalanceOf(world.balances, a) - amount]);
    }

    /** Deletes the destroyed accounts with all they hold, and clears the refund counter. */
    method Finalise()
      modifies this
      ensures world == Finalised(old(world))
    {
      var balances, nonces, todo := world.balances, world.nonces, world.destroyed;
      while todo != {}
        invariant todo <= world.destroyed
        invariant balances == world.balances - (world.destroyed - todo)
        invariant nonces == world.nonces - (world.destroyed - todo)
        decreases todo
      {
        var a :| a in todo;
        balances, nonces, todo := balances - {a}, nonces - {a}, todo - {a};
      }
      assert world.destroyed - todo == world.destroyed;
      world := World(balances, nonces, 0, {});
    }
  }

  function Finalised(w: World): World {
    World(w.balances - w.destroyed, w.nonces - w.destroyed, 0, {})
  }

  function NonceOf(w: World, a: Address): nat {
    if a in w.nonces then w.nonces[a] else 0
  }

  /** What the message's gas costs. */
  function Price(msg: Message, gas: uint64): nat {
    gas as int * msg.price
  }

  /** Whether a message is let in, and if not why. */
  function Admission(w: World, msg: Message, pool: uint64): Option<TxError> {
    var nonce := NonceOf(w, msg.from);
    if msg.checkNonce && nonce < msg.nonce then Some(NonceTooHigh)
    else if msg.checkNonce && nonce > msg.nonce then Some(NonceTooLow)
    else if BalanceOf(w.balances, msg.from) < Price(msg, msg.gas) then Some(InsufficientBalanceForGas)
    else if pool < msg.gas then Some(GasLimitReached)
    else None
  }

  ghost function Intrinsic(msg: Message, homestead: bool): nat {
    IntrinsicGas.NonZeroBound(msg.data);
    IntrinsicGas.Charge(msg.data, msg.to.None?, homestead)
  }

  /** The world the virtual machine starts in: all the gas is paid for and a call's nonce is taken. */
  ghost function Prepared(w: World, msg: Message): World
    requires Price(msg, msg.gas) <= BalanceOf(w.balances, msg.from)
  {
    Counted(w.(balances := Debit(w.balances, msg.from, Price(msg, msg.gas))), msg)
  }

  ghost function Counted(w: World, msg: Message): World {
    if msg.to.None? then w else w.(nonces := w.nonces[msg.from := NonceOf(w, msg.from) + 1])
  }

  ghost function Executed(evm: Evm, w: World, msg: Message, homestead: bool): Outcome
    requires Price(msg, msg.gas) <= BalanceOf(w.balances, msg.from) && Intrinsic(msg, homestead) <= msg.gas as int
  {
    evm(Prepared(w, msg), msg, (msg.gas as int - Intrinsic(msg, homestead)) as uint64)
  }

  /** Why a message fails, if it does: it is not let in, cannot pay its intrinsic gas, or cannot pay its value. */
  ghost function Verdict(evm: Evm, w: World, msg: Message, pool: uint64, homestead: bool): Option<TxError> {
    var admission := Admission(w, msg, pool);
    if admission.Some? then admission
    else if Intrinsic(msg, homestead) > msg.gas as int then Some(OutOfGas)
    else if Executed(evm, w, msg, homestead).err == VmInsufficientBalance then Some(InsufficientBalance)
    else None
  }

  /** The refund counter, up to half of the gas used. */
  function Refund(used: uint64, counter: uint64): uint64 {
    if used / 2 > counter then counter else used / 2
  }

  /** No more than the counter and than half of what was used, and no less than either allows. */
  ghost predicate LargestRefund(used: uint64, counter: uint64, r: uint64) {
    && r <= counter && 2 * r as int <= used as int
    && (r == counter || 2 * (r as int + 1) > used as int)
  }

  function Used(msg: Message, out: Outcome): uint64
    requires out.gasLeft <= msg.gas
  {
    msg.gas - out.gasLeft - Refund(msg.gas - out.gasLeft, out.world.refund)
  }

  /** The sender gets back what was not used, the coinbase gets the rest. */
  function Settled(out: Outcome, msg: Message, coinbase: Address, used: uint64): Balances
    requires used <= msg.gas
  {
    Credit(Credit(out.world.balances, msg.from, Price(msg, msg.gas - used)), coinbase, Price(msg, used))
  }

  /** After its run a message pays for the gas used, and gets back what it paid for the rest. */
  ghost predicate Paid(was: Balances, now: Balances, msg: Message, coinbase: Address, used: uint64)
    requires used <= msg.gas
  {
    forall a {:trigger BalanceOf(now, a)} ::
      BalanceOf(now, a) == BalanceOf(was, a)
                           + (if a == msg.from then (msg.gas - used) as int * msg.price else 0)
                           + (if a == coinbase then used as int * msg.price else 0)
  }

  /** Before its run a message pays for all its gas, and a call takes its sender's nonce. */
  ghost predicate BoughtGas(was: World, now: World, msg: Message) {
    && (forall a {:trigger BalanceOf(now.balances, a)} ::
          BalanceOf(now.balances, a) == BalanceOf(was.balances, a)
                                        - if a == msg.from then msg.gas as int * msg.price else 0)
    && forall a {:trigger NonceOf(now, a)} ::
         NonceOf(now, a) == NonceOf(was, a) + if a == msg.from && msg.to.Some? then 1 else 0
  }

  class Transition {
    const gp: GasPool
    const msg: Message
    const state: StateDB
    const coinbase: Address
    const homestead: bool
    const evm: Evm
    var gas: uint64
    var initialGas: uint64

    constructor (evm: Evm, msg: Message, gp: GasPool, state: StateDB, coinbase: Address, homestead: bool)
      ensures this.evm == evm && this.msg == msg && this.gp == gp && this.state == state
      ensures this.coinbase == coinbase && this.homestead == homestead && gas == 0 && initialGas == 0
    {
      this.evm, this.msg, this.gp, this.state := evm, msg, gp, state;
      this.coinbase, this.homestead := coinbase, homestead;
      gas, initialGas := 0, 0;
    }

    /** Takes the message's gas out of the pool and its price out of the sender's balance. */
    method BuyGas() returns (err: Option<TxError>)
      requires gas == 0
      modifies this, gp, state
      ensures err == if BalanceOf(old(state.world.balances), msg.from) < Price(msg, msg.gas)
                then Some(InsufficientBalanceForGas)
                     else if old(gp.gas) < msg.gas then Some(GasLimitReached) else None
      ensures err.Some? ==> state.world == old(state.world) && gp.gas == old(gp.gas)
      ensures err.None? ==> gas == initialGas == msg.gas && gp.gas == old(gp.gas) - msg.gas
      ensures err.None? ==>
                var paid := Debit(old(state.world).balances, msg.from, Price(msg, msg.gas));
                state.world == old(state.world).(balances := paid)
    {
      var mgval := Price(msg, msg.gas);
      if BalanceOf(state.world.balances, msg.from) < mgval { return Some(InsufficientBalanceForGas); }
      err := gp.SubGas(msg.gas);
      if err.Some? { return; }
      gas := gas + msg.gas;
      initialGas := msg.gas;
      state.SubBalance(msg.from, mgval);
    }

    method PreCheck() returns (err: Option<TxError>)
      requires gas == 0
      modifies this, gp, state
      ensures err == Admission(old(state.world), msg, old(gp.gas))
      ensures err.Some? ==> state.world == old(state.world) && gp.gas == old(gp.gas)
      ensures err.None? ==> gas == initialGas == msg.gas && gp.gas == old(gp.gas) - msg.gas
      ensures err.None? ==>
                var paid := Debit(old(state.world).balances, msg.from, Price(msg, msg.gas));
                state.world == old(state.world).(balances := paid)
    {
      if msg.checkNonce {
        var nonce := NonceOf(state.world, msg.from);
        if nonce < msg.nonce {
          return Some(NonceTooHigh);
        } else if nonce > msg.nonce {
          return Some(NonceTooLow);
        }
      }
      err := BuyGas();
    }

    function GasUsed(): uint64
      requires gas <= initialGas
      reads this
    {
      initialGas - gas
    }

    /** Gives back at most half of the gas used, and the price of what is left, to sender and pool. */
    method RefundGas()
      requires gas <= initialGas && gp.gas as int + initialGas as int <= MAX_UINT64
      modifies this`gas, gp, state
      ensures gas == old(gas) + Refund(initialGas - old(gas), old(state.world.refund)) <= initialGas
      ensures LargestRefund(initialGas - old(gas), old(state.world.refund), gas - old(gas))
      ensures gp.gas == old(gp.gas) + gas
      ensures state.world == old(state.world).(balances := Credit(old(state.world).balances, msg.from, Price(msg, gas)))
    {
      var refund := GasUsed() / 2;
      if refund > state.world.refund {
        refund := state.world.refund;
      }
      gas := gas + refund;
      state.AddBalance(msg.from, Price(msg, gas));
      gp.AddGas(gas);
    }

    /** After the run: refunds the sender and pays the coinbase. */
    method Settle(out: Outcome) returns (usedGas: uint64)
      requires gas == out.gasLeft <= initialGas == msg.gas && state.world == out.world
      requires gp.gas as int + msg.gas as int <= MAX_UINT64
      modifies this`gas, gp, state
      ensures usedGas == Used(msg, out) <= msg.gas && gp.gas == old(gp.gas) + (msg.gas - usedGas)
      ensures state.world == out.world.(balances := Settled(out, msg, coinbase, usedGas))
    {
      RefundGas();
      state.AddBalance(coinbase, Price(msg, GasUsed()));
      usedGas := GasUsed();
    }

    /** Pays the intrinsic gas and runs the message. */
    method Execute() returns (out: Option<Outcome>)
      requires EvmOk(evm) && gas == msg.gas
      modifies this`gas, state
      ensures out.Some? <==> Intrinsic(msg, homestead) <= msg.gas as int
      ensures out.Some? ==>
                && gas == out.value.gasLeft <= msg.gas && state.world == out.value.world
                && out.value == evm(Counted(old(state.world), msg), msg,
                                    (msg.gas as int - Intrinsic(msg, homestead)) as uint64)
    {
      var contractCreation := msg.to.None?;
      var intrinsic := IntrinsicGas.Compute(msg.data, contractCreation, homestead);
      if intrinsic == None || gas as int < intrinsic.value { return None; }
      gas := gas - intrinsic.value as uint64;
      if !contractCreation {
        state.world := state.world.(nonces := state.world.nonces[msg.from := NonceOf(state.world, msg.from) + 1]);
      }
      var result := evm(state.world, msg, gas);
      state.world, gas := result.world, result.gasLeft;
      out := Some(result);
    }

    /**
     Applies the message.  Unless it fails, exactly the gas used is missing from the pool, and the
     price of that gas has moved from the sender to the coinbase; nothing overflows 64 bits.
     */
    method TransitionDb() returns (err: Option<TxError>, usedGas: uint64, failed: bool)
      requires EvmOk(evm) && gas == 0
      modifies this, gp, state
      ensures Admission(old(state.world), msg, old(gp.gas)).Some? ==>
                && err == Admission(old(state.world), msg, old(gp.gas))
                && state.world == old(state.world) && gp.gas == old(gp.gas)
      ensures err.None? ==>
                && Admission(old(state.world), msg, old(gp.gas)) == None
                && Intrinsic(msg, homestead) <= msg.gas as int
                && var out := Executed(evm, old(state.world), msg, homestead);
                   && out.gasLeft <= msg.gas && usedGas == Used(msg, out) && failed == (out.err != NoVmError)
                   && state.world == out.world.(balances := Settled(out, msg, coinbase, usedGas))
                   && usedGas <= msg.gas && gp.gas == old(gp.gas) - usedGas
                   && Paid(out.world.balances, state.world.balances, msg, coinbase, usedGas)
      ensures err.None? ==> BoughtGas(old(state.world), Prepared(old(state.world), msg), msg)
      ensures err == Verdict(evm, old(state.world), msg, old(gp.gas), homestead)
      ensures err.Some? ==> usedGas == 0
    {
      usedGas, failed := 0, false;
      err := PreCheck();
      if err.Some? { return; }
      var out := Execute();
      if out == None {
        err := Some(OutOfGas);
        return;
      }
      if out.value.err == VmInsufficientBalance {
        err := Some(InsufficientBalance);
        return;
      }
      usedGas := Settle(out.value);
      failed := out.value.err != NoVmError;
    }
  }

  lemma SplitPrice(msg: Message, a: uint64, b: uint64)
    requires a as int + b as int <= MAX_UINT64
    ensures Price(msg, a) + Price(msg, b) == Price(msg, a + b)
  {
  }

  /** A message changes the sum of all balances by what its run does to it, and by nothing else. */
  lemma OnlyTheRun(evm: Evm, w: World, msg: Message, homestead: bool, coinbase: Address)
    requires EvmOk(evm) && Price(msg, msg.gas) <= BalanceOf(w.balances, msg.from)
    requires Intrinsic(msg, homestead) <= msg.gas as int
    ensures var out := Executed(evm, w, msg, homestead);
            && out.gasLeft <= msg.gas && Used(msg, out) <= msg.gas
            && Wealth(Settled(out, msg, coinbase, Used(msg, out))) - Wealth(w.balances)
               == Wealth(out.world.balances) - Wealth(Prepared(w, msg).balances)
    ensures Conserving(evm) ==>
              var out := Executed(evm, w, msg, homestead);
              Wealth(Settled(out, msg, coinbase, Used(msg, out))) == Wealth(w.balances)
  {
    var out := Executed(evm, w, msg, homestead);
    var used := Used(msg, out);
    var back, fee := Price(msg, msg.gas - used), Price(msg, used);
    SplitPrice(msg, msg.gas - used, used);
    WealthUpdate(w.balances, msg.from, BalanceOf(w.balances, msg.from) - Price(msg, msg.gas));
    WealthUpdate(out.world.balances, msg.from, BalanceOf(out.world.balances, msg.from) + back);
    var mid := Credit(out.world.balances, msg.from, back);
    WealthUpdate(mid, coinbase, BalanceOf(mid, coinbase) + fee);
  }

  /** The message can be paid for and has its intrinsic gas. */
  ghost predicate Runs(w: World, msg: Message, homestead: bool) {
    Price(msg, msg.gas) <= BalanceOf(w.balances, msg.from) && Intrinsic(msg, homestead) <= msg.gas as int
  }

  /** What is left of a message's run: everybody is paid, and then the destroyed accounts are deleted. */
  ghost function Applied(evm: Evm, w: World, msg: Message, homestead: bool, coinbase: Address): World
    requires EvmOk(evm) && Runs(w, msg, homestead)
  {
    var out := Executed(evm, w, msg, homestead);
    Finalised(out.world.(balances := Settled(out, msg, coinbase, Used(msg, out))))
  }

  /** What the accounts deleted at the end of a message hold. */
  ghost function Lost(evm: Evm, w: World, msg: Message, homestead: bool, coinbase: Address): nat
    requires EvmOk(evm) && Runs(w, msg, homestead)
  {
    var out := Executed(evm, w, msg, homestead);
    SumOf(Settled(out, msg, coinbase, Used(msg, out)), out.world.destroyed)
  }

  /**
   The run leaves the accounts it destroys empty, and none of them is paid afterwards: a destroyed
   coinbase gets a fee unless the price is zero, a destroyed sender a refund unless no gas is left.
   */
  ghost predicate NobodyPaidInVain(out: Outcome, msg: Message, coinbase: Address)
    requires out.gasLeft <= msg.gas
  {
    && (forall a :: a in out.world.destroyed ==> BalanceOf(out.world.balances, a) == 0)
    && (coinbase in out.world.destroyed ==> msg.price == 0)
    && (msg.from in out.world.destroyed ==> msg.price == 0 || Used(msg, out) == msg.gas)
  }

  /** The intrinsic gas alone sees to it that some gas is used. */
  lemma SomeGasUsed(evm: Evm, w: World, msg: Message, homestead: bool)
    requires EvmOk(evm) && Runs(w, msg, homestead)
    ensures var out := Executed(evm, w, msg, homestead); out.gasLeft <= msg.gas && 0 < Used(msg, out) <= msg.gas
  {
  }

  lemma PaidNothing(msg: Message, gas: uint64)
    ensures Price(msg, gas) == 0 <==> msg.price == 0 || gas == 0
  {
    if msg.price != 0 && gas != 0 { assert gas as int * msg.price > 0; }
  }

  /** The accounts deleted after a message hold nothing exactly if nobody is paid in vain. */
  lemma LostNothing(evm: Evm, w: World, msg: Message, homestead: bool, coinbase: Address)
    requires EvmOk(evm) && Runs(w, msg, homestead)
    ensures var out := Executed(evm, w, msg, homestead);
            && out.gasLeft <= msg.gas
            && (Lost(evm, w, msg, homestead, coinbase) == 0 <==> NobodyPaidInVain(out, msg, coinbase))
  {
    var out := Executed(evm, w, msg, homestead);
    SomeGasUsed(evm, w, msg, homestead);
    var used := Used(msg, out);
    PaidNothing(msg, used);
    PaidNothing(msg, msg.gas - used);
    var paid := Settled(out, msg, coinbase, used);
    NothingHeld(paid, out.world.destroyed);
    assert forall a :: BalanceOf(paid, a) == BalanceOf(out.world.balances, a)
                       + (if a == msg.from then Price(msg, msg.gas - used) else 0)
                       + (if a == coinbase then Price(msg, used) else 0);
  }

  /** With a run that only moves balances, exactly what the deleted accounts hold goes missing. */
  lemma OnlyTheLost(evm: Evm, w: World, msg: Message, homestead: bool, coinbase: Address)
    requires EvmOk(evm) && Conserving(evm) && Runs(w, msg, homestead)
    ensures Wealth(Applied(evm, w, msg, homestead, coinbase).balances) + Lost(evm, w, msg, homestead, coinbase)
            == Wealth(w.balances)
  {
    OnlyTheRun(evm, w, msg, homestead, coinbase);
    var out := Executed(evm, w, msg, homestead);
    WealthWithout(Settled(out, msg, coinbase, Used(msg, out)), out.world.destroyed);
  }

  // ---- Blocks ----

  /** The message is missing if the signature does not yield a sender. */
  datatype Transaction = Transaction(hash: Hash, msg: Option<Message>)

  datatype Log = Log(content: nat, txHash: Hash, txIndex: nat, index: nat)

  datatype Receipt = Receipt(txHash: Hash, failed: bool, cumulativeGasUsed: uint64, gasUsed: uint64, logs: seq<Log>)

  /** The gas of the first k receipts. */
  function GasSum(rs: seq<Receipt>, k: nat): nat
    requires k <= |rs|
  {
    if k == 0 then 0 else GasSum(rs, k - 1) + rs[k - 1].gasUsed as int
  }

  /** Every receipt carries the gas of the block up to and including its own. */
  ghost predicate Cumulative(rs: seq<Receipt>) {
    forall j :: 0 <= j < |rs| ==> rs[j].cumulativeGasUsed as int == GasSum(rs, j + 1)
  }

  lemma {:induction false} GasSumAgrees(rs: seq<Receipt>, more: seq<Receipt>, k: nat)
    requires k <= |rs| <= |more| && more[..|rs|] == rs
    ensures GasSum(more, k) == GasSum(rs, k)
  {
    if k > 0 {
      GasSumAgrees(rs, more, k - 1);
      assert more[k - 1] == more[..|rs|][k - 1];
    }
  }

  lemma CumulativeGrows(rs: seq<Receipt>, r: Receipt)
    requires Cumulative(rs) && r.cumulativeGasUsed as int == GasSum(rs, |rs|) + r.gasUsed as int
    ensures Cumulative(rs + [r]) && GasSum(rs + [r], |rs| + 1) == GasSum(rs, |rs|) + r.gasUsed as int
  {
    var more := rs + [r];
    forall j | 0 <= j <= |rs| ensures GasSum(more, j) == GasSum(rs, j) {
      GasSumAgrees(rs, more, j);
    }
  }

  /** How far a block has got: the world, what is left of the gas limit, and whether all went well. */
  datatype Stage = Stage(world: World, pool: uint64, ok: bool)

  /** One transaction on: nothing happens any more once one has failed. */
  ghost function Next(evm: Evm, at: Stage, tx: Transaction, coinbase: Address, homestead: bool): Stage
    requires EvmOk(evm)
  {
    if !at.ok || tx.msg.None? || Verdict(evm, at.world, tx.msg.value, at.pool, homestead).Some?
    then at.(ok := false)
    else
      SomeGasUsed(evm, at.world, tx.msg.value, homestead);
      var out := Executed(evm, at.world, tx.msg.value, homestead);
      Stage(Applied(evm, at.world, tx.msg.value, homestead, coinbase), at.pool - Used(tx.msg.value, out), true)
  }

  /** Where a block has got after its first k transactions. */
  ghost function After(evm: Evm, txs: seq<Transaction>, k: nat, start: Stage, coinbase: Address, homestead: bool): Stage
    requires EvmOk(evm) && k <= |txs|
  {
    if k == 0 then start
    else Next(evm, After(evm, txs, k - 1, start, coinbase, homestead), txs[k - 1], coinbase, homestead)
  }

  /** The transaction pays nobody who is deleted at its end. */
  ghost predicate PaysTheLiving(evm: Evm, at: Stage, tx: Transaction, coinbase: Address, homestead: bool)
    requires EvmOk(evm) && at.ok && tx.msg.Some?
    requires Verdict(evm, at.world, tx.msg.value, at.pool, homestead).None?
  {
    var out := Executed(evm, at.world, tx.msg.value, homestead);
    out.gasLeft <= tx.msg.value.gas && NobodyPaidInVain(out, tx.msg.value, coinbase)
  }

  /** None of the first k transactions pays an account that is deleted at its end. */
  ghost predicate AllPayTheLiving(evm: Evm, txs: seq<Transaction>, k: nat, start: Stage, coinbase: Address,
                                  homestead: bool)
    requires EvmOk(evm) && k <= |txs| && After(evm, txs, k, start, coinbase, homestead).ok
  {
    k > 0 ==>
      && AllPayTheLiving(evm, txs, k - 1, start, coinbase, homestead)
      && PaysTheLiving(evm, After(evm, txs, k - 1, start, coinbase, homestead), txs[k - 1], coinbase, homestead)
  }

  /** One transaction never adds to the sum of balances, and keeps it exactly if it pays no deleted account. */
  lemma OneTransaction(evm: Evm, at: Stage, tx: Transaction, coinbase: Address, homestead: bool)
    requires EvmOk(evm) && Conserving(evm) && at.ok && tx.msg.Some?
    requires Verdict(evm, at.world, tx.msg.value, at.pool, homestead).None?
    ensures var before := Wealth(at.world.balances);
            var after := Wealth(Next(evm, at, tx, coinbase, homestead).world.balances);
            after <= before && (after == before <==> PaysTheLiving(evm, at, tx, coinbase, homestead))
  {
    OnlyTheLost(evm, at.world, tx.msg.value, homestead, coinbase);
    LostNothing(evm, at.world, tx.msg.value, homestead, coinbase);
  }

  /** Over a block the sum of balances never grows, and is kept exactly if no transaction pays an account in vain. */
  lemma {:induction false} KeptIffPaidToTheLiving(evm: Evm, txs: seq<Transaction>, k: nat, start: Stage,
                                                  coinbase: Address, homestead: bool)
    requires EvmOk(evm) && Conserving(evm) && k <= |txs| && After(evm, txs, k, start, coinbase, homestead).ok
    ensures var now := Wealth(After(evm, txs, k, start, coinbase, homestead).world.balances);
            && now <= Wealth(start.world.balances)
            && (now == Wealth(start.world.balances) <==> AllPayTheLiving(evm, txs, k, start, coinbase, homestead))
  {
    if k > 0 {
      KeptIffPaidToTheLiving(evm, txs, k - 1, start, coinbase, homestead);
      OneTransaction(evm, After(evm, txs, k - 1, start, coinbase, homestead), txs[k - 1], coinbase, homestead);
    }
  }

  /** The accounts a transaction destroys. */
  ghost function Destroyed(evm: Evm, at: Stage, tx: Transaction, homestead: bool): set<Address>
    requires EvmOk(evm)
  {
    if !at.ok || tx.msg.None? || Verdict(evm, at.world, tx.msg.value, at.pool, homestead).Some? then {}
    else Executed(evm, at.world, tx.msg.value, homestead).world.destroyed
  }

  /** A transaction lowers no nonce but of those it destroys, and takes its sender's. */
  lemma NonceTaken(evm: Evm, at: Stage, tx: Transaction, coinbase: Address, homestead: bool, a: Address)
    requires EvmOk(evm) && Counting(evm) && Next(evm, at, tx, coinbase, homestead).ok
    requires a !in Destroyed(evm, at, tx, homestead)
    ensures at.ok && tx.msg.Some? && Turn(at, tx.msg.value)
    ensures var now := Next(evm, at, tx, coinbase, homestead).world;
            && NonceOf(at.world, a) <= NonceOf(now, a)
            && (a == tx.msg.value.from ==> NonceOf(at.world, a) < NonceOf(now, a))
  {
    var msg := tx.msg.value;
    var start := Prepared(at.world, msg);
    var gas := (msg.gas as int - Intrinsic(msg, homestead)) as uint64;
    assert Counts(start, msg, evm(start, msg, gas));
    assert NonceOf(start, a) <= NonceOf(evm(start, msg, gas).world, a);
  }

  /** Both ask for the same nonce of the same sender. */
  predicate SameTurn(a: Transaction, b: Transaction) {
    && a.msg.Some? && b.msg.Some? && a.msg.value.checkNonce && b.msg.value.checkNonce
    && a.msg.value.from == b.msg.value.from && a.msg.value.nonce == b.msg.value.nonce
  }

  /** Some transaction from the i-th on, but before the j-th, destroys the sender of the i-th. */
  ghost predicate SenderDestroyed(evm: Evm, txs: seq<Transaction>, i: nat, j: nat, start: Stage, coinbase: Address,
                                  homestead: bool)
    requires EvmOk(evm) && i <= j <= |txs| && i < |txs| && txs[i].msg.Some?
  {
    exists k: nat {:trigger Between(i, k, j)} :: Between(i, k, j) &&
      txs[i].msg.value.from in Destroyed(evm, After(evm, txs, k, start, coinbase, homestead), txs[k], homestead)
  }

  predicate Between(i: nat, k: nat, j: nat) {
    i <= k < j
  }

  /** The nonce of an account after the first k transactions. */
  ghost function NonceAt(evm: Evm, txs: seq<Transaction>, k: nat, start: Stage, coinbase: Address, homestead: bool,
                         a: Address): nat
    requires EvmOk(evm) && k <= |txs|
  {
    NonceOf(After(evm, txs, k, start, coinbase, homestead).world, a)
  }

  lemma NonceStep(evm: Evm, txs: seq<Transaction>, i: nat, k: nat, start: Stage, coinbase: Address, homestead: bool)
    requires EvmOk(evm) && Counting(evm) && i <= k < |txs| && txs[i].msg.Some? && txs[i].msg.value.checkNonce
    requires After(evm, txs, k + 1, start, coinbase, homestead).ok
    requires txs[i].msg.value.from !in
               Destroyed(evm, After(evm, txs, k, start, coinbase, homestead), txs[k], homestead)
    ensures var msg := txs[i].msg.value;
            var before := NonceAt(evm, txs, k, start, coinbase, homestead, msg.from);
            var after := NonceAt(evm, txs, k + 1, start, coinbase, homestead, msg.from);
            before <= after && (k == i ==> msg.nonce < after)
  {
    NonceTaken(evm, After(evm, txs, k, start, coinbase, homestead), txs[k], coinbase, homestead,
               txs[i].msg.value.from);
  }

  lemma {:induction false} NonceAbove(evm: Evm, txs: seq<Transaction>, i: nat, k: nat, j: nat, start: Stage,
                                      coinbase: Address, homestead: bool)
    requires EvmOk(evm) && Counting(evm) && i < k <= j <= |txs| && After(evm, txs, j, start, coinbase, homestead).ok
    requires txs[i].msg.Some? && txs[i].msg.value.checkNonce
    requires !SenderDestroyed(evm, txs, i, j, start, coinbase, homestead)
    ensures txs[i].msg.value.nonce < NonceAt(evm, txs, k, start, coinbase, homestead, txs[i].msg.value.from)
    decreases k
  {
    LivingStep(evm, txs, i, k - 1, j, start, coinbase, homestead);
    if i < k - 1 {
      NonceAbove(evm, txs, i, k - 1, j, start, coinbase, homestead);
    }
  }

  lemma LivingStep(evm: Evm, txs: seq<Transaction>, i: nat, k: nat, j: nat, start: Stage, coinbase: Address,
                   homestead: bool)
    requires EvmOk(evm) && Counting(evm) && i <= k < j <= |txs| && After(evm, txs, j, start, coinbase, homestead).ok
    requires txs[i].msg.Some? && txs[i].msg.value.checkNonce
    requires !SenderDestroyed(evm, txs, i, j, start, coinbase, homestead)
    ensures var msg := txs[i].msg.value;
            var before := NonceAt(evm, txs, k, start, coinbase, homestead, msg.from);
            var after := NonceAt(evm, txs, k + 1, start, coinbase, homestead, msg.from);
            before <= after && (k == i ==> msg.nonce < after)
  {
    LivesAndGoesOn(evm, txs, i, k, j, start, coinbase, homestead);
    NonceStep(evm, txs, i, k, start, coinbase, homestead);
  }

  lemma LivesAndGoesOn(evm: Evm, txs: seq<Transaction>, i: nat, k: nat, j: nat, start: Stage, coinbase: Address,
                       homestead: bool)
    requires EvmOk(evm) && i <= k < j <= |txs| && After(evm, txs, j, start, coinbase, homestead).ok && txs[i].msg.Some?
    requires !SenderDestroyed(evm, txs, i, j, start, coinbase, homestead)
    ensures After(evm, txs, k + 1, start, coinbase, homestead).ok
    ensures txs[i].msg.value.from !in
              Destroyed(evm, After(evm, txs, k, start, coinbase, homestead), txs[k], homestead)
  {
    assert Between(i, k, j);
    OkBefore(evm, txs, k + 1, j, start, coinbase, homestead);
  }

  /** A transaction that has been applied is refused when it comes again, unless its sender has been destroyed. */
  lemma NoReplay(evm: Evm, txs: seq<Transaction>, i: nat, j: nat, start: Stage, coinbase: Address, homestead: bool)
    requires EvmOk(evm) && Counting(evm) && i < j < |txs| && After(evm, txs, j, start, coinbase, homestead).ok
    requires SameTurn(txs[i], txs[j]) && !SenderDestroyed(evm, txs, i, j, start, coinbase, homestead)
    ensures var at := After(evm, txs, j, start, coinbase, homestead);
            && Verdict(evm, at.world, txs[j].msg.value, at.pool, homestead) == Some(NonceTooLow)
            && !After(evm, txs, j + 1, start, coinbase, homestead).ok
  {
    NonceAbove(evm, txs, i, j, j, start, coinbase, homestead);
  }

  /** In a block that goes through nobody's nonce is used twice, but for senders that were destroyed in between. */
  ghost predicate NothingReplayed(evm: Evm, txs: seq<Transaction>, start: Stage, coinbase: Address, homestead: bool)
    requires EvmOk(evm)
  {
    forall i: nat, j: nat {:trigger SameTurn(txs[i], txs[j])} :: i < j < |txs| && SameTurn(txs[i], txs[j]) ==>
      SenderDestroyed(evm, txs, i, j, start, coinbase, homestead)
  }

  lemma BlockReplaysNothing(evm: Evm, txs: seq<Transaction>, start: Stage, coinbase: Address, homestead: bool)
    requires EvmOk(evm) && Counting(evm) && After(evm, txs, |txs|, start, coinbase, homestead).ok
    ensures NothingReplayed(evm, txs, start, coinbase, homestead)
  {
    forall i: nat, j: nat {:trigger SameTurn(txs[i], txs[j])} | i < j < |txs| && SameTurn(txs[i], txs[j])
      ensures SenderDestroyed(evm, txs, i, j, start, coinbase, homestead)
    {
      PairReplaysNothing(evm, txs, i, j, start, coinbase, homestead);
    }
  }

  lemma PairReplaysNothing(evm: Evm, txs: seq<Transaction>, i: nat, j: nat, start: Stage, coinbase: Address,
                           homestead: bool)
    requires EvmOk(evm) && Counting(evm) && After(evm, txs, |txs|, start, coinbase, homestead).ok
    requires i < j < |txs| && SameTurn(txs[i], txs[j])
    ensures SenderDestroyed(evm, txs, i, j, start, coinbase, homestead)
  {
    TurnIn(evm, txs, j, start, coinbase, homestead);
    if !SenderDestroyed(evm, txs, i, j, start, coinbase, homestead) {
      NonceAbove(evm, txs, i, j, j, start, coinbase, homestead);
    }
  }

  lemma TurnIn(evm: Evm, txs: seq<Transaction>, j: nat, start: Stage, coinbase: Address, homestead: bool)
    requires EvmOk(evm) && After(evm, txs, |txs|, start, coinbase, homestead).ok && j < |txs|
    ensures After(evm, txs, j, start, coinbase, homestead).ok && txs[j].msg.Some?
    ensures var msg := txs[j].msg.value;
            msg.checkNonce ==> NonceAt(evm, txs, j, start, coinbase, homestead, msg.from) == msg.nonce
  {
    OkBefore(evm, txs, j + 1, |txs|, start, coinbase, homestead);
    TurnCame(evm, txs, j, start, coinbase, homestead);
  }

  /** In a block that goes through every transaction finds its nonce. */
  lemma TurnCame(evm: Evm, txs: seq<Transaction>, j: nat, start: Stage, coinbase: Address, homestead: bool)
    requires EvmOk(evm) && j < |txs| && After(evm, txs, j + 1, start, coinbase, homestead).ok
    ensures var at := After(evm, txs, j, start, coinbase, homestead);
            at.ok && txs[j].msg.Some? && Turn(at, txs[j].msg.value)
  {
    NonceMatches(evm, After(evm, txs, j, start, coinbase, homestead), txs[j], coinbase, homestead);
  }

  ghost predicate Turn(at: Stage, msg: Message) {
    msg.checkNonce ==> NonceOf(at.world, msg.from) == msg.nonce
  }

  lemma NonceMatches(evm: Evm, at: Stage, tx: Transaction, coinbase: Address, homestead: bool)
    requires EvmOk(evm)
    ensures Next(evm, at, tx, coinbase, homestead).ok ==> at.ok && tx.msg.Some? && Turn(at, tx.msg.value)
  {
  }

  lemma OkBefore(evm: Evm, txs: seq<Transaction>, k: nat, j: nat, start: Stage, coinbase: Address, homestead: bool)
    requires EvmOk(evm) && k <= j <= |txs| && After(evm, txs, j, start, coinbase, homestead).ok
    ensures After(evm, txs, k, start, coinbase, homestead).ok
  {
    if !After(evm, txs, k, start, coinbase, homestead).ok {
      NeverMind(evm, txs, k, j, start, coinbase, homestead);
    }
  }

  /**
   Applies a block's transactions.  Without an error the gas used and the gas left make up the
   limit and every receipt carries the running total.  If runs only move balances, no balance is made,
   and none is lost exactly if no transaction pays an account that it has destroyed.
   */
  method Process(evm: Evm, txs: seq<Transaction>, gasLimit: uint64, state: StateDB, coinbase: Address, homestead: bool)
      returns (receipts: seq<Receipt>, usedGas: uint64, err: bool, left: uint64)
    requires EvmOk(evm)
    modifies state
    ensures !err ==> |receipts| == |txs| && forall j :: 0 <= j < |txs| ==> receipts[j].txHash == txs[j].hash
    ensures !err ==> Cumulative(receipts) && usedGas as int == GasSum(receipts, |receipts|)
    ensures !err ==> usedGas as int + left as int == gasLimit as int
    ensures var start := Stage(old(state.world), gasLimit, true);
            var end := After(evm, txs, |txs|, start, coinbase, homestead);
            && err == !end.ok
            && (!err ==> state.world == end.world && left == end.pool)
            && (!err && Conserving(evm) ==>
                  && Wealth(state.world.balances) <= Wealth(start.world.balances)
                  && (Wealth(state.world.balances) == Wealth(start.world.balances) <==>
                      AllPayTheLiving(evm, txs, |txs|, start, coinbase, homestead)))
            && (!err && Counting(evm) ==> NothingReplayed(evm, txs, start, coinbase, homestead))
  {
    var gp := new GasPool(gasLimit);
    receipts, usedGas, err, left := [], 0, false, gasLimit;
    ghost var start := Stage(state.world, gasLimit, true);
    for i := 0 to |txs|
      invariant !err && fresh(gp)
      invariant Receipted(txs, i, receipts, usedGas, gasLimit, gp.gas)
      invariant After(evm, txs, i, start, coinbase, homestead) == Stage(state.world, gp.gas, true)
    {
      err, receipts, usedGas := ApplyNext(evm, txs, i, gp, state, coinbase, homestead, receipts, usedGas, start);
      if err {
        NeverMind(evm, txs, i + 1, |txs|, start, coinbase, homestead);
        return;
      }
    }
    left := gp.gas;
    if Conserving(evm) {
      KeptIffPaidToTheLiving(evm, txs, |txs|, start, coinbase, homestead);
    }
    if Counting(evm) {
      BlockReplaysNothing(evm, txs, start, coinbase, homestead);
    }
  }

  /** The receipts of the first k transactions, with running totals, and gas that makes up the limit. */
  ghost predicate Receipted(txs: seq<Transaction>, k: nat, receipts: seq<Receipt>, usedGas: uint64, gasLimit: uint64,
                            pool: uint64) {
    && |receipts| == k <= |txs| && (forall j :: 0 <= j < k ==> receipts[j].txHash == txs[j].hash)
    && Cumulative(receipts) && usedGas as int == GasSum(receipts, k)
    && usedGas as int + pool as int == gasLimit as int
  }

  /** One round of the loop over a block's transactions. */
  method ApplyNext(evm: Evm, txs: seq<Transaction>, i: nat, gp: GasPool, state: StateDB, coinbase: Address,
                   homestead: bool, receipts: seq<Receipt>, usedGas: uint64, ghost start: Stage)
      returns (err: bool, receipts': seq<Receipt>, usedGas': uint64)
    requires EvmOk(evm) && i < |txs| && Receipted(txs, i, receipts, usedGas, start.pool, gp.gas)
    requires After(evm, txs, i, start, coinbase, homestead) == Stage(state.world, gp.gas, true)
    modifies gp, state
    ensures err ==> !After(evm, txs, i + 1, start, coinbase, homestead).ok
    ensures !err ==>
              && Receipted(txs, i + 1, receipts', usedGas', start.pool, gp.gas)
              && After(evm, txs, i + 1, start, coinbase, homestead) == Stage(state.world, gp.gas, true)
  {
    OneOn(evm, txs, i, start, coinbase, homestead);
    ghost var pool := gp.gas;
    var receipt;
    err, receipt, usedGas' := ApplyTransaction(evm, txs[i], gp, state, coinbase, homestead, usedGas);
    receipts' := receipts + [receipt];
    if !err {
      OneMoreReceipt(txs, i, receipts, receipt, usedGas, usedGas', start.pool, pool, gp.gas);
    }
  }

  lemma OneMoreReceipt(txs: seq<Transaction>, k: nat, receipts: seq<Receipt>, receipt: Receipt, usedGas: uint64,
                       usedGas': uint64, gasLimit: uint64, pool: uint64, pool': uint64)
    requires k < |txs| && Receipted(txs, k, receipts, usedGas, gasLimit, pool)
    requires receipt.txHash == txs[k].hash && receipt.cumulativeGasUsed == usedGas'
    requires usedGas' as int == usedGas as int + receipt.gasUsed as int
    requires pool' as int == pool as int - receipt.gasUsed as int
    ensures Receipted(txs, k + 1, receipts + [receipt], usedGas', gasLimit, pool')
  {
    CumulativeGrows(receipts, receipt);
  }

  lemma OneOn(evm: Evm, txs: seq<Transaction>, k: nat, start: Stage, coinbase: Address, homestead: bool)
    requires EvmOk(evm) && k < |txs|
    ensures After(evm, txs, k + 1, start, coinbase, homestead)
            == Next(evm, After(evm, txs, k, start, coinbase, homestead), txs[k], coinbase, homestead)
  {
  }

  /** A block that has failed stays failed. */
  lemma {:induction false} NeverMind(evm: Evm, txs: seq<Transaction>, i: nat, k: nat, start: Stage, coinbase: Address,
                                     homestead: bool)
    requires EvmOk(evm) && i <= k <= |txs| && !After(evm, txs, i, start, coinbase, homestead).ok
    ensures !After(evm, txs, k, start, coinbase, homestead).ok
    decreases k
  {
    if i < k { NeverMind(evm, txs, i, k - 1, start, coinbase, homestead); }
  }

  /** Applies a transaction and finalises the state, which deletes the accounts destroyed meanwhile. */
  method ApplyTransaction(evm: Evm, tx: Transaction, gp: GasPool, state: StateDB, coinbase: Address, homestead: bool,
                          usedGas: uint64)
      returns (err: bool, receipt: Receipt, usedGas': uint64)
    requires EvmOk(evm) && usedGas as int + gp.gas as int <= MAX_UINT64
    modifies gp, state
    ensures err <==> tx.msg == None || Verdict(evm, old(state.world), tx.msg.value, old(gp.gas), homestead).Some?
    ensures !err ==> receipt.failed == (Executed(evm, old(state.world), tx.msg.value, homestead).err != NoVmError)
    ensures !err ==>
              && receipt.txHash == tx.hash && receipt.cumulativeGasUsed == usedGas'
              && usedGas' as int == usedGas as int + receipt.gasUsed as int
              && gp.gas as int == old(gp.gas) as int - receipt.gasUsed as int
    ensures !err ==>
              && Runs(old(state.world), tx.msg.value, homestead)
              && state.world == Applied(evm, old(state.world), tx.msg.value, homestead, coinbase)
    ensures var at := Stage(old(state.world), old(gp.gas), true);
            Next(evm, at, tx, coinbase, homestead) == if err then at.(ok := false) else Stage(state.world, gp.gas, true)
    ensures !err && Conserving(evm) ==>
              var out := Executed(evm, old(state.world), tx.msg.value, homestead);
              && out.gasLeft <= tx.msg.value.gas
              && (Wealth(state.world.balances) == old(Wealth(state.world.balances)) <==>
                  NobodyPaidInVain(out, tx.msg.value, coinbase))
  {
    receipt, usedGas', err := Receipt(tx.hash, false, 0, 0, []), usedGas, true;
    if tx.msg == None { return; }
    var st := new Transition(evm, tx.msg.value, gp, state, coinbase, homestead);
    var fault, gas, failed := st.TransitionDb();
    if fault.Some? { return; }
    state.Finalise();
    LostNothing(evm, old(state.world), tx.msg.value, homestead, coinbase);
    if Conserving(evm) {
      OnlyTheLost(evm, old(state.world), tx.msg.value, homestead, coinbase);
    }
    err, usedGas' := false, usedGas + gas;
    receipt := Receipt(tx.hash, failed, usedGas', gas, []);
  }

  const MINER: Address := 1
  const HEIR: Address := 2
  const SENDER: Address := 3

  /** A contract at the miner's address that self-destructs in favour of another account. */
  function SelfDestruct(w: World, msg: Message, gas: uint64): Outcome {
    var left := Credit(w.balances[MINER := 0], HEIR, BalanceOf(w.balances, MINER));
    Outcome(w.(balances := left, destroyed := w.destroyed + {MINER}), gas, NoVmError)
  }

  lemma SelfDestructConserves()
    ensures EvmOk(SelfDestruct) && Conserving(SelfDestruct)
  {
    forall w: World, m: Message, g: uint64
      ensures Wealth(SelfDestruct(w, m, g).world.balances) == Wealth(w.balances)
    {
      var emptied := w.balances[MINER := 0];
      WealthUpdate(w.balances, MINER, 0);
      WealthUpdate(emptied, HEIR, BalanceOf(emptied, HEIR) + BalanceOf(w.balances, MINER));
    }
  }

  /** The transaction that calls it, and the world before. */
  const CALL: Message := Message(SENDER, Some(MINER), 1, 21000, 0, true, [])
  const FUNDED: World := World(map[SENDER := 21000], map[], 0, {})

  lemma FeeDeleted()
    requires EvmOk(SelfDestruct)
    ensures Verdict(SelfDestruct, FUNDED, CALL, 21000, true).None?
    ensures var out := Executed(SelfDestruct, FUNDED, CALL, true);
            out.gasLeft == 0 && out.err == NoVmError && Used(CALL, out) == 21000
    ensures Applied(SelfDestruct, FUNDED, CALL, true, MINER).balances == map[SENDER := 0, HEIR := 0]
  {
    assert Intrinsic(CALL, true) == 21000;
  }

  /** A block whose only transaction calls that contract: the fee is deleted together with the miner's account. */
  method FeeLost() returns (state: StateDB, receipts: seq<Receipt>, err: bool)
    ensures EvmOk(SelfDestruct) && Conserving(SelfDestruct)
    ensures !err && |receipts| == 1
    ensures Wealth(FUNDED.balances) == 21000 && Wealth(state.world.balances) == 0
  {
    SelfDestructConserves();
    FeeDeleted();
    state := new StateDB(FUNDED);
    var txs := [Transaction(0, Some(CALL))];
    ghost var start := Stage(FUNDED, 21000, true);
    assert After(SelfDestruct, txs, 1, start, MINER, true)
        == Next(SelfDestruct, After(SelfDestruct, txs, 0, start, MINER, true), txs[0], MINER, true);
    var usedGas, left;
    receipts, usedGas, err, left := Process(SelfDestruct, txs, 21000, state, MINER, true);
    WealthUpdate(map[], SENDER, 21000);
    WealthUpdate(map[], SENDER, 0);
    WealthUpdate(map[SENDER := 0], HEIR, 0);
  }

  /** Subtraction of 64-bit numbers. */
  function Minus(a: uint64, b: uint64): uint64 {
    if a >= b then a - b else ((a as int - b as int) + MAX_UINT64 + 1) as uint64
  }

  /** A receipt's own gas, from the running totals alone. */
  function OwnGas(rs: seq<Receipt>, j: nat): uint64
    requires j < |rs|
  {
    if j == 0 then rs[0].cumulativeGasUsed else Minus(rs[j].cumulativeGasUsed, rs[j - 1].cumulativeGasUsed)
  }

  /** The number of logs in the first k receipts. */
  function LogCount(rs: seq<Receipt>, k: nat): nat
    requires k <= |rs|
  {
    if k == 0 then 0 else LogCount(rs, k - 1) + |rs[k - 1].logs|
  }

  function NumberLogs(logs: seq<Log>, txHash: Hash, txIndex: nat, first: nat): seq<Log> {
    seq(|logs|, k requires 0 <= k < |logs| => Log(logs[k].content, txHash, txIndex, first + k))
  }

  /** All logs of a block, in order. */
  function AllLogs(rs: seq<Receipt>): seq<Log> {
    if rs == [] then [] else AllLogs(rs[..|rs| - 1]) + rs[|rs| - 1].logs
  }

  lemma {:induction false} AllLogsCount(rs: seq<Receipt>, k: nat)
    requires k <= |rs|
    ensures |AllLogs(rs[..k])| == LogCount(rs, k)
  {
    if k > 0 {
      assert rs[..k][..k - 1] == rs[..k - 1];
      AllLogsCount(rs, k - 1);
    }
  }

  ghost predicate InOrder(was: seq<Log>, now: seq<Log>) {
    |now| == |was| && forall i :: 0 <= i < |was| ==> now[i].index == i && now[i].content == was[i].content
  }

  /** The logs of a block are numbered from zero on without a gap, and their contents stay. */
  lemma {:induction false} LogsNumbered(was: seq<Receipt>, now: seq<Receipt>, txs: seq<Transaction>, k: nat)
    requires |now| == |was| == |txs| && k <= |was|
    requires forall j :: 0 <= j < |was| ==> now[j] == Derived(was, txs, j)
    ensures InOrder(AllLogs(was[..k]), AllLogs(now[..k]))
  {
    if k > 0 {
      assert was[..k][..k - 1] == was[..k - 1] && now[..k][..k - 1] == now[..k - 1];
      LogsNumbered(was, now, txs, k - 1);
      AllLogsCount(was, k - 1);
    }
  }

  /** What of a receipt is stored: not its transaction nor its own gas. */
  function Stored(r: Receipt): Receipt {
    r.(txHash := 0, gasUsed := 0)
  }

  /** A receipt with all that follows from the block: its transaction, its own gas and the numbering of its logs. */
  function Derived(rs: seq<Receipt>, txs: seq<Transaction>, j: nat): Receipt
    requires j < |rs| == |txs|
  {
    Receipt(txs[j].hash, rs[j].failed, rs[j].cumulativeGasUsed, OwnGas(rs, j),
            NumberLogs(rs[j].logs, txs[j].hash, j, LogCount(rs, j)))
  }

  /** Receipts stored without their transaction and their own gas come back from the running totals as they were. */
  lemma ReceiptsRecovered(rs: seq<Receipt>, stored: seq<Receipt>, txs: seq<Transaction>, j: nat)
    requires Cumulative(rs) && |stored| == |rs| == |txs| && j < |rs|
    requires forall i :: 0 <= i < |rs| ==> stored[i] == Stored(rs[i]) && rs[i].txHash == txs[i].hash
    ensures Derived(stored, txs, j).(logs := rs[j].logs) == rs[j]
  {
    assert rs[j].cumulativeGasUsed as int == GasSum(rs, j) + rs[j].gasUsed as int;
  }

  method SetLogs(logs: seq<Log>, txHash: Hash, txIndex: nat, first: nat) returns (numbered: seq<Log>, next: nat)
    ensures numbered == NumberLogs(logs, txHash, txIndex, first) && next == first + |logs|
  {
    var k := 0;
    numbered, next := logs, first;
    while k < |logs|
      invariant k <= |logs| == |numbered| && next == first + k
      invariant numbered == NumberLogs(logs, txHash, txIndex, first)[..k] + logs[k..]
    {
      numbered := numbered[k := Log(numbered[k].content, txHash, txIndex, next)];
      next := next + 1;
      k := k + 1;
    }
  }

  /** Fills in one receipt; before is the running total of the one before it. */
  method Fill(r: Receipt, txHash: Hash, j: nat, before: uint64, logIndex: nat) returns (r': Receipt, next: nat)
    ensures r' == Receipt(txHash, r.failed, r.cumulativeGasUsed,
                          if j == 0 then r.cumulativeGasUsed else Minus(r.cumulativeGasUsed, before),
                          NumberLogs(r.logs, txHash, j, logIndex))
    ensures next == logIndex + |r.logs|
  {
    r' := r.(txHash := txHash);
    if j == 0 {
      r' := r'.(gasUsed := r'.cumulativeGasUsed);
    } else {
      r' := r'.(gasUsed := Minus(r'.cumulativeGasUsed, before));
    }
    var logs;
    logs, next := SetLogs(r'.logs, r'.txHash, j, logIndex);
    r' := r'.(logs := logs);
  }

  /** Fills in every receipt, or nothing if there are not as many as transactions. */
  method SetReceiptsData(txs: seq<Transaction>, receipts: array<Receipt>) returns (ok: bool)
    modifies receipts
    ensures ok <==> |txs| == receipts.Length
    ensures !ok ==> receipts[..] == old(receipts[..])
    ensures ok ==> forall j :: 0 <= j < receipts.Length ==> receipts[j] == Derived(old(receipts[..]), txs, j)
    ensures ok ==> InOrder(AllLogs(old(receipts[..])), AllLogs(receipts[..]))
    ensures ok ==> forall j, k :: 0 <= j < receipts.Length && 0 <= k < |receipts[j].logs| ==>
                     receipts[j].logs[k].txHash == txs[j].hash && receipts[j].logs[k].txIndex == j
  {
    if |txs| != receipts.Length { return false; }
    ghost var was := receipts[..];
    FillAll(txs, receipts);
    LogsNumbered(was, receipts[..], txs, |was|);
    assert was[..|was|] == was && receipts[..][..|was|] == receipts[..];
    return true;
  }

  method FillAll(txs: seq<Transaction>, receipts: array<Receipt>)
    requires |txs| == receipts.Length
    modifies receipts
    ensures forall j :: 0 <= j < receipts.Length ==> receipts[j] == Derived(old(receipts[..]), txs, j)
  {
    ghost var was := receipts[..];
    var logIndex := 0;
    for j := 0 to receipts.Length
      invariant logIndex == LogCount(was, j)
      invariant forall i :: j <= i < receipts.Length ==> receipts[i] == was[i]
      invariant forall i :: 0 <= i < j ==> receipts[i] == Derived(was, txs, i)
    {
      ghost var before := receipts[..];
      var r;
      var gasBefore := if j == 0 then 0 else receipts[j - 1].cumulativeGasUsed;
      r, logIndex := Fill(receipts[j], txs[j].hash, j, gasBefore, logIndex);
      assert r == Derived(was, txs, j);
      receipts[j] := r;
      assert forall i :: 0 <= i < receipts.Length && i != j ==> receipts[i] == before[i];
    }
  }
}
