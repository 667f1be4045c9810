/**
 The concurrent hasher of bmt/bmt.go on a chunk that exactly fills its tree: one goroutine per
 double segment, meeting at the nodes' toggles, beside the goroutine that calls Write and Sum.

 Nodes are numbered as in a heap: the root is 1 and the children of p are 2p and 2p+1, so a
 node's index is even exactly when its number is.  With n double segments the leaves are
 n .. 2n-1.
 */
module BmtTree {
  import opened RefHasher

  // ---- The toggle ----

  const INT32_MAX: int := 0x7FFF_FFFF
  const INT32_MIN: int := -0x8000_0000

  /** atomic.AddInt32(&state, 1). */
  function Inc32(x: int): int {
    if x == INT32_MAX then INT32_MIN else x + 1
  }

  /** Go's remainder, which takes the sign of the dividend, is 1 only for positive odd numbers. */
  predicate OddPositive(x: int) {
    x > 0 && x % 2 == 1
  }

  /** Whether toggle tells its caller to wait: it was the first of the two to arrive. */
  predicate TogglesToWait(state: int) {
    OddPositive(Inc32(state))
  }

  /** A state in which the toggle works for the next chunk. */
  predicate Reusable(state: int) {
    0 <= state <= INT32_MAX && state % 2 == 0
  }

  /** The toggle's two arrivals tell first from second exactly when the counter started out even and not negative. */
  lemma ToggleWorks(state: int)
    requires INT32_MIN <= state <= INT32_MAX && state % 2 == 0
    ensures TogglesToWait(state) && !TogglesToWait(Inc32(state)) <==> Reusable(state)
    ensures Inc32(Inc32(state)) % 2 == 0
    ensures Reusable(state) ==> (Reusable(Inc32(Inc32(state))) <==> state < INT32_MAX - 1)
  {
  }

  const TWO_30: int := 0x4000_0000
  const TWO_31: int := 0x8000_0000

  /** The counter of a new tree's inner node after k chunks, each of which toggles it twice. */
  function CounterAfter(k: nat): int {
    if k == 0 then 0 else Inc32(Inc32(CounterAfter(k - 1)))
  }

  /** Where the counter stands r chunks into a round: half of the time at a negative number. */
  function CounterInRound(r: nat): int {
    if r < TWO_30 then 2 * r else 2 * r - 2 * TWO_31
  }

  /** The counter goes round once every 2^31 chunks. */
  lemma {:induction false} CounterGoesRound(k: nat)
    ensures CounterAfter(k) == CounterInRound(k % TWO_31)
  {
    if k > 0 {
      CounterGoesRound(k - 1);
      NextRemainder(k - 1);
      NextInRound((k - 1) % TWO_31);
    }
  }

  function NextOf(r: nat): nat {
    if r == TWO_31 - 1 then 0 else r + 1
  }

  lemma NextRemainder(k: nat)
    ensures (k + 1) % TWO_31 == NextOf(k % TWO_31)
  {
  }

  lemma NextInRound(r: nat)
    requires r < TWO_31
    ensures Inc32(Inc32(CounterInRound(r))) == CounterInRound(NextOf(r))
  {
  }

  /**
   The k-th chunk of a tree finds a toggle that works exactly in the first half of every round: for
   the first 2^30 chunks it does, and the next one finds the least 32-bit number, from which both
   arrivals go on.
   */
  lemma ToggleWraps(k: nat)
    ensures Reusable(CounterAfter(k)) <==> k % TWO_31 < TWO_30
    ensures TogglesToWait(CounterAfter(k)) && !TogglesToWait(Inc32(CounterAfter(k))) <==> k % TWO_31 < TWO_30
    ensures k < TWO_30 ==> CounterAfter(k) == 2 * k
    ensures k == TWO_30 ==>
              CounterAfter(k) == INT32_MIN && !TogglesToWait(CounterAfter(k)) && !TogglesToWait(Inc32(CounterAfter(k)))
  {
    CounterGoesRound(k);
    FirstHalf(k, CounterAfter(k));
  }

  lemma FirstHalf(k: nat, c: int)
    requires c == CounterInRound(k % TWO_31)
    ensures Reusable(c) <==> k % TWO_31 < TWO_30
    ensures TogglesToWait(c) && !TogglesToWait(Inc32(c)) <==> k % TWO_31 < TWO_30
    ensures k < TWO_30 ==> c == 2 * k
    ensures k == TWO_30 ==> c == INT32_MIN && !TogglesToWait(c) && !TogglesToWait(Inc32(c))
  {
    ToggleWorks(c);
  }

  // ---- States ----

  datatype Node = Node(left: Bytes, right: Bytes, state: int, unbalanced: bool, root: bool)

  /** Where a segment goroutine is in writeSegment and run. */
  datatype Pc =
    | Idle                 // not launched yet
    | Launched             // about to hash its double segment
    | Storing(s: Bytes)    // about to store s in the parent of its slot
    | Toggling(s: Bytes)   // about to toggle the parent of its slot
    | Combining            // arrived second: about to hash both sides of the parent
    | Gone                 // arrived first, or delivered the result

  datatype Worker = Worker(slot: nat, pc: Pc)

  /** Where the goroutine that runs Write and Sum is. */
  datatype Main =
    | Launching(next: nat)
    | Finalising(slot: nat)
    | LaunchingLast
    | Awaiting
    | Releasing(node: nat)
    | Finished

  /**
   `fed` and `carrier` only record history: the slots whose value has been toggled into the
   parent, and which goroutine brought each slot's value.  No step depends on them.
   */
  datatype State = State(
    nodes: map<nat, Node>,
    workers: seq<Worker>,
    main: Main,
    results: seq<Bytes>,
    fed: set<nat>,
    carrier: map<nat, nat>)

  datatype Chunk = Chunk(hash: Bytes -> Bytes, n: nat, segs: seq<Bytes>, base: map<nat, int>)

  /** Numbers whose binary digits are all ones: the right spine of a perfect tree. */
  predicate AllOnes(c: nat) {
    c == 1 || (c > 1 && c % 2 == 1 && AllOnes(c / 2))
  }

  /** At least two double segments, as many as a perfect tree has leaves. */
  ghost predicate ChunkOk(ch: Chunk) {
    && ch.n >= 2 && AllOnes(2 * ch.n - 1) && |ch.segs| == ch.n
    && (forall p: nat :: p in ch.base <==> 1 <= p < 2 * ch.n)
    && (forall p :: p in ch.base ==> Reusable(ch.base[p]))
  }

  function Store(nd: Node, slot: nat, s: Bytes): Node {
    if slot % 2 == 0 then nd.(left := s) else nd.(right := s)
  }

  function Stored(nd: Node, slot: nat): Bytes {
    if slot % 2 == 0 then nd.left else nd.right
  }

  /** A tree fresh from the pool, all goroutines still to be launched. */
  ghost predicate Init(ch: Chunk, st: State) {
    && (forall p: nat :: p in st.nodes <==> 1 <= p < 2 * ch.n)
    && (forall p :: p in st.nodes ==> Clean(st.nodes[p], p) && p in ch.base && st.nodes[p].state == ch.base[p])
    && |st.workers| == ch.n
    && (forall t :: 0 <= t < ch.n ==> st.workers[t] == Worker(ch.n + t, Idle))
    && st.main == Launching(0) && st.results == [] && st.fed == {}
    && (forall c: nat :: c in st.carrier <==> ch.n <= c < 2 * ch.n)
    && (forall c: nat :: c in st.carrier ==> st.carrier[c] == c - ch.n)
  }

  predicate Clean(nd: Node, p: nat) {
    !nd.unbalanced && nd.root == (p == 1)
  }

  // ---- Steps ----

  /** Write launches the goroutine of the next finished double segment. */
  ghost predicate LaunchStep(ch: Chunk, st: State, st': State) {
    && st.main.Launching? && st.main.next < ch.n - 1 == |st.workers| - 1
    && st' == st.(workers := st.workers[st.main.next := st.workers[st.main.next].(pc := Launched)],
                  main := Launching(st.main.next + 1))
  }

  /** Write keeps the last double segment; Sum starts finalising above its leaf. */
  ghost predicate SumStep(ch: Chunk, st: State, st': State) {
    && ch.n > 0 && st.main == Launching(ch.n - 1)
    && st' == st.(main := Finalising(2 * ch.n - 1))
  }

  /** finalise marks one node of the last segment's path, until it reaches the root. */
  ghost predicate FinaliseStep(ch: Chunk, st: State, st': State) {
    && st.main.Finalising? && st.main.slot / 2 in st.nodes
    && var p := st.main.slot / 2;
       var nd := st.nodes[p].(unbalanced := st.main.slot % 2 == 0, right := [],
                              root := st.nodes[p].root || p == 1);
       st' == st.(nodes := st.nodes[p := nd], main := if p == 1 then LaunchingLast else Finalising(p))
  }

  ghost predicate LaunchLastStep(ch: Chunk, st: State, st': State) {
    && st.main == LaunchingLast && |st.workers| == ch.n > 0
    && st' == st.(workers := st.workers[ch.n - 1 := st.workers[ch.n - 1].(pc := Launched)], main := Awaiting)
  }

  /** releaseTree clears the flags along the last segment's path. */
  ghost predicate ReleaseStep(ch: Chunk, st: State, st': State) {
    && st.main.Releasing? && st.main.node in st.nodes
    && var p := st.main.node;
       var nd := st.nodes[p].(unbalanced := false, root := if p == 1 then st.nodes[p].root else false);
       st' == st.(nodes := st.nodes[p := nd], main := if p == 1 then Finished else Releasing(p / 2))
  }

  /** A goroutine hashes its double segment. */
  ghost predicate HashStep(ch: Chunk, st: State, st': State, t: nat) {
    && t < |st.workers| == |ch.segs| && st.workers[t].pc == Launched
    && st' == st.(workers := st.workers[t := st.workers[t].(pc := Storing(ch.hash(ch.segs[t])))])
  }

  /** It stores what it carries on its side of the parent. */
  ghost predicate StoreStep(ch: Chunk, st: State, st': State, t: nat) {
    && t < |st.workers| && st.workers[t].pc.Storing? && st.workers[t].slot / 2 in st.nodes
    && var w := st.workers[t];
       var p := w.slot / 2;
       st' == st.(nodes := st.nodes[p := Store(st.nodes[p], w.slot, w.pc.s)],
                  workers := st.workers[t := w.(pc := Toggling(w.pc.s))])
  }

  /** It toggles the parent and leaves if it was the first. */
  ghost predicate ToggleStep(ch: Chunk, st: State, st': State, t: nat) {
    && t < |st.workers| && st.workers[t].pc.Toggling? && st.workers[t].slot / 2 in st.nodes
    && !st.nodes[st.workers[t].slot / 2].unbalanced
    && var w := st.workers[t];
       var p := w.slot / 2;
       var nd := st.nodes[p];
       st' == st.(nodes := st.nodes[p := nd.(state := Inc32(nd.state))],
                  workers := st.workers[t := w.(pc := if TogglesToWait(nd.state) then Gone else Combining)],
                  fed := st.fed + {w.slot})
  }

  /** The second to arrive hashes both sides and moves on, or hands the result to Sum at the root. */
  ghost predicate CombineStep(ch: Chunk, st: State, st': State, t: nat) {
    && ch.n > 0 && t < |st.workers| && st.workers[t].pc == Combining && st.workers[t].slot / 2 in st.nodes
    && var p := st.workers[t].slot / 2;
       var s := ch.hash(st.nodes[p].left + st.nodes[p].right);
       if st.nodes[p].root then
         && st.main == Awaiting
         && st' == st.(workers := st.workers[t := st.workers[t].(pc := Gone)],
                       main := Releasing(2 * ch.n - 1), results := st.results + [s])
       else
         st' == st.(workers := st.workers[t := Worker(p, Storing(s))], carrier := st.carrier[p := t])
  }

  ghost predicate MainStep(ch: Chunk, st: State, st': State) {
    || LaunchStep(ch, st, st')
    || SumStep(ch, st, st')
    || FinaliseStep(ch, st, st')
    || LaunchLastStep(ch, st, st')
    || ReleaseStep(ch, st, st')
  }

  ghost predicate WorkerStep(ch: Chunk, st: State, st': State, t: nat) {
    || HashStep(ch, st, st', t)
    || StoreStep(ch, st, st', t)
    || ToggleStep(ch, st, st', t)
    || CombineStep(ch, st, st', t)
  }

  /** One step of any goroutine. */
  ghost predicate Step(ch: Chunk, st: State, st': State) {
    MainStep(ch, st, st') || exists t: nat :: WorkerStep(ch, st, st', t)
  }

  // ---- What every step keeps ----

  /** The hash of the subtree at c. */
  ghost function Value(ch: Chunk, c: nat): Bytes
    requires |ch.segs| == ch.n && 1 <= c < 2 * ch.n
    decreases 2 * ch.n - c
  {
    if c >= ch.n then ch.hash(ch.segs[c - ch.n]) else ch.hash(Value(ch, 2 * c) + Value(ch, 2 * c + 1))
  }

  /** The last double segment has not been launched. */
  predicate Early(main: Main) {
    main.Launching? || main.Finalising? || main.LaunchingLast?
  }

  /** Worker t has been launched. */
  predicate Started(ch: Chunk, main: Main, t: nat) {
    match main
    case Launching(next) => t < next
    case Finalising(_) => t < ch.n - 1
    case LaunchingLast => t < ch.n - 1
    case _ => true
  }

  ghost predicate MainOk(ch: Chunk, st: State) {
    match st.main
    case Launching(next) => next < ch.n && st.results == []
    case Finalising(slot) => 1 < slot < 2 * ch.n && AllOnes(slot) && st.results == []
    case LaunchingLast => st.results == []
    case Awaiting => st.results == []
    case Releasing(p) => 1 <= p < 2 * ch.n && |st.results| == 1
    case Finished => |st.results| == 1
  }

  ghost predicate NodeOk(ch: Chunk, st: State, p: nat)
    requires ChunkOk(ch) && 1 <= p < 2 * ch.n
  {
    && p in st.nodes
    && Clean(st.nodes[p], p)
    && (p >= ch.n ==> st.nodes[p].state == ch.base[p])
    && (p < ch.n ==>
          && st.nodes[p].state == CountUp(ch.base[p], 2 * p in st.fed, 2 * p + 1 in st.fed)
          && (2 * p in st.fed ==> st.nodes[p].left == Value(ch, 2 * p))
          && (2 * p + 1 in st.fed ==> st.nodes[p].right == Value(ch, 2 * p + 1)))
  }

  function CountUp(base: int, left: bool, right: bool): int {
    if left && right then Inc32(Inc32(base)) else if left || right then Inc32(base) else base
  }

  ghost predicate WorkerOk(ch: Chunk, st: State, t: nat)
    requires ChunkOk(ch) && t < |st.workers|
  {
    var w := st.workers[t];
    && 2 <= w.slot < 2 * ch.n
    && w.slot in st.carrier && st.carrier[w.slot] == t
    && (w.slot == ch.n + t || ch.n + t in st.fed)
    && (w.pc.Idle? || w.pc.Launched? ==> w.slot == ch.n + t)
    && (w.pc.Idle? <==> !Started(ch, st.main, t))
    && (w.pc.Gone? || w.pc.Combining? <==> w.slot in st.fed)
    && (w.slot !in st.fed && w.slot < ch.n ==> 2 * w.slot in st.fed && 2 * w.slot + 1 in st.fed)
    && (w.pc.Storing? || w.pc.Toggling? ==> w.pc.s == Value(ch, w.slot))
    && (w.pc.Toggling? ==> w.slot / 2 in st.nodes && Stored(st.nodes[w.slot / 2], w.slot) == Value(ch, w.slot))
    && (w.pc.Combining? ==>
          && 2 * (w.slot / 2) in st.fed && 2 * (w.slot / 2) + 1 in st.fed
          && w.slot / 2 !in st.carrier
          && (w.slot / 2 == 1 ==> st.results == []))
  }

  /** Whoever brought a slot's value is still there, or has fed it to the parent and moved on. */
  ghost predicate SlotHeld(ch: Chunk, st: State, c: nat)
    requires ChunkOk(ch) && 1 <= c < 2 * ch.n && |st.workers| == ch.n
  {
    && (c in st.fed ==> c in st.carrier && 2 <= c)
    && (c in st.carrier ==> 2 <= c && st.carrier[c] < ch.n && (st.workers[st.carrier[c]].slot == c || c in st.fed))
    && (c >= ch.n ==> c in st.carrier && st.carrier[c] == c - ch.n)
    && (c < ch.n && c in st.carrier ==> 2 * c in st.fed && 2 * c + 1 in st.fed)
  }

  /** Exactly one of the two goroutines that meet at a node is going to combine there. */
  ghost predicate SlotMeets(ch: Chunk, st: State, c: nat)
    requires ChunkOk(ch) && 1 <= c < 2 * ch.n && |st.workers| == ch.n
  {
    && (c < ch.n && 2 * c in st.fed && 2 * c + 1 in st.fed && c !in st.carrier && !(c == 1 && st.results != []) ==>
          Combiner(st, 2 * c) || Combiner(st, 2 * c + 1))
    && (c < ch.n ==> !(Combiner(st, 2 * c) && Combiner(st, 2 * c + 1)))
  }

  /** Nothing is fed along the last segment's path before that segment is launched. */
  ghost predicate SlotSpine(ch: Chunk, st: State, c: nat) {
    AllOnes(c) && Early(st.main) ==> c !in st.fed && (c in st.carrier ==> c == 2 * ch.n - 1)
  }

  ghost predicate SlotOk(ch: Chunk, st: State, c: nat)
    requires ChunkOk(ch) && 1 <= c < 2 * ch.n && |st.workers| == ch.n
  {
    SlotHeld(ch, st, c) && SlotMeets(ch, st, c) && SlotSpine(ch, st, c)
  }

  predicate Combiner(st: State, c: nat) {
    c in st.carrier && st.carrier[c] < |st.workers| && st.workers[st.carrier[c]] == Worker(c, Combining)
  }

  ghost predicate Inv(ch: Chunk, st: State) {
    && ChunkOk(ch) && |st.workers| == ch.n && MainOk(ch, st)
    && (forall p: nat :: p in st.nodes ==> 1 <= p < 2 * ch.n)
    && (forall c: nat :: c in st.fed || c in st.carrier ==> 1 <= c < 2 * ch.n)
    && (forall p: nat {:trigger NodeOk(ch, st, p)} :: 1 <= p < 2 * ch.n ==> NodeOk(ch, st, p))
    && (forall t: nat {:trigger WorkerOk(ch, st, t)} :: t < ch.n ==> WorkerOk(ch, st, t))
    && (forall c: nat {:trigger SlotOk(ch, st, c)} :: 1 <= c < 2 * ch.n ==> SlotOk(ch, st, c))
    && (st.results != [] ==> st.results == [Value(ch, 1)] && 2 in st.fed && 3 in st.fed)
  }

  lemma {:induction false} AllOnesGap(a: nat, b: nat)
    requires AllOnes(a) && AllOnes(b) && a < b
    ensures 2 * a + 1 <= b
    decreases b
  {
    if b / 2 < a && a > 1 { AllOnesGap(b / 2, a); }
  }

  lemma InitOk(ch: Chunk, st: State)
    requires ChunkOk(ch) && Init(ch, st)
    ensures Inv(ch, st)
  {
    forall c: nat | 1 <= c < 2 * ch.n ensures SlotOk(ch, st, c) {
      if AllOnes(c) && c < 2 * ch.n - 1 { AllOnesGap(c, 2 * ch.n - 1); }
    }
  }

  lemma LaunchKeeps(ch: Chunk, st: State, st': State)
    requires Inv(ch, st) && LaunchStep(ch, st, st')
    ensures Inv(ch, st')
  {
    var i := st.main.next;
    forall p: nat | 1 <= p < 2 * ch.n ensures NodeOk(ch, st', p) { assert NodeOk(ch, st, p); }
    forall t: nat | t < ch.n ensures WorkerOk(ch, st', t) { assert WorkerOk(ch, st, t); }
    assert WorkerOk(ch, st, i);
    forall c: nat | 1 <= c < 2 * ch.n ensures SlotOk(ch, st', c) { assert SlotOk(ch, st, c); }
  }

  lemma SumKeeps(ch: Chunk, st: State, st': State)
    requires Inv(ch, st) && SumStep(ch, st, st')
    ensures Inv(ch, st')
  {
    forall p: nat | 1 <= p < 2 * ch.n ensures NodeOk(ch, st', p) { assert NodeOk(ch, st, p); }
    forall t: nat | t < ch.n ensures WorkerOk(ch, st', t) { assert WorkerOk(ch, st, t); }
    forall c: nat | 1 <= c < 2 * ch.n ensures SlotOk(ch, st', c) { assert SlotOk(ch, st, c); }
  }

  lemma FinaliseKeeps(ch: Chunk, st: State, st': State)
    requires Inv(ch, st) && FinaliseStep(ch, st, st')
    ensures Inv(ch, st')
  {
    var slot := st.main.slot;
    assert SlotOk(ch, st, slot) && NodeOk(ch, st, slot / 2);
    forall p: nat | 1 <= p < 2 * ch.n ensures NodeOk(ch, st', p) {
      assert NodeOk(ch, st, p);
      FinaliseNode(ch, st, st', p);
    }
    forall t: nat | t < ch.n ensures WorkerOk(ch, st', t) {
      assert WorkerOk(ch, st, t);
      FinaliseWorker(ch, st, st', t);
    }
    forall c: nat | 1 <= c < 2 * ch.n ensures SlotOk(ch, st', c) {
      assert SlotOk(ch, st, c);
      FinaliseSlot(ch, st, st', c);
    }
  }

  /** finalise clears the right side of a node on the last path, which has not been fed yet. */
  lemma FinaliseNode(ch: Chunk, st: State, st': State, p: nat)
    requires ChunkOk(ch) && MainOk(ch, st) && |st.workers| == ch.n && FinaliseStep(ch, st, st') && 1 <= p < 2 * ch.n
    requires NodeOk(ch, st, p) && SlotSpine(ch, st, st.main.slot)
    ensures NodeOk(ch, st', p)
  {
  }

  lemma FinaliseWorker(ch: Chunk, st: State, st': State, t: nat)
    requires ChunkOk(ch) && MainOk(ch, st) && |st.workers| == ch.n && FinaliseStep(ch, st, st') && t < ch.n
    requires WorkerOk(ch, st, t) && SlotSpine(ch, st, st.main.slot) && SlotHeld(ch, st, st.main.slot)
    ensures WorkerOk(ch, st', t)
  {
  }

  lemma FinaliseSlot(ch: Chunk, st: State, st': State, c: nat)
    requires ChunkOk(ch) && MainOk(ch, st) && |st.workers| == ch.n && FinaliseStep(ch, st, st') && 1 <= c < 2 * ch.n
    requires SlotOk(ch, st, c)
    ensures SlotOk(ch, st', c)
  {
  }

  lemma LaunchLastKeeps(ch: Chunk, st: State, st': State)
    requires Inv(ch, st) && LaunchLastStep(ch, st, st')
    ensures Inv(ch, st')
  {
    forall p: nat | 1 <= p < 2 * ch.n ensures NodeOk(ch, st', p) { assert NodeOk(ch, st, p); }
    forall t: nat | t < ch.n ensures WorkerOk(ch, st', t) { assert WorkerOk(ch, st, t); }
    assert WorkerOk(ch, st, ch.n - 1);
    forall c: nat | 1 <= c < 2 * ch.n ensures SlotOk(ch, st', c) { assert SlotOk(ch, st, c); }
  }

  lemma ReleaseKeeps(ch: Chunk, st: State, st': State)
    requires Inv(ch, st) && ReleaseStep(ch, st, st')
    ensures Inv(ch, st')
  {
    assert NodeOk(ch, st, st.main.node);
    assert st'.nodes == st.nodes;
    forall p: nat | 1 <= p < 2 * ch.n ensures NodeOk(ch, st', p) { assert NodeOk(ch, st, p); }
    forall t: nat | t < ch.n ensures WorkerOk(ch, st', t) { assert WorkerOk(ch, st, t); }
    forall c: nat | 1 <= c < 2 * ch.n ensures SlotOk(ch, st', c) { assert SlotOk(ch, st, c); }
  }

  lemma HashKeeps(ch: Chunk, st: State, st': State, t: nat)
    requires Inv(ch, st) && HashStep(ch, st, st', t)
    ensures Inv(ch, st')
  {
    assert WorkerOk(ch, st, t);
    forall p: nat | 1 <= p < 2 * ch.n ensures NodeOk(ch, st', p) { assert NodeOk(ch, st, p); }
    forall u: nat | u < ch.n ensures WorkerOk(ch, st', u) {
      assert WorkerOk(ch, st, u);
      HashWorker(ch, st, st', t, u);
    }
    forall c: nat | 1 <= c < 2 * ch.n ensures SlotOk(ch, st', c) { assert SlotOk(ch, st, c); }
  }

  lemma HashWorker(ch: Chunk, st: State, st': State, t: nat, u: nat)
    requires ChunkOk(ch) && |st.workers| == ch.n && HashStep(ch, st, st', t) && u < ch.n && WorkerOk(ch, st, u)
    ensures WorkerOk(ch, st', u)
  {
  }

  lemma StoreKeeps(ch: Chunk, st: State, st': State, t: nat)
    requires Inv(ch, st) && StoreStep(ch, st, st', t)
    ensures Inv(ch, st')
  {
    assert WorkerOk(ch, st, t);
    forall p: nat | 1 <= p < 2 * ch.n ensures NodeOk(ch, st', p) { assert NodeOk(ch, st, p); }
    forall u: nat | u < ch.n ensures WorkerOk(ch, st', u) {
      assert WorkerOk(ch, st, u);
      StoreWorker(ch, st, st', t, u);
    }
    forall c: nat | 1 <= c < 2 * ch.n ensures SlotOk(ch, st', c) { StoreSlot(ch, st, st', t, c); }
  }

  /** Storing on one side of a node disturbs neither the other side nor any other goroutine. */
  lemma StoreWorker(ch: Chunk, st: State, st': State, t: nat, u: nat)
    requires ChunkOk(ch) && |st.workers| == ch.n && StoreStep(ch, st, st', t) && u < ch.n
    requires WorkerOk(ch, st, t) && WorkerOk(ch, st, u)
    ensures WorkerOk(ch, st', u)
  {
    if u != t {
      var s, c := st.workers[t].slot, st.workers[u].slot;
      assert s != c;
      assert c / 2 == s / 2 ==> c % 2 != s % 2;
    }
  }

  lemma StoreSlot(ch: Chunk, st: State, st': State, t: nat, c: nat)
    requires Inv(ch, st) && StoreStep(ch, st, st', t) && 1 <= c < 2 * ch.n
    ensures SlotOk(ch, st', c)
  {
    assert SlotOk(ch, st, c) && WorkerOk(ch, st, t);
    assert forall x: nat :: Combiner(st', x) <==> Combiner(st, x);
  }

  lemma ToggleKeeps(ch: Chunk, st: State, st': State, t: nat)
    requires Inv(ch, st) && ToggleStep(ch, st, st', t)
    ensures Inv(ch, st')
  {
    assert WorkerOk(ch, st, t);
    forall q: nat | 1 <= q < 2 * ch.n ensures NodeOk(ch, st', q) { ToggleNode(ch, st, st', t, q); }
    ToggleOrder(ch, st, st', t);
    var s := st.workers[t].slot;
    var sibling := if s % 2 == 0 then s + 1 else s - 1;
    assert SlotOk(ch, st, s) && SlotOk(ch, st, s / 2);
    forall u: nat | u < ch.n ensures WorkerOk(ch, st', u) {
      assert WorkerOk(ch, st, u);
      ToggleWorker(ch, st, st', t, u);
    }
    assert Combiner(st, sibling) ==> WorkerOk(ch, st, st.carrier[sibling]);
    forall c: nat | 1 <= c < 2 * ch.n ensures SlotOk(ch, st', c) {
      assert SlotOk(ch, st, c);
      ToggleSlot(ch, st, st', t, c);
      ToggleSpine(ch, st, st', t, c);
    }
  }

  lemma ToggleNode(ch: Chunk, st: State, st': State, t: nat, q: nat)
    requires Inv(ch, st) && ToggleStep(ch, st, st', t) && 1 <= q < 2 * ch.n
    ensures NodeOk(ch, st', q)
  {
    var s := st.workers[t].slot;
    assert WorkerOk(ch, st, t) && NodeOk(ch, st, q);
    assert s == 2 * (s / 2) || s == 2 * (s / 2) + 1;
  }

  ghost predicate Arrived(st: State, st': State, t: nat)
    requires t < |st.workers| && t < |st'.workers|
  {
    var s := st.workers[t].slot;
    var sibling := if s % 2 == 0 then s + 1 else s - 1;
    && s > 0 && s !in st.fed && sibling / 2 == s / 2
    && st'.workers[t] == Worker(s, if sibling in st.fed then Combining else Gone)
  }

  /** Which arrival a toggle was: the second one exactly if the sibling had been fed. */
  lemma ToggleOrder(ch: Chunk, st: State, st': State, t: nat)
    requires Inv(ch, st) && ToggleStep(ch, st, st', t)
    ensures Arrived(st, st', t)
  {
    var s := st.workers[t].slot;
    assert WorkerOk(ch, st, t) && NodeOk(ch, st, s / 2);
    ToggleWorks(ch.base[s / 2]);
  }

  lemma ToggleWorker(ch: Chunk, st: State, st': State, t: nat, u: nat)
    requires ChunkOk(ch) && |st.workers| == ch.n && ToggleStep(ch, st, st', t) && Arrived(st, st', t) && u < ch.n
    requires WorkerOk(ch, st, t) && WorkerOk(ch, st, u) && SlotOk(ch, st, st.workers[t].slot / 2)
    requires st.results != [] ==> 2 in st.fed && 3 in st.fed
    ensures WorkerOk(ch, st', u)
  {
    var s := st.workers[t].slot;
    if u == t {
      assert s / 2 == 1 ==> st.results == [];
    } else {
      assert st.workers[u].slot != s;
    }
  }

  lemma ToggleSlot(ch: Chunk, st: State, st': State, t: nat, c: nat)
    requires ChunkOk(ch) && |st.workers| == ch.n && ToggleStep(ch, st, st', t) && Arrived(st, st', t)
    requires 1 <= c < 2 * ch.n
    requires WorkerOk(ch, st, t) && SlotHeld(ch, st, c) && SlotMeets(ch, st, c)
    requires var s := st.workers[t].slot;
             var sibling := if s % 2 == 0 then s + 1 else s - 1;
             Combiner(st, sibling) ==> WorkerOk(ch, st, st.carrier[sibling])
    ensures SlotHeld(ch, st', c) && SlotMeets(ch, st', c)
  {
    var s := st.workers[t].slot;
    CombinersKept(st, st', t, s, 2 * c);
    CombinersKept(st, st', t, s, 2 * c + 1);
    var sibling := if s % 2 == 0 then s + 1 else s - 1;
    if c == s / 2 {
      assert Combiner(st', s) <==> sibling in st.fed;
    }
  }

  lemma ToggleSpine(ch: Chunk, st: State, st': State, t: nat, c: nat)
    requires ChunkOk(ch) && |st.workers| == ch.n && MainOk(ch, st) && ToggleStep(ch, st, st', t) && 1 <= c < 2 * ch.n
    requires WorkerOk(ch, st, t) && SlotHeld(ch, st, c) && SlotSpine(ch, st, c)
    ensures SlotSpine(ch, st', c)
  {
  }

  lemma CombinersKept(st: State, st': State, t: nat, s: nat, x: nat)
    requires t < |st.workers| && st.workers[t].slot == s && st'.carrier == st.carrier
    requires |st'.workers| == |st.workers| && st'.workers == st.workers[t := st'.workers[t]] && st'.workers[t].slot == s
    ensures x != s ==> (Combiner(st', x) <==> Combiner(st, x))
  {
  }

  lemma CombineKeeps(ch: Chunk, st: State, st': State, t: nat)
    requires Inv(ch, st) && CombineStep(ch, st, st', t)
    ensures Inv(ch, st')
  {
    var p := st.workers[t].slot / 2;
    assert WorkerOk(ch, st, t) && NodeOk(ch, st, p);
    forall q: nat | 1 <= q < 2 * ch.n ensures NodeOk(ch, st', q) { assert NodeOk(ch, st, q); }
    assert SlotOk(ch, st, p) && SlotOk(ch, st, ch.n + t);
    forall u: nat | u < ch.n ensures WorkerOk(ch, st', u) {
      assert WorkerOk(ch, st, u);
      CombineWorker(ch, st, st', t, u);
    }
    assert SlotOk(ch, st, 2 * p + 1);
    forall c: nat | 1 <= c < 2 * ch.n ensures SlotOk(ch, st', c) {
      assert SlotOk(ch, st, c);
      CombineSlot(ch, st, st', t, c);
      CombineSpine(ch, st, st', t, c);
    }
  }

  lemma CombineWorker(ch: Chunk, st: State, st': State, t: nat, u: nat)
    requires ChunkOk(ch) && |st.workers| == ch.n && CombineStep(ch, st, st', t) && u < ch.n
    requires WorkerOk(ch, st, t) && WorkerOk(ch, st, u) && NodeOk(ch, st, st.workers[t].slot / 2)
    requires SlotOk(ch, st, st.workers[t].slot / 2) && SlotOk(ch, st, ch.n + t)
    ensures WorkerOk(ch, st', u)
  {
    if u == t {
      CombineSelf(ch, st, st', t);
    } else {
      CombineOther(ch, st, st', t, u);
    }
  }

  /** What the second arrival computes is the hash of the node's subtree. */
  lemma CombineSelf(ch: Chunk, st: State, st': State, t: nat)
    requires ChunkOk(ch) && |st.workers| == ch.n && CombineStep(ch, st, st', t)
    requires WorkerOk(ch, st, t) && NodeOk(ch, st, st.workers[t].slot / 2)
    requires SlotHeld(ch, st, st.workers[t].slot / 2) && SlotHeld(ch, st, ch.n + t)
    ensures WorkerOk(ch, st', t)
  {
    var s := st.workers[t].slot;
    var p := s / 2;
    if p > 1 {
      assert ch.hash(st.nodes[p].left + st.nodes[p].right) == Value(ch, p);
    }
  }

  /** No other goroutine is combining at the same node, and none has brought its value. */
  lemma Apart(ch: Chunk, st: State, t: nat, u: nat)
    requires ChunkOk(ch) && |st.workers| == ch.n && t < ch.n && u < ch.n && u != t
    requires WorkerOk(ch, st, t) && WorkerOk(ch, st, u) && st.workers[t].pc == Combining
    requires st.workers[t].slot / 2 >= 1 && SlotMeets(ch, st, st.workers[t].slot / 2)
    ensures st.workers[u].pc == Combining ==> st.workers[u].slot / 2 != st.workers[t].slot / 2
    ensures st.workers[u].slot != st.workers[t].slot / 2
  {
    var s, c := st.workers[t].slot, st.workers[u].slot;
    assert Combiner(st, s) && (st.workers[u].pc == Combining ==> Combiner(st, c));
    assert c != s && (c / 2 == s / 2 ==> {c, s} == {2 * (s / 2), 2 * (s / 2) + 1});
  }

  lemma CombineOther(ch: Chunk, st: State, st': State, t: nat, u: nat)
    requires ChunkOk(ch) && |st.workers| == ch.n && CombineStep(ch, st, st', t) && u < ch.n && u != t
    requires WorkerOk(ch, st, t) && WorkerOk(ch, st, u) && NodeOk(ch, st, st.workers[t].slot / 2)
    requires SlotMeets(ch, st, st.workers[t].slot / 2)
    ensures WorkerOk(ch, st', u)
  {
    Apart(ch, st, t, u);
  }

  lemma CombineSlot(ch: Chunk, st: State, st': State, t: nat, c: nat)
    requires ChunkOk(ch) && |st.workers| == ch.n && CombineStep(ch, st, st', t) && 1 <= c < 2 * ch.n
    requires WorkerOk(ch, st, t) && SlotHeld(ch, st, c) && SlotMeets(ch, st, c)
    requires var p := st.workers[t].slot / 2; p !in st.carrier && (st.nodes[p].root <==> p == 1)
    ensures SlotHeld(ch, st', c) && SlotMeets(ch, st', c)
  {
    var s := st.workers[t].slot;
    var p := s / 2;
    CombinersMoved(st, st', t, p, 2 * c);
    CombinersMoved(st, st', t, p, 2 * c + 1);
  }

  /** A goroutine that has combined is no longer combining, and nobody else starts to. */
  lemma CombinersMoved(st: State, st': State, t: nat, p: nat, x: nat)
    requires t < |st.workers| && (st'.carrier == st.carrier || st'.carrier == st.carrier[p := t]) && p !in st.carrier
    requires |st'.workers| == |st.workers| && st'.workers == st.workers[t := st'.workers[t]]
    requires st'.workers[t].pc != Combining
    requires st.workers[t].slot in st.carrier && st.carrier[st.workers[t].slot] == t
    ensures Combiner(st', x) <==> Combiner(st, x) && x != st.workers[t].slot
  {
  }

  lemma CombineSpine(ch: Chunk, st: State, st': State, t: nat, c: nat)
    requires ChunkOk(ch) && |st.workers| == ch.n && CombineStep(ch, st, st', t) && 1 <= c < 2 * ch.n
    requires WorkerOk(ch, st, t) && SlotSpine(ch, st, c) && SlotSpine(ch, st, 2 * (st.workers[t].slot / 2) + 1)
    ensures SlotSpine(ch, st', c)
  {
    OnesGrow(st.workers[t].slot / 2);
  }

  lemma OnesGrow(p: nat)
    ensures AllOnes(p) ==> AllOnes(2 * p + 1)
  {
    assert (2 * p + 1) / 2 == p;
  }

  lemma StepKeeps(ch: Chunk, st: State, st': State)
    requires Inv(ch, st) && Step(ch, st, st')
    ensures Inv(ch, st')
  {
    if MainStep(ch, st, st') {
      if LaunchStep(ch, st, st') { LaunchKeeps(ch, st, st'); }
      else if SumStep(ch, st, st') { SumKeeps(ch, st, st'); }
      else if FinaliseStep(ch, st, st') { FinaliseKeeps(ch, st, st'); }
      else if LaunchLastStep(ch, st, st') { LaunchLastKeeps(ch, st, st'); }
      else { ReleaseKeeps(ch, st, st'); }
    } else {
      var t: nat :| WorkerStep(ch, st, st', t);
      if HashStep(ch, st, st', t) { HashKeeps(ch, st, st', t); }
      else if StoreStep(ch, st, st', t) { StoreKeeps(ch, st, st', t); }
      else if ToggleStep(ch, st, st', t) { ToggleKeeps(ch, st, st', t); }
      else { CombineKeeps(ch, st, st', t); }
    }
  }

  // ---- Termination ----

  function Depth(c: nat): nat {
    if c <= 1 then 0 else 1 + Depth(c / 2)
  }

  /** An upper bound on the steps a goroutine still takes. */
  function Rank(w: Worker): nat {
    match w.pc
    case Gone => 0
    case Combining => 3 * Depth(w.slot) + 1
    case Toggling(_) => 3 * Depth(w.slot) + 2
    case Storing(_) => 3 * Depth(w.slot) + 3
    case Launched => 3 * Depth(w.slot) + 4
    case Idle => 3 * Depth(w.slot) + 5
  }

  function Ranks(ws: seq<Worker>): nat {
    if ws == [] then 0 else Rank(ws[0]) + Ranks(ws[1..])
  }

  function MainRank(n: nat, main: Main): nat
    requires n > 0
  {
    var d := Depth(2 * n - 1);
    match main
    case Finished => 0
    case Releasing(p) => 1 + Depth(p)
    case Awaiting => 2 + d
    case LaunchingLast => 3 + d
    case Finalising(slot) => 3 + d + Depth(slot)
    case Launching(next) => 4 + 2 * d + if next <= n then n - next else 0
  }

  function Measure(n: nat, st: State): nat
    requires n > 0
  {
    MainRank(n, st.main) + Ranks(st.workers)
  }

  lemma {:induction false} RanksUpdate(ws: seq<Worker>, t: nat, w: Worker)
    requires t < |ws|
    ensures Ranks(ws[t := w]) == Ranks(ws) - Rank(ws[t]) + Rank(w)
    decreases ws
  {
    if t == 0 {
      assert ws[t := w][1..] == ws[1..];
    } else {
      RanksUpdate(ws[1..], t - 1, w);
      assert ws[t := w][1..] == ws[1..][t - 1 := w];
    }
  }

  lemma MainDecreases(ch: Chunk, st: State, st': State)
    requires ChunkOk(ch) && |st.workers| == ch.n && MainOk(ch, st) && MainStep(ch, st, st')
    requires st.main.Launching? ==> WorkerOk(ch, st, st.main.next)
    requires st.main == LaunchingLast ==> WorkerOk(ch, st, ch.n - 1)
    ensures Measure(ch.n, st') < Measure(ch.n, st)
  {
    if LaunchStep(ch, st, st') {
      RanksUpdate(st.workers, st.main.next, st'.workers[st.main.next]);
    } else if LaunchLastStep(ch, st, st') {
      RanksUpdate(st.workers, ch.n - 1, st'.workers[ch.n - 1]);
    }
  }

  lemma WorkerDecreases(ch: Chunk, st: State, st': State, t: nat)
    requires ChunkOk(ch) && |st.workers| == ch.n && WorkerStep(ch, st, st', t) && WorkerOk(ch, st, t)
    ensures Measure(ch.n, st') < Measure(ch.n, st)
  {
    RanksUpdate(st.workers, t, st'.workers[t]);
  }

  /** Every step brings the end closer, whichever goroutine takes it. */
  lemma StepDecreases(ch: Chunk, st: State, st': State)
    requires Inv(ch, st) && Step(ch, st, st')
    ensures Measure(ch.n, st') < Measure(ch.n, st)
  {
    if MainStep(ch, st, st') {
      assert st.main.Launching? ==> WorkerOk(ch, st, st.main.next);
      assert WorkerOk(ch, st, ch.n - 1);
      MainDecreases(ch, st, st');
    } else {
      var t: nat :| WorkerStep(ch, st, st', t);
      assert WorkerOk(ch, st, t);
      WorkerDecreases(ch, st, st', t);
    }
  }

  // ---- Progress ----

  /** If every goroutine is gone, every slot has been fed. */
  lemma {:induction false} AllGoneAllFed(ch: Chunk, st: State, c: nat)
    requires Inv(ch, st) && 2 <= c < 2 * ch.n
    requires forall t :: 0 <= t < ch.n ==> st.workers[t].pc == Gone
    ensures c in st.fed
    decreases 2 * ch.n - c
  {
    assert SlotOk(ch, st, c);
    if c < ch.n {
      AllGoneAllFed(ch, st, 2 * c);
      AllGoneAllFed(ch, st, 2 * c + 1);
    }
    assert c in st.carrier;
    assert WorkerOk(ch, st, st.carrier[c]);
  }

  /** While Sum waits for the result, some goroutine has not left. */
  lemma SomeoneLeft(ch: Chunk, st: State)
    requires Inv(ch, st) && st.main == Awaiting
    ensures exists t: nat :: t < ch.n && st.workers[t].pc != Gone
  {
    assert SlotOk(ch, st, 1);
    if forall t: nat :: t < ch.n ==> st.workers[t].pc == Gone {
      AllGoneAllFed(ch, st, 2);
      AllGoneAllFed(ch, st, 3);
    }
  }

  /** Until the tree is released some goroutine can take a step: nothing deadlocks. */
  lemma Progress(ch: Chunk, st: State) returns (st': State)
    requires Inv(ch, st) && st.main != Finished
    ensures Step(ch, st, st')
  {
    match st.main {
      case Launching(next) =>
        if next < ch.n - 1 {
          st' := st.(workers := st.workers[next := st.workers[next].(pc := Launched)], main := Launching(next + 1));
          assert LaunchStep(ch, st, st');
        } else {
          st' := st.(main := Finalising(2 * ch.n - 1));
          assert SumStep(ch, st, st');
        }
      case Finalising(slot) =>
        var p := slot / 2;
        assert NodeOk(ch, st, p);
        var nd := st.nodes[p].(unbalanced := slot % 2 == 0, right := [], root := st.nodes[p].root || p == 1);
        st' := st.(nodes := st.nodes[p := nd], main := if p == 1 then LaunchingLast else Finalising(p));
        assert FinaliseStep(ch, st, st');
      case LaunchingLast =>
        st' := st.(workers := st.workers[ch.n - 1 := st.workers[ch.n - 1].(pc := Launched)], main := Awaiting);
        assert LaunchLastStep(ch, st, st');
      case Awaiting =>
        SomeoneLeft(ch, st);
        var t: nat :| t < ch.n && st.workers[t].pc != Gone;
        st' := WorkerCanStep(ch, st, t);
        assert WorkerStep(ch, st, st', t);
      case Releasing(p) =>
        assert NodeOk(ch, st, p);
        var nd := st.nodes[p].(unbalanced := false, root := if p == 1 then st.nodes[p].root else false);
        st' := st.(nodes := st.nodes[p := nd], main := if p == 1 then Finished else Releasing(p / 2));
        assert ReleaseStep(ch, st, st');
    }
  }

  lemma WorkerCanStep(ch: Chunk, st: State, t: nat) returns (st': State)
    requires Inv(ch, st) && st.main == Awaiting && t < ch.n && st.workers[t].pc != Gone
    ensures WorkerStep(ch, st, st', t)
  {
    var w := st.workers[t];
    var p := w.slot / 2;
    assert WorkerOk(ch, st, t) && NodeOk(ch, st, p);
    match w.pc {
      case Launched =>
        st' := st.(workers := st.workers[t := w.(pc := Storing(ch.hash(ch.segs[t])))]);
        assert HashStep(ch, st, st', t);
      case Storing(s) =>
        st' := st.(nodes := st.nodes[p := Store(st.nodes[p], w.slot, s)],
                   workers := st.workers[t := w.(pc := Toggling(s))]);
        assert StoreStep(ch, st, st', t);
      case Toggling(s) =>
        var nd := st.nodes[p];
        st' := st.(nodes := st.nodes[p := nd.(state := Inc32(nd.state))],
                   workers := st.workers[t := w.(pc := if TogglesToWait(nd.state) then Gone else Combining)],
                   fed := st.fed + {w.slot});
        assert ToggleStep(ch, st, st', t);
      case Combining =>
        var s := ch.hash(st.nodes[p].left + st.nodes[p].right);
        if st.nodes[p].root {
          st' := st.(workers := st.workers[t := w.(pc := Gone)], main := Releasing(2 * ch.n - 1),
                     results := st.results + [s]);
        } else {
          st' := st.(workers := st.workers[t := Worker(p, Storing(s))], carrier := st.carrier[p := t]);
        }
        assert CombineStep(ch, st, st', t);
    }
  }

  // ---- Runs ----

  ghost predicate IsRun(ch: Chunk, run: seq<State>) {
    && run != [] && Init(ch, run[0])
    && forall i :: 0 <= i < |run| - 1 ==> Step(ch, run[i], run[i + 1])
  }

  lemma {:induction false} RunKeeps(ch: Chunk, run: seq<State>, i: nat)
    requires ChunkOk(ch) && IsRun(ch, run) && i < |run|
    ensures Inv(ch, run[i])
    ensures Measure(ch.n, run[i]) + i <= Measure(ch.n, run[0])
    decreases i
  {
    if i == 0 {
      InitOk(ch, run[0]);
    } else {
      RunKeeps(ch, run, i - 1);
      assert Step(ch, run[i - 1], run[i - 1 + 1]);
      StepKeeps(ch, run[i - 1], run[i]);
      StepDecreases(ch, run[i - 1], run[i]);
    }
  }

  /** Once the result is out, every slot has been fed. */
  lemma {:induction false} ResultAllFed(ch: Chunk, st: State, c: nat)
    requires Inv(ch, st) && st.results != [] && 2 <= c < 2 * ch.n
    ensures c in st.fed
    decreases c
  {
    if c >= 4 {
      ResultAllFed(ch, st, c / 2);
      assert SlotOk(ch, st, c / 2);
    }
  }

  /** The tree as the pool gets it back: flags as in a new tree, toggles even again. */
  ghost predicate Returned(ch: Chunk, nodes: map<nat, Node>)
    requires ChunkOk(ch)
  {
    forall p: nat :: 1 <= p < 2 * ch.n ==>
      && p in nodes && Clean(nodes[p], p)
      && nodes[p].state == (if p < ch.n then Inc32(Inc32(ch.base[p])) else ch.base[p])
      && nodes[p].state % 2 == 0
  }

  /**
   Every interleaving.  It is no longer than the measure of its first state; it delivers at most
   one result, and that is the root's hash; and when no goroutine can step any more, exactly one
   result has been delivered and the tree is back in its resting state.
   */
  lemma EveryInterleaving(ch: Chunk, run: seq<State>)
    requires ChunkOk(ch) && IsRun(ch, run)
    ensures var last := run[|run| - 1];
            && |run| - 1 <= Measure(ch.n, run[0])
            && (last.results == [] || last.results == [Value(ch, 1)])
            && ((forall st' :: !Step(ch, last, st')) ==>
                  && last.main == Finished && last.results == [Value(ch, 1)]
                  && Returned(ch, last.nodes))
  {
    var last := run[|run| - 1];
    RunKeeps(ch, run, |run| - 1);
    if last.main != Finished {
      var st' := Progress(ch, last);
    } else {
      FinishedReturned(ch, last);
    }
  }

  lemma FinishedReturned(ch: Chunk, st: State)
    requires Inv(ch, st) && st.results != []
    ensures Returned(ch, st.nodes)
  {
    forall p: nat | 1 <= p < 2 * ch.n
      ensures p in st.nodes && Clean(st.nodes[p], p)
      ensures st.nodes[p].state == (if p < ch.n then Inc32(Inc32(ch.base[p])) else ch.base[p])
      ensures st.nodes[p].state % 2 == 0
    {
      assert NodeOk(ch, st, p);
      if p < ch.n {
        ResultAllFed(ch, st, 2 * p);
        ResultAllFed(ch, st, 2 * p + 1);
      }
      ToggleWorks(ch.base[p]);
    }
  }

  // ---- A worn-out toggle ----

  /** Two double segments under one node whose counter has turned negative. */
  ghost predicate WornOut(ch: Chunk) {
    && ch.n == 2 && |ch.segs| == 2
    && (forall p: nat :: p in ch.base <==> 1 <= p < 4)
    && INT32_MIN <= ch.base[1] < 0 && ch.base[1] % 2 == 0
  }

  lemma OneMoreStep(ch: Chunk, run: seq<State>, st: State)
    requires IsRun(ch, run) && Step(ch, run[|run| - 1], st)
    ensures IsRun(ch, run + [st])
  {
    var more := run + [st];
    forall i | 0 <= i < |more| - 1 ensures Step(ch, more[i], more[i + 1]) {
      if i < |run| - 1 { assert Step(ch, run[i], run[i + 1]); }
    }
  }

  /** The goroutine of Write and Sum runs up to the point where it waits for the result. */
  lemma UpToAwaiting(ch: Chunk, st: State) returns (run: seq<State>)
    requires WornOut(ch) && Init(ch, st)
    ensures IsRun(ch, run) && run[0] == st
    ensures run[|run| - 1] == st.(nodes := st.nodes[1 := st.nodes[1].(unbalanced := false, right := [])],
                                  workers := [Worker(2, Launched), Worker(3, Launched)], main := Awaiting)
  {
    var s1 := st.(workers := st.workers[0 := Worker(2, Launched)], main := Launching(1));
    assert LaunchStep(ch, st, s1);
    var s2 := s1.(main := Finalising(3));
    assert SumStep(ch, s1, s2);
    var s3 := s2.(nodes := s2.nodes[1 := s2.nodes[1].(unbalanced := false, right := [])], main := LaunchingLast);
    assert FinaliseStep(ch, s2, s3);
    var s4 := s3.(workers := s3.workers[1 := Worker(3, Launched)], main := Awaiting);
    assert LaunchLastStep(ch, s3, s4);
    run := [st];
    OneMoreStep(ch, run, s1);
    OneMoreStep(ch, run + [s1], s2);
    OneMoreStep(ch, run + [s1] + [s2], s3);
    OneMoreStep(ch, run + [s1] + [s2] + [s3], s4);
    run := run + [s1] + [s2] + [s3] + [s4];
    assert s4.workers == [Worker(2, Launched), Worker(3, Launched)];
  }

  /** One goroutine goes from its segment to the toggle, which does not hold it back. */
  lemma UpToCombining(ch: Chunk, run: seq<State>, t: nat) returns (more: seq<State>)
    requires WornOut(ch) && IsRun(ch, run) && t < 2
    requires var st := run[|run| - 1];
             && |st.workers| == 2 && st.workers[t] == Worker(2 + t, Launched)
             && 1 in st.nodes && !st.nodes[1].unbalanced && INT32_MIN <= st.nodes[1].state < 0
    ensures IsRun(ch, more) && more[0] == run[0]
    ensures var st := run[|run| - 1];
            var nd := Store(st.nodes[1], 2 + t, ch.hash(ch.segs[t]));
            more[|more| - 1] == st.(nodes := st.nodes[1 := nd.(state := Inc32(nd.state))],
                                    workers := st.workers[t := Worker(2 + t, Combining)], fed := st.fed + {2 + t})
  {
    var s1, s2, s3 := ThreeSteps(ch, run[|run| - 1], t);
    OneMoreStep(ch, run, s1);
    OneMoreStep(ch, run + [s1], s2);
    OneMoreStep(ch, run + [s1] + [s2], s3);
    more := run + [s1] + [s2] + [s3];
  }

  lemma ThreeSteps(ch: Chunk, st: State, t: nat) returns (s1: State, s2: State, s3: State)
    requires WornOut(ch) && t < 2 && |st.workers| == 2 && st.workers[t] == Worker(2 + t, Launched)
    requires 1 in st.nodes && !st.nodes[1].unbalanced && INT32_MIN <= st.nodes[1].state < 0
    ensures Step(ch, st, s1) && Step(ch, s1, s2) && Step(ch, s2, s3)
    ensures var nd := Store(st.nodes[1], 2 + t, ch.hash(ch.segs[t]));
            s3 == st.(nodes := st.nodes[1 := nd.(state := Inc32(nd.state))],
                      workers := st.workers[t := Worker(2 + t, Combining)], fed := st.fed + {2 + t})
  {
    var h := ch.hash(ch.segs[t]);
    s1 := st.(workers := st.workers[t := Worker(2 + t, Storing(h))]);
    assert HashStep(ch, st, s1, t) && WorkerStep(ch, st, s1, t);
    s2 := s1.(nodes := s1.nodes[1 := Store(s1.nodes[1], 2 + t, h)],
              workers := s1.workers[t := Worker(2 + t, Toggling(h))]);
    assert StoreStep(ch, s1, s2, t) && WorkerStep(ch, s1, s2, t);
    var nd := s2.nodes[1];
    s3 := s2.(nodes := s2.nodes[1 := nd.(state := Inc32(nd.state))],
              workers := s2.workers[t := Worker(2 + t, Combining)], fed := s2.fed + {2 + t});
    assert ToggleStep(ch, s2, s3, t) && WorkerStep(ch, s2, s3, t);
  }

  /**
   What a worn-out toggle can lead to: the first goroutine does not wait for the second, so the
   hash of the first segment alone is delivered, and the second one waits for ever to deliver.
   */
  lemma WrongResult(ch: Chunk, st: State) returns (run: seq<State>)
    requires WornOut(ch) && Init(ch, st)
    ensures IsRun(ch, run) && run[0] == st
    ensures var last := run[|run| - 1];
            && last.results == [ch.hash(ch.hash(ch.segs[0]))] && last.main == Finished
            && |last.workers| == 2 && last.workers[1].pc == Combining && forall st' :: !Step(ch, last, st')
  {
    run := UpToAwaiting(ch, st);
    run := UpToCombining(ch, run, 0);
    var delivered := FirstDelivers(ch, run[|run| - 1]);
    OneMoreStep(ch, run, delivered);
    run := UpToCombining(ch, run + [delivered], 1);
    run := Released(ch, run);
  }

  lemma FirstDelivers(ch: Chunk, st: State) returns (st': State)
    requires WornOut(ch) && |st.workers| == 2 && st.workers[0] == Worker(2, Combining) && 1 in st.nodes
    requires st.main == Awaiting && st.nodes[1].root
    requires st.nodes[1].left == ch.hash(ch.segs[0]) && st.nodes[1].right == []
    ensures Step(ch, st, st')
    ensures st' == st.(workers := st.workers[0 := Worker(2, Gone)], main := Releasing(3),
                       results := st.results + [ch.hash(ch.hash(ch.segs[0]))])
  {
    assert st.nodes[1].left + st.nodes[1].right == ch.hash(ch.segs[0]);
    st' := st.(workers := st.workers[0 := Worker(2, Gone)], main := Releasing(3),
               results := st.results + [ch.hash(ch.hash(ch.segs[0]))]);
    assert CombineStep(ch, st, st', 0) && WorkerStep(ch, st, st', 0);
  }

  lemma Released(ch: Chunk, run: seq<State>) returns (more: seq<State>)
    requires WornOut(ch) && IsRun(ch, run)
    requires var st := run[|run| - 1];
             && st.main == Releasing(3) && 1 in st.nodes && 3 in st.nodes && st.nodes[1].root
             && st.workers == [Worker(2, Gone), Worker(3, Combining)]
    ensures IsRun(ch, more) && more[0] == run[0]
    ensures var last := more[|more| - 1];
            && last.results == run[|run| - 1].results && last.main == Finished
            && |last.workers| == 2 && last.workers[1].pc == Combining && forall st' :: !Step(ch, last, st')
  {
    var st := run[|run| - 1];
    var s1 := st.(nodes := st.nodes[3 := st.nodes[3].(unbalanced := false, root := false)], main := Releasing(1));
    assert ReleaseStep(ch, st, s1);
    var s2 := s1.(nodes := s1.nodes[1 := s1.nodes[1].(unbalanced := false)], main := Finished);
    assert ReleaseStep(ch, s1, s2);
    OneMoreStep(ch, run, s1);
    OneMoreStep(ch, run + [s1], s2);
    more := run + [s1] + [s2];
  }
}
