/**
 The eight-way trees behind les/randselect.go as values: nodes cache the weight and the number of
 the items below them, and a tree stands for the row of its leaf slots.
 */
module WeightTree {
  import opened Types

  const BRANCHES: nat := 8

  type Item = nat

  datatype Slot = Nil | Leaf(item: Item) | Sub(node: Node)

  datatype Node = Node(items: seq<Slot>, weights: seq<int>, sumWeight: int, level: nat, itemCnt: int, maxItems: nat)

  datatype Entry = Entry(item: Item, weight: nat)

  // ---- Rows of leaf slots ----

  function WeightOf(e: Option<Entry>): nat {
    if e.Some? then e.value.weight else 0
  }

  /** The weight of the first k slots. */
  function Sum(row: seq<Option<Entry>>, k: nat): nat
    requires k <= |row|
  {
    if k == 0 then 0 else Sum(row, k - 1) + WeightOf(row[k - 1])
  }

  /** How many of the first k slots are taken. */
  function Taken(row: seq<Option<Entry>>, k: nat): (c: nat)
    requires k <= |row|
    ensures c <= k
  {
    if k == 0 then 0 else Taken(row, k - 1) + if row[k - 1].Some? then 1 else 0
  }

  function Total(row: seq<Option<Entry>>): nat {
    Sum(row, |row|)
  }

  function Count(row: seq<Option<Entry>>): (c: nat)
    ensures c <= |row|
  {
    Taken(row, |row|)
  }

  function Blank(k: nat): (row: seq<Option<Entry>>)
    ensures |row| == k && forall i :: 0 <= i < k ==> row[i] == None
  {
    seq(k, i => None)
  }

  lemma {:induction false} SumsAgree(a: seq<Option<Entry>>, b: seq<Option<Entry>>, k: nat)
    requires k <= |a| && k <= |b| && forall i :: 0 <= i < k ==> a[i] == b[i]
    ensures Sum(a, k) == Sum(b, k) && Taken(a, k) == Taken(b, k)
  {
    if k > 0 { SumsAgree(a, b, k - 1); }
  }

  lemma {:induction false} SumsAppend(a: seq<Option<Entry>>, b: seq<Option<Entry>>, all: seq<Option<Entry>>, k: nat)
    requires k <= |b| && a + b <= all
    ensures Sum(all, |a| + k) == Total(a) + Sum(b, k)
    ensures Taken(all, |a| + k) == Count(a) + Taken(b, k)
    decreases k
  {
    if k == 0 {
      SumsAgree(a, all, |a|);
    } else {
      SumsAppend(a, b, all, k - 1);
      assert all[|a| + k - 1] == (a + b)[|a| + k - 1] == b[k - 1];
    }
  }

  lemma SumsConcat(a: seq<Option<Entry>>, b: seq<Option<Entry>>)
    ensures Total(a + b) == Total(a) + Total(b)
    ensures Count(a + b) == Count(a) + Count(b)
  {
    SumsAppend(a, b, a + b, |b|);
  }

  lemma {:induction false} SumsBlank(row: seq<Option<Entry>>, k: nat)
    requires k <= |row| && forall i :: 0 <= i < |row| ==> row[i] == None
    ensures Sum(row, k) == 0 && Taken(row, k) == 0
  {
    if k > 0 { SumsBlank(row, k - 1); }
  }

  lemma {:induction false} SumsUpdate(row: seq<Option<Entry>>, i: nat, e: Option<Entry>, k: nat)
    requires i < |row| && k <= |row|
    ensures Sum(row[i := e], k) == Sum(row, k) + if i < k then Gain(row[i], e) else 0
    ensures Taken(row[i := e], k) == Taken(row, k) + if i < k then Growth(row[i], e) else 0
  {
    if k > 0 { SumsUpdate(row, i, e, k - 1); }
  }

  function Gain(was: Option<Entry>, e: Option<Entry>): int {
    WeightOf(e) - WeightOf(was)
  }

  function Growth(was: Option<Entry>, e: Option<Entry>): int {
    (if e.Some? then 1 else 0) - (if was.Some? then 1 else 0)
  }

  // ---- Trees ----

  /** The number of leaf slots below one branch of a node at a level. */
  function Width(level: nat): (w: nat)
    ensures w > 0
  {
    if level == 0 then 1 else BRANCHES * Width(level - 1)
  }

  predicate Sized(n: Node) {
    |n.items| == BRANCHES == |n.weights|
  }

  /** The leaf slots below a branch. */
  ghost function BranchRow(n: Node, level: nat, b: nat): (row: seq<Option<Entry>>)
    requires Sized(n) && b < BRANCHES
    ensures |row| == Width(level)
    decreases level, 0, b
  {
    match n.items[b]
    case Leaf(item) =>
      if level == 0 && n.weights[b] >= 0 then [Some(Entry(item, n.weights[b]))] else Blank(Width(level))
    case Sub(node) => if level > 0 && Sized(node) then Row(node, level - 1, BRANCHES) else Blank(Width(level))
    case Nil => Blank(Width(level))
  }

  /** The leaf slots below the first k branches. */
  ghost function Row(n: Node, level: nat, k: nat): (row: seq<Option<Entry>>)
    requires Sized(n) && k <= BRANCHES
    ensures |row| == Width(level) * k
    decreases level, 1, k
  {
    if k == 0 then [] else Row(n, level, k - 1) + BranchRow(n, level, k - 1)
  }

  ghost function Flat(n: Node): seq<Option<Entry>>
    requires Sized(n)
  {
    Row(n, n.level, BRANCHES)
  }

  /** A branch holds what its level calls for, and its cached weight is that of its slots. */
  ghost predicate BranchOk(n: Node, level: nat, b: nat)
    requires Sized(n) && b < BRANCHES
    decreases level, 0
  {
    && n.weights[b] == Total(BranchRow(n, level, b))
    && match n.items[b]
       case Nil => true
       case Leaf(item) => level == 0 && n.weights[b] > 0
       case Sub(node) => level > 0 && TreeOk(node, level - 1)
  }

  /** Node sums and item counts match the slots below. */
  ghost predicate TreeOk(n: Node, level: nat)
    decreases level, 1
  {
    && Sized(n) && n.level == level && n.maxItems == Width(level + 1)
    && n.sumWeight == Total(Row(n, level, BRANCHES))
    && n.itemCnt == Count(Row(n, level, BRANCHES))
    && forall b: nat {:trigger BranchOk(n, level, b)} :: b < BRANCHES ==> BranchOk(n, level, b)
  }

  /** Slot s below branch b, counted over the whole node. */
  function SlotIndex(width: nat, b: nat, s: nat): nat {
    width * b + s
  }

  lemma {:induction false} RowsAgree(n: Node, n': Node, level: nat, k: nat)
    requires Sized(n) && Sized(n') && k <= BRANCHES
    requires forall b: nat :: b < k ==> n.items[b] == n'.items[b] && n.weights[b] == n'.weights[b]
    ensures Row(n, level, k) == Row(n', level, k)
    decreases k
  {
    if k > 0 { RowsAgree(n, n', level, k - 1); }
  }

  /** Changing one slot below one branch changes that slot of the whole row. */
  lemma {:induction false} BranchUpdate(n: Node, n': Node, level: nat, b: nat, s: nat, e: Option<Entry>, k: nat)
    requires Sized(n) && Sized(n') && b < k <= BRANCHES && s < Width(level)
    requires forall c: nat :: c < BRANCHES && c != b ==> n.items[c] == n'.items[c] && n.weights[c] == n'.weights[c]
    requires BranchRow(n', level, b) == BranchRow(n, level, b)[s := e]
    ensures 0 <= SlotIndex(Width(level), b, s) < |Row(n, level, k)|
    ensures Row(n, level, k)[SlotIndex(Width(level), b, s)] == BranchRow(n, level, b)[s]
    ensures Row(n', level, k) == Row(n, level, k)[SlotIndex(Width(level), b, s) := e]
    decreases k
  {
    var w, row, last := Width(level), Row(n, level, k - 1), BranchRow(n, level, k - 1);
    if k == b + 1 {
      RowsAgree(n, n', level, b);
      UpdateRight(row, last, s, e);
    } else {
      BranchUpdate(n, n', level, b, s, e, k - 1);
      assert last == BranchRow(n', level, k - 1);
      UpdateLeft(row, last, SlotIndex(w, b, s), e);
    }
  }

  lemma UpdateRight(a: seq<Option<Entry>>, b: seq<Option<Entry>>, i: nat, e: Option<Entry>)
    requires i < |b|
    ensures (a + b)[|a| + i] == b[i] && (a + b)[|a| + i := e] == a + b[i := e]
  {
  }

  lemma UpdateLeft(a: seq<Option<Entry>>, b: seq<Option<Entry>>, i: nat, e: Option<Entry>)
    requires i < |a|
    ensures (a + b)[i] == a[i] && (a + b)[i := e] == a[i := e] + b
  {
  }

  lemma {:induction false} RowTotals(n: Node, level: nat, k: nat)
    requires Sized(n) && k < BRANCHES
    ensures Total(Row(n, level, k + 1)) == Total(Row(n, level, k)) + Total(BranchRow(n, level, k))
    ensures Count(Row(n, level, k + 1)) == Count(Row(n, level, k)) + Count(BranchRow(n, level, k))
  {
    SumsConcat(Row(n, level, k), BranchRow(n, level, k));
  }

  /** A branch without room: a taken leaf slot, or a subtree that is full. */
  predicate BranchFull(n: Node, b: nat)
    requires b < |n.items|
  {
    match n.items[b]
    case Nil => false
    case Leaf(_) => true
    case Sub(node) => node.itemCnt == node.maxItems
  }

  lemma FullCount(n: Node, level: nat, b: nat)
    requires TreeOk(n, level) && b < BRANCHES
    ensures BranchFull(n, b) ==> Count(BranchRow(n, level, b)) == Width(level)
    ensures n.items[b].Sub? && !BranchFull(n, b) ==> n.items[b].node.itemCnt < n.items[b].node.maxItems
  {
    assert BranchOk(n, level, b);
    match n.items[b]
    case Nil =>
    case Leaf(_) =>
      LeafRow(n, b);
    case Sub(node) =>
      assert TreeOk(node, level - 1);
      assert BranchRow(n, level, b) == Row(node, level - 1, BRANCHES);
      assert node.maxItems == Width(level) == |Row(node, level - 1, BRANCHES)|;
  }

  /** The node with another thing at branch b, and its caches adjusted by the change below. */
  function Adjusted(n: Node, b: nat, slot: Slot, diff: int, grown: int): Node
    requires Sized(n) && b < BRANCHES
  {
    n.(items := n.items[b := slot], weights := n.weights[b := n.weights[b] + diff],
       sumWeight := n.sumWeight + diff, itemCnt := n.itemCnt + grown)
  }

  lemma StoredOk(n: Node, level: nat, b: nat, slot: Slot, s: nat, e: Option<Entry>, diff: int, grown: int)
    requires TreeOk(n, level) && b < BRANCHES && s < Width(level)
    requires diff == Gain(BranchRow(n, level, b)[s], e) && grown == Growth(BranchRow(n, level, b)[s], e)
    requires var n' := Adjusted(n, b, slot, diff, grown);
             BranchRow(n', level, b) == BranchRow(n, level, b)[s := e] && BranchOk(n', level, b)
    ensures var n' := Adjusted(n, b, slot, diff, grown);
            var j := SlotIndex(Width(level), b, s);
            && TreeOk(n', level) && j < |Flat(n)|
            && Flat(n)[j] == BranchRow(n, level, b)[s] && Flat(n') == Flat(n)[j := e]
  {
    var n' := Adjusted(n, b, slot, diff, grown);
    BranchUpdate(n, n', level, b, s, e, BRANCHES);
    SumsUpdate(Flat(n), SlotIndex(Width(level), b, s), e, |Flat(n)|);
    OthersOk(n, n', level, b);
  }

  lemma OthersOk(n: Node, n': Node, level: nat, b: nat)
    requires Sized(n') && TreeOk(n, level) && b < BRANCHES
    requires forall c: nat :: c < BRANCHES && c != b ==> n.items[c] == n'.items[c] && n.weights[c] == n'.weights[c]
    ensures forall c: nat {:trigger BranchOk(n', level, c)} :: c < BRANCHES && c != b ==> BranchOk(n', level, c)
  {
    forall c: nat | c < BRANCHES && c != b ensures BranchOk(n', level, c) {
      assert BranchOk(n, level, c);
      assert BranchRow(n', level, c) == BranchRow(n, level, c);
    }
  }

  /** At the lowest level. */
  lemma LeafStored(n: Node, b: nat, slot: Slot, e: Option<Entry>, diff: int, grown: int)
    requires n.level == 0 && TreeOk(n, n.level) && b < BRANCHES
    requires diff == Gain(BranchRow(n, n.level, b)[0], e) && grown == Growth(BranchRow(n, n.level, b)[0], e)
    requires slot == match e case None => Nil case Some(x) => Leaf(x.item)
    requires e.Some? ==> e.value.weight > 0
    ensures var n' := Adjusted(n, b, slot, diff, grown);
            && TreeOk(n', n.level) && b < |Flat(n)|
            && Flat(n)[b] == BranchRow(n, n.level, b)[0] && Flat(n') == Flat(n)[b := e]
  {
    assert BranchOk(n, n.level, b);
    LeafChanged(n, b, slot, e, diff, grown);
    StoredOk(n, n.level, b, slot, 0, e, diff, grown);
  }

  lemma LeafChanged(n: Node, b: nat, slot: Slot, e: Option<Entry>, diff: int, grown: int)
    requires n.level == 0 && Sized(n) && b < BRANCHES && BranchOk(n, n.level, b)
    requires diff == Gain(BranchRow(n, n.level, b)[0], e)
    requires slot == match e case None => Nil case Some(x) => Leaf(x.item)
    requires e.Some? ==> e.value.weight > 0
    ensures var n' := Adjusted(n, b, slot, diff, grown);
            BranchRow(n', n.level, b) == BranchRow(n, n.level, b)[0 := e] && BranchOk(n', n.level, b)
  {
    LeafRow(n, b);
    var n' := Adjusted(n, b, slot, diff, grown);
    LeafRow(n', b);
    assert BranchRow(n', n'.level, b) == [e] == BranchRow(n, n.level, b)[0 := e];
  }

  lemma LeafRow(n: Node, b: nat)
    requires Sized(n) && b < BRANCHES
    requires n.level == 0 && (n.items[b] == Nil || (n.items[b].Leaf? && n.weights[b] > 0))
    ensures BranchRow(n, n.level, b) == [if n.items[b] == Nil then None else Some(Entry(n.items[b].item, n.weights[b]))]
    ensures Total(BranchRow(n, n.level, b)) == if n.items[b] == Nil then 0 else n.weights[b]
  {
    var row := BranchRow(n, n.level, b);
    assert Sum(row, 1) == Sum(row, 0) + WeightOf(row[0]);
  }

  /** Above the lowest level: the change in the subtree carries over. */
  lemma SubStored(n: Node, level: nat, b: nat, sub: Node, s: nat, e: Option<Entry>, diff: int, grown: int)
    requires level > 0 && TreeOk(n, level) && b < BRANCHES && s < Width(level) && TreeOk(sub, level - 1)
    requires Flat(sub) == BranchRow(n, level, b)[s := e]
    requires diff == Gain(BranchRow(n, level, b)[s], e) && grown == Growth(BranchRow(n, level, b)[s], e)
    ensures var n' := Adjusted(n, b, Sub(sub), diff, grown);
            var j := SlotIndex(Width(level), b, s);
            && TreeOk(n', level) && j < |Flat(n)|
            && Flat(n)[j] == BranchRow(n, level, b)[s] && Flat(n') == Flat(n)[j := e]
  {
    var n' := Adjusted(n, b, Sub(sub), diff, grown);
    assert BranchOk(n, level, b);
    SumsUpdate(BranchRow(n, level, b), s, e, Width(level));
    assert BranchRow(n', level, b) == Flat(sub);
    StoredOk(n, level, b, Sub(sub), s, e, diff, grown);
  }

  /** An empty node, and what it stands for. */
  function NewNode(level: nat, maxItems: nat): Node {
    Node(seq(BRANCHES, i => Nil), seq(BRANCHES, i => 0), 0, level, 0, maxItems)
  }

  lemma {:induction false} NilRow(n: Node, level: nat, k: nat)
    requires Sized(n) && k <= BRANCHES && forall b: nat :: b < k ==> n.items[b] == Nil
    ensures Row(n, level, k) == Blank(Width(level) * k)
    decreases k
  {
    if k > 0 { NilRow(n, level, k - 1); }
  }

  lemma NewNodeOk(level: nat)
    ensures TreeOk(NewNode(level, Width(level + 1)), level)
    ensures Flat(NewNode(level, Width(level + 1))) == Blank(Width(level + 1))
  {
    var n := NewNode(level, Width(level + 1));
    NilRow(n, level, BRANCHES);
    SumsBlank(Blank(Width(level + 1)), |Blank(Width(level + 1))|);
    forall b: nat | b < BRANCHES ensures BranchOk(n, level, b) {
      SumsBlank(BranchRow(n, level, b), |BranchRow(n, level, b)|);
      assert n.weights[b] == 0;
    }
    assert TreeOk(n, level);
  }

  /** Passing a full branch of a tree with room, there is another branch. */
  lemma PassFull(n: Node, level: nat, k: nat)
    requires TreeOk(n, level) && n.itemCnt < n.maxItems && k < BRANCHES && BranchFull(n, k)
    requires Count(Row(n, level, k)) == Width(level) * k
    ensures k + 1 < BRANCHES && Count(Row(n, level, k + 1)) == Width(level) * (k + 1)
  {
    FullCount(n, level, k);
    RowTotals(n, level, k);
  }

  lemma KindAt(n: Node, b: nat)
    requires TreeOk(n, n.level) && b < BRANCHES
    ensures if n.level == 0 then !n.items[b].Sub? else !n.items[b].Leaf?
    ensures n.items[b].Leaf? ==> n.weights[b] > 0
    ensures n.items[b].Sub? ==>
              TreeOk(n.items[b].node, n.level - 1) && Flat(n.items[b].node) == BranchRow(n, n.level, b)
  {
    assert BranchOk(n, n.level, b);
    if n.items[b].Sub? {
      assert TreeOk(n.items[b].node, n.level - 1);
    }
  }

  function Weighed(e: Option<Entry>, weight: nat): Option<Entry> {
    if e == None || weight == 0 then None else Some(Entry(e.value.item, weight))
  }

  /** Where a slot of the row is: below which branch, and where there. */
  lemma Locate(n: Node, idx: nat)
    requires TreeOk(n, n.level) && idx < |Flat(n)|
    ensures n.maxItems / BRANCHES == Width(n.level) > 0
    ensures var b := idx / Width(n.level);
            var s := idx - b * Width(n.level);
            && 0 <= b < BRANCHES && 0 <= s < Width(n.level) && SlotIndex(Width(n.level), b, s) == idx
            && Flat(n)[idx] == BranchRow(n, n.level, b)[s]
            && (n.level == 0 ==> b == idx && s == 0)
  {
    var width := Width(n.level);
    SplitIndex(width, idx);
    var b := idx / width;
    SlotBelow(n, n.level, b, idx - b * width, BRANCHES);
  }

  lemma SplitIndex(width: nat, idx: nat)
    requires width > 0 && idx < width * BRANCHES
    ensures (width * BRANCHES) / BRANCHES == width
    ensures var b := idx / width;
            var s := idx - b * width;
            0 <= b < BRANCHES && 0 <= s < width && SlotIndex(width, b, s) == idx
  {
    var b := idx / width;
    assert idx == b * width + idx % width;
    assert b * width == width * b;
  }

  lemma {:induction false} SlotBelow(n: Node, level: nat, b: nat, s: nat, k: nat)
    requires Sized(n) && b < k <= BRANCHES && s < Width(level)
    ensures SlotIndex(Width(level), b, s) < |Row(n, level, k)|
    ensures Row(n, level, k)[SlotIndex(Width(level), b, s)] == BranchRow(n, level, b)[s]
  {
    BranchUpdate(n, n, level, b, s, BranchRow(n, level, b)[s], k);
  }

  // ---- Selection ----

  /** The value falls into slot j: what the slots before it weigh is at most val, and with it more. */
  ghost predicate Selects(row: seq<Option<Entry>>, val: int, j: nat) {
    j < |row| && Sum(row, j) <= val < Sum(row, j + 1)
  }

  lemma {:induction false} SumsGrow(row: seq<Option<Entry>>, i: nat, j: nat)
    requires i <= j <= |row|
    ensures Sum(row, i) <= Sum(row, j)
    decreases j
  {
    if i < j { SumsGrow(row, i, j - 1); }
  }

  lemma SelectsOne(row: seq<Option<Entry>>, val: int, j: nat, k: nat)
    requires Selects(row, val, j) && Selects(row, val, k)
    ensures j == k
  {
    if j < k { SumsGrow(row, j + 1, k); }
    if k < j { SumsGrow(row, k + 1, j); }
  }

  /** The values that fall into a slot. */
  ghost function Share(row: seq<Option<Entry>>, j: nat): set<int> {
    set v: int | 0 <= v < Total(row) && Selects(row, v, j)
  }

  /** As many values select a slot as it weighs. */
  lemma ShareIsWeight(row: seq<Option<Entry>>, j: nat)
    requires j < |row|
    ensures |Share(row, j)| == WeightOf(row[j])
  {
    SumsGrow(row, j + 1, |row|);
    forall v ensures v in Share(row, j) <==> Sum(row, j) <= v < Sum(row, j + 1) {
      assert Selects(row, v, j) <==> Sum(row, j) <= v < Sum(row, j + 1);
    }
    assert Share(row, j) == Interval(Sum(row, j), Sum(row, j + 1));
  }

  ghost function Interval(a: int, b: int): (s: set<int>)
    requires a <= b
    ensures |s| == b - a && forall v :: v in s <==> a <= v < b
    decreases b - a
  {
    if a == b then {} else Interval(a, b - 1) + {b - 1}
  }

  /** A value selects the same slot in the whole row as its remainder does below the branch. */
  lemma SelectBelow(n: Node, level: nat, b: nat, val: int, rest: int, j: nat)
    requires Sized(n) && b < BRANCHES && Selects(BranchRow(n, level, b), rest, j)
    requires rest + Total(Row(n, level, b)) == val
    ensures var k := SlotIndex(Width(level), b, j);
            Selects(Row(n, level, BRANCHES), val, k) && Row(n, level, BRANCHES)[k] == BranchRow(n, level, b)[j]
  {
    RowHead(n, level, b, BRANCHES);
    SelectAt(Row(n, level, BRANCHES), Row(n, level, b), BranchRow(n, level, b), val, rest, j);
  }

  lemma SelectAt(all: seq<Option<Entry>>, row: seq<Option<Entry>>, below: seq<Option<Entry>>, val: int, rest: int,
                 j: nat)
    requires row + below <= all && Selects(below, rest, j) && rest + Total(row) == val
    ensures Selects(all, val, |row| + j) && all[|row| + j] == below[j]
  {
    SumsAppend(row, below, all, j);
    SumsAppend(row, below, all, j + 1);
    assert all[|row| + j] == (row + below)[|row| + j];
  }

  lemma {:induction false} RowHead(n: Node, level: nat, b: nat, k: nat)
    requires Sized(n) && b < k <= BRANCHES
    ensures Row(n, level, b) + BranchRow(n, level, b) <= Row(n, level, k)
    decreases k
  {
    if b + 1 < k { RowHead(n, level, b, k - 1); }
  }

  lemma PassBranch(n: Node, b: nat, val: int, rest: int)
    requires TreeOk(n, n.level) && b < BRANCHES && val < n.sumWeight
    requires rest + Total(Row(n, n.level, b)) == val
    ensures n.weights[b] == Total(BranchRow(n, n.level, b))
    ensures n.weights[b] <= rest ==> b + 1 < BRANCHES && rest - n.weights[b] + Total(Row(n, n.level, b + 1)) == val
  {
    assert BranchOk(n, n.level, b);
    RowTotals(n, n.level, b);
  }

  lemma NilWeighsNothing(n: Node, b: nat)
    requires TreeOk(n, n.level) && b < BRANCHES
    ensures n.items[b] == Nil ==> n.weights[b] == 0
  {
    assert BranchOk(n, n.level, b);
    if n.items[b] == Nil { SumsBlank(BranchRow(n, n.level, b), |BranchRow(n, n.level, b)|); }
  }

  lemma ChosenLeaf(n: Node, b: nat, val: int, rest: nat)
    requires n.level == 0 && TreeOk(n, n.level) && b < BRANCHES && rest < n.weights[b]
    requires rest + Total(Row(n, n.level, b)) == val
    ensures n.items[b].Leaf? && Selects(Flat(n), val, b) && Flat(n)[b] == Some(Entry(n.items[b].item, n.weights[b]))
  {
    NilWeighsNothing(n, b);
    KindAt(n, b);
    LeafRow(n, b);
    SelectBelow(n, n.level, b, val, rest, 0);
  }

  // ---- The set ----

  /** Every item is found at its own slot, and every taken slot is some item's. */
  ghost predicate Indexed(idx: map<Item, nat>, row: seq<Option<Entry>>) {
    && (forall i :: i in idx ==> idx[i] < |row| && row[idx[i]].Some? && row[idx[i]].value.item == i)
    && (forall j :: 0 <= j < |row| && row[j].Some? ==> row[j].value.item in idx && idx[row[j].value.item] == j)
  }

  /** The weights the set holds. */
  ghost function WeightsOf(idx: map<Item, nat>, row: seq<Option<Entry>>): map<Item, nat>
    requires Indexed(idx, row)
  {
    map i | i in idx :: WeightOf(row[idx[i]])
  }

  lemma Reweighed(idx: map<Item, nat>, row: seq<Option<Entry>>, item: Item, weight: nat)
    requires Indexed(idx, row) && item in idx
    ensures var row' := row[idx[item] := Weighed(row[idx[item]], weight)];
            var idx' := if weight == 0 then idx - {item} else idx;
            && Indexed(idx', row') && Total(row') == Total(row) + weight - WeightOf(row[idx[item]])
            && WeightsOf(idx', row') ==
               if weight == 0 then WeightsOf(idx, row) - {item} else WeightsOf(idx, row)[item := weight]
  {
    SumsUpdate(row, idx[item], Weighed(row[idx[item]], weight), |row|);
  }

  lemma Inserted(idx: map<Item, nat>, row: seq<Option<Entry>>, item: Item, weight: nat, at: nat)
    requires Indexed(idx, row) && item !in idx && at < |row| && row[at] == None
    ensures var row' := row[at := Some(Entry(item, weight))];
            && Indexed(idx[item := at], row') && Total(row') == Total(row) + weight
            && WeightsOf(idx[item := at], row') == WeightsOf(idx, row)[item := weight]
  {
    SumsUpdate(row, at, Some(Entry(item, weight)), |row|);
  }

  lemma Extended(idx: map<Item, nat>, row: seq<Option<Entry>>, row': seq<Option<Entry>>)
    requires Indexed(idx, row) && |row| <= |row'| && row'[..|row|] == row
    requires forall j :: |row| <= j < |row'| ==> row'[j] == None
    ensures Indexed(idx, row') && WeightsOf(idx, row') == WeightsOf(idx, row)
  {
    assert forall j :: 0 <= j < |row| ==> row'[j] == row'[..|row|][j] == row[j];
  }

  /** A level on top: the old root becomes the first branch. */
  function Grown(n: Node): Node {
    var top := NewNode(n.level + 1, n.maxItems * BRANCHES);
    Adjusted(top, 0, Sub(n), n.sumWeight, n.itemCnt)
  }

  lemma GrownOk(n: Node)
    requires TreeOk(n, n.level)
    ensures TreeOk(Grown(n), n.level + 1)
    ensures |Flat(n)| < |Flat(Grown(n))| && Flat(Grown(n))[..|Flat(n)|] == Flat(n)
    ensures forall j :: |Flat(n)| <= j < |Flat(Grown(n))| ==> Flat(Grown(n))[j] == None
  {
    var level, top := n.level + 1, Grown(n);
    GrownRow(n, BRANCHES);
    var rest := Blank(Width(level) * (BRANCHES - 1));
    assert Flat(top) == Flat(n) + rest;
    SumsConcat(Flat(n), rest);
    SumsBlank(rest, |rest|);
    forall b: nat | b < BRANCHES ensures BranchOk(top, level, b) {
      if b > 0 { SumsBlank(BranchRow(top, level, b), |BranchRow(top, level, b)|); }
    }
    assert TreeOk(top, level);
  }

  lemma {:induction false} GrownRow(n: Node, k: nat)
    requires TreeOk(n, n.level) && 1 <= k <= BRANCHES
    ensures Row(Grown(n), n.level + 1, k) == Flat(n) + Blank(Width(n.level + 1) * (k - 1))
    decreases k
  {
    var level, top := n.level + 1, Grown(n);
    if k == 1 {
      assert Row(top, level, 1) == Row(top, level, 0) + BranchRow(top, level, 0);
    } else {
      GrownRow(n, k - 1);
      assert BranchRow(top, level, k - 1) == Blank(Width(level));
    }
  }

  /** What a sequence of weight updates amounts to. */
  ghost function Applied(weights: map<Item, nat>, updates: seq<(Item, nat)>): map<Item, nat> {
    if updates == [] then weights
    else
      var before, (item, weight) := Applied(weights, updates[..|updates| - 1]), updates[|updates| - 1];
      Set(before, item, weight)
  }

  /** A weight set: zero takes the item out. */
  ghost function Set(weights: map<Item, nat>, item: Item, weight: nat): map<Item, nat> {
    if weight == 0 then weights - {item} else weights[item := weight]
  }

  /** The weights after some draws: every item drawn gets the weight it had when it was drawn. */
  ghost function Redrawn(weights: map<Item, nat>, current: (nat, Item) -> nat, drawn: seq<Item>): map<Item, nat> {
    if drawn == [] then weights
    else
      var k := |drawn| - 1;
      Set(Redrawn(weights, current, drawn[..k]), drawn[k], current(k, drawn[k]))
  }

  /** Every draw was of an item in the set whose weight had dropped. */
  ghost predicate AllDropped(weights: map<Item, nat>, current: (nat, Item) -> nat, drawn: seq<Item>) {
    if drawn == [] then true
    else
      var k := |drawn| - 1;
      var held := Redrawn(weights, current, drawn[..k]);
      AllDropped(weights, current, drawn[..k]) && drawn[k] in held && current(k, drawn[k]) < held[drawn[k]]
  }

  /** The value falls on the item. */
  ghost predicate Picks(row: seq<Option<Entry>>, val: int, item: Item) {
    exists j: nat :: Selects(row, val, j) && row[j].Some? && row[j].value.item == item
  }

  /** Exactly as many of the values below the sum pick an item as the item weighs. */
  lemma ItemShare(idx: map<Item, nat>, row: seq<Option<Entry>>, item: Item)
    requires Indexed(idx, row) && item in idx
    ensures |Picking(row, item)| == WeightsOf(idx, row)[item]
  {
    forall v | 0 <= v < Total(row) ensures Picks(row, v, item) <==> Selects(row, v, idx[item]) {
      PicksOwn(idx, row, v, item);
    }
    assert Picking(row, item) == Share(row, idx[item]);
    ShareIsWeight(row, idx[item]);
  }

  ghost function Picking(row: seq<Option<Entry>>, item: Item): set<int> {
    set v: int | 0 <= v < Total(row) && Picks(row, v, item)
  }

  lemma PicksOwn(idx: map<Item, nat>, row: seq<Option<Entry>>, v: int, item: Item)
    requires Indexed(idx, row) && item in idx
    ensures Picks(row, v, item) <==> Selects(row, v, idx[item])
  {
    if Picks(row, v, item) {
      var j: nat :| Selects(row, v, j) && row[j].Some? && row[j].value.item == item;
      assert idx[item] == j;
    }
  }

  /** Whether a drawn item is taken: one that has become lighter only for the values below its weight. */
  predicate Takes(weight: nat, stored: nat, r: int) {
    weight >= stored || r < weight
  }

  /** The pairs of random values for which an item is drawn and taken. */
  ghost function Taking(row: seq<Option<Entry>>, item: Item, weight: nat, stored: nat): set<(int, int)> {
    set v: int, r: int | v in Picking(row, item) && 0 <= r < stored && Takes(weight, stored, r) :: (v, r)
  }

  ghost function Line(v: int, m: nat): (s: set<(int, int)>)
    ensures |s| == m && forall p :: p in s <==> p.0 == v && 0 <= p.1 < m
  {
    if m == 0 then {} else Line(v, m - 1) + {(v, m - 1)}
  }

  ghost function Grid(a: int, b: int, m: nat): (s: set<(int, int)>)
    requires a <= b
    ensures |s| == (b - a) * m && forall p :: p in s <==> a <= p.0 < b && 0 <= p.1 < m
    decreases b - a
  {
    if a == b then {} else
    var rest, line := Grid(a, b - 1, m), Line(b - 1, m);
    assert rest !! line && (b - a) * m == (b - 1 - a) * m + m;
    rest + line
  }

  lemma TakingIsGrid(idx: map<Item, nat>, row: seq<Option<Entry>>, item: Item, weight: nat)
    requires Indexed(idx, row) && item in idx
    ensures var stored, j := WeightsOf(idx, row)[item], idx[item];
            && Sum(row, j) <= Sum(row, j + 1) && stored == Sum(row, j + 1) - Sum(row, j) <= Total(row)
            && Taking(row, item, weight, stored) == Grid(Sum(row, j), Sum(row, j + 1), Min(weight, stored))
  {
    var stored, j := WeightsOf(idx, row)[item], idx[item];
    SumsGrow(row, 0, j);
    SumsGrow(row, j, j + 1);
    SumsGrow(row, j + 1, |row|);
    forall v: int ensures v in Picking(row, item) <==> Sum(row, j) <= v < Sum(row, j + 1) {
      PicksOwn(idx, row, v, item);
    }
  }

  /**
   Of all pairs of a value below the sum and one below the item's stored weight, so many take the
   item that its chance is its current weight over the sum, or its stored weight if that is less.
   */
  lemma TakenShare(idx: map<Item, nat>, row: seq<Option<Entry>>, item: Item, weight: nat)
    requires Indexed(idx, row) && item in idx && WeightsOf(idx, row)[item] > 0
    ensures var stored := WeightsOf(idx, row)[item];
            && |Taking(row, item, weight, stored)| == stored * Min(weight, stored)
            && 0 < stored <= Total(row)
            && |Taking(row, item, weight, stored)| as real / (Total(row) * stored) as real
               == Min(weight, stored) as real / Total(row) as real
  {
    var stored := WeightsOf(idx, row)[item];
    TakingIsGrid(idx, row, item, weight);
    Cancelled(Min(weight, stored), stored, Total(row));
  }

  lemma Cancelled(m: nat, s: nat, t: nat)
    requires s > 0 && t > 0
    ensures (s * m) as real / (t * s) as real == m as real / t as real
  {
    var x, y, z := m as real, s as real, t as real;
    assert (s * m) as real == y * x && (t * s) as real == z * y;
    assert z * y > 0.0;
    assert (x / z) * (z * y) == y * x;
  }
  // ---- The turns of a selection ----

  /** A turn: the row of slots it found and the item it drew. */
  datatype Turn = Turn(idx: map<Item, nat>, row: seq<Option<Entry>>, item: Item)

  ghost function Drawn(turns: seq<Turn>): (r: seq<Item>)
    ensures |r| == |turns|
  {
    seq(|turns|, i requires 0 <= i < |turns| => turns[i].item)
  }

  /** A source of random numbers: the i-th one below any n. */
  ghost predicate Random(f: (nat, nat) -> nat) {
    forall i: nat, n: nat :: n > 0 ==> f(i, n) < n
  }

  /** The k-th turn found these weights and the k-th value, below their sum, picked its item. */
  ghost predicate Drew(t: Turn, held: map<Item, nat>, val: nat) {
    && Indexed(t.idx, t.row) && WeightsOf(t.idx, t.row) == held
    && val < Total(t.row) && Picks(t.row, val, t.item)
    && t.item in held && held[t.item] > 0
  }

  /** What the set holds when the last of the turns begins. */
  ghost function Before(weights: map<Item, nat>, current: (nat, Item) -> nat, turns: seq<Turn>): map<Item, nat>
    requires turns != []
  {
    Redrawn(weights, current, Drawn(turns[..|turns| - 1]))
  }

  /** The last turn drew as its value says. */
  ghost predicate LastDrew(weights: map<Item, nat>, current: (nat, Item) -> nat, vals: (nat, nat) -> nat,
                           turns: seq<Turn>) {
    turns != [] &&
    var k := |turns| - 1;
    var sum := Total(turns[k].row);
    sum > 0 && Drew(turns[k], Before(weights, current, turns), vals(k, sum))
  }

  /** The last turn takes its item: it is no lighter than stored, or its second value is below its weight. */
  ghost predicate LastTakes(weights: map<Item, nat>, current: (nat, Item) -> nat, rests: (nat, nat) -> nat,
                            turns: seq<Turn>)
    requires turns != [] && turns[|turns| - 1].item in Before(weights, current, turns)
  {
    var k := |turns| - 1;
    var stored := Before(weights, current, turns)[turns[k].item];
    Takes(current(k, turns[k].item), stored, rests(k, stored))
  }

  /**
   What the turns of a selection come to: each drew as its value says, none but the last takes its
   item, and the last decides.
   */
  ghost predicate Outcome(weights: map<Item, nat>, current: (nat, Item) -> nat, vals: (nat, nat) -> nat,
                          rests: (nat, nat) -> nat, turns: seq<Turn>, choice: Option<Item>) {
    if turns == [] then choice == None
    else
      var k := |turns| - 1;
      && LastDrew(weights, current, vals, turns)
      && choice == (if LastTakes(weights, current, rests, turns) then Some(turns[k].item) else None)
      && Outcome(weights, current, vals, rests, turns[..k], None)
  }

  /** An item that was not taken had become lighter; one that was taken weighs something. */
  lemma {:induction false} OutcomeDrops(weights: map<Item, nat>, current: (nat, Item) -> nat, vals: (nat, nat) -> nat,
                                        rests: (nat, nat) -> nat, turns: seq<Turn>, choice: Option<Item>)
    requires Outcome(weights, current, vals, rests, turns, choice)
    ensures choice.None? ==> AllDropped(weights, current, Drawn(turns))
    ensures choice.Some? ==>
              var drawn, held := Drawn(turns), Redrawn(weights, current, Drawn(turns));
              && drawn != [] && drawn[|drawn| - 1] == choice.value && choice.value in held && held[choice.value] > 0
              && AllDropped(weights, current, drawn[..|drawn| - 1])
    decreases |turns|
  {
    if turns != [] {
      var k := |turns| - 1;
      OutcomeDrops(weights, current, vals, rests, turns[..k], None);
      assert Drawn(turns)[..k] == Drawn(turns[..k]);
    }
  }

  lemma OneMoreTurn(weights: map<Item, nat>, current: (nat, Item) -> nat, vals: (nat, nat) -> nat, turns: seq<Turn>,
                    turn: Turn)
    requires Total(turn.row) > 0
    requires Drew(turn, Redrawn(weights, current, Drawn(turns)), vals(|turns|, Total(turn.row)))
    ensures var more := turns + [turn];
            && more[..|turns|] == turns && Drawn(more) == Drawn(turns) + [turn.item]
            && Before(weights, current, more) == Redrawn(weights, current, Drawn(turns))
            && LastDrew(weights, current, vals, more)
  {
    assert (turns + [turn])[..|turns|] == turns;
  }

  /**
   The chance of a turn: of all pairs of a first and a second value so many make it return an item
   that its share is the smaller of its current and its stored weight over the sum.
   */
  lemma TurnChance(t: Turn, held: map<Item, nat>, item: Item, weight: nat)
    requires Indexed(t.idx, t.row) && WeightsOf(t.idx, t.row) == held && item in held && held[item] > 0
    ensures var taking := Taking(t.row, item, weight, held[item]);
            && (forall v: nat, r: nat :: r < held[item] ==>
                  ((v, r) in taking <==> v < Total(t.row) && Picks(t.row, v, item) && Takes(weight, held[item], r)))
            && 0 < held[item] <= Total(t.row)
            && |taking| as real / (Total(t.row) * held[item]) as real
               == Min(weight, held[item]) as real / Total(t.row) as real
  {
    TakenShare(t.idx, t.row, item, weight);
  }
}
