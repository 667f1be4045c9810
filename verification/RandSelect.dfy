/**
 The weighted random selection of les/randselect.go, its nodes updated in place.
 */
module RandSelect {
  import opened Types
  import opened WeightTree

  datatype Ref = NilRef | ItemRef(item: Item) | NodeRef(node: WrsNode)

  class WrsNode {
    var items: seq<Ref>
    var weights: seq<int>
    var sumWeight: int
    var level: nat
    var itemCnt: int
    var maxItems: nat
    ghost var tree: Node
    ghost var Repr: set<object>

    ghost predicate FieldsOk()
      reads this
    {
      && this in Repr && |items| == BRANCHES && Sized(tree)
      && tree == Node(tree.items, weights, sumWeight, level, itemCnt, maxItems)
    }

    /** The fields and the nodes below spell out `tree`; no node is shared. */
    ghost predicate Shape()
      reads this, Repr
      decreases Repr
    {
      && FieldsOk()
      && (forall b: nat :: b < BRANCHES ==> (items[b] == NilRef <==> tree.items[b] == Nil))
      && (forall b: nat :: b < BRANCHES && items[b].ItemRef? ==> tree.items[b] == Leaf(items[b].item))
      && (forall b: nat :: b < BRANCHES && items[b].NodeRef? ==>
            var m := items[b].node;
            m in Repr && m.Repr <= Repr && this !in m.Repr && m.Shape() && tree.items[b] == Sub(m.tree))
      && (forall b: nat, c: nat :: b < c < BRANCHES && items[b].NodeRef? && items[c].NodeRef? ==>
            items[b].node.Repr !! items[c].node.Repr)
    }

    ghost predicate Valid()
      reads this, Repr
    {
      Shape() && TreeOk(tree, level)
    }

    /** As Shape, but the subtree at one branch is about to change, or has just changed. */
    ghost predicate Parted(branch: nat, sub: WrsNode)
      reads this, Repr, sub, sub.Repr
    {
      && FieldsOk() && branch < BRANCHES && items[branch] == NodeRef(sub)
      && this !in sub.Repr && sub in sub.Repr && sub.Shape()
      && (forall b: nat :: b < BRANCHES && b != branch ==> (items[b] == NilRef <==> tree.items[b] == Nil))
      && (forall b: nat :: b < BRANCHES && items[b].ItemRef? ==> tree.items[b] == Leaf(items[b].item))
      && (forall b: nat :: b < BRANCHES && b != branch && items[b].NodeRef? ==>
            var m := items[b].node;
            && m in Repr && m.Repr <= Repr && this !in m.Repr && m.Shape() && tree.items[b] == Sub(m.tree)
            && m.Repr !! sub.Repr)
      && (forall b: nat, c: nat ::
            b < c < BRANCHES && b != branch && c != branch && items[b].NodeRef? && items[c].NodeRef? ==>
            items[b].node.Repr !! items[c].node.Repr)
    }

    constructor (level: nat, maxItems: nat)
      requires maxItems == Width(level + 1)
      ensures Valid() && fresh(Repr) && this.level == level && this.maxItems == maxItems
      ensures tree == NewNode(level, maxItems)
    {
      items, weights, sumWeight := seq(BRANCHES, i => NilRef), NewNode(level, maxItems).weights, 0;
      this.level, itemCnt, this.maxItems := level, 0, maxItems;
      tree := NewNode(level, maxItems);
      Repr := {this};
      new;
      NewNodeOk(level);
    }

    /** A new root over a full one. */
    constructor Over(root: WrsNode)
      requires root.Valid()
      ensures Valid() && fresh(Repr - root.Repr) && tree == Grown(root.tree)
    {
      items, sumWeight := seq(BRANCHES, i => NilRef)[0 := NodeRef(root)], root.sumWeight;
      weights := NewNode(root.level + 1, root.maxItems * BRANCHES).weights[0 := root.sumWeight];
      level, itemCnt, maxItems := root.level + 1, root.itemCnt, root.maxItems * BRANCHES;
      tree := Grown(root.tree);
      Repr := {this} + root.Repr;
      new;
      GrownOk(root.tree);
      assert weights == tree.weights;
    }

    lemma RefAt(b: nat)
      requires Valid() && b < BRANCHES
      ensures if level == 0 then !items[b].NodeRef? else !items[b].ItemRef?
      ensures items[b].NodeRef? ==>
                items[b].node.Shape() && items[b].node.FieldsOk() && tree.items[b] == Sub(items[b].node.tree)
    {
      KindAt(tree, b);
      assert items[b].NodeRef? ==> items[b].node.Shape();
    }

    /** The first branch with room; while the node is not full there is one. */
    method FindBranch() returns (branch: nat)
      requires Valid() && itemCnt < maxItems
      ensures branch < BRANCHES && !BranchFull(tree, branch) && !items[branch].ItemRef?
    {
      branch := 0;
      RefAt(branch);
      while items[branch] != NilRef && (level == 0 || items[branch].node.itemCnt == items[branch].node.maxItems)
        invariant branch < BRANCHES && Count(Row(tree, level, branch)) == Width(level) * branch
        invariant if level == 0 then !items[branch].NodeRef? else !items[branch].ItemRef?
        decreases BRANCHES - branch
      {
        RefAt(branch);
        PassFull(tree, level, branch);
        branch := branch + 1;
        RefAt(branch);
      }
      RefAt(branch);
    }

    /** The node at a branch, made if there is none. */
    method Child(branch: nat) returns (sub: WrsNode)
      requires Valid() && level > 0 && branch < BRANCHES
      modifies this`items
      ensures Parted(branch, sub) && sub.level == level - 1 && TreeOk(sub.tree, sub.level)
      ensures Flat(sub.tree) == BranchRow(tree, level, branch) && fresh(sub.Repr - Repr)
      ensures !BranchFull(tree, branch) ==> sub.itemCnt < sub.maxItems
    {
      RefAt(branch);
      KindAt(tree, branch);
      if items[branch] == NilRef {
        sub := new WrsNode(level - 1, maxItems / BRANCHES);
        NewNodeOk(level - 1);
        items := items[branch := NodeRef(sub)];
      } else {
        FullCount(tree, level, branch);
        sub := items[branch].node;
      }
    }

    /** Takes the change below a branch into the caches. */
    method Absorb(branch: nat, sub: WrsNode, diff: int, grown: int)
      requires Parted(branch, sub)
      modifies this`weights, this`sumWeight, this`itemCnt, this`tree, this`Repr
      ensures Shape() && Repr == old(Repr) + sub.Repr && tree == Adjusted(old(tree), branch, Sub(sub.tree), diff, grown)
    {
      tree := Adjusted(tree, branch, Sub(sub.tree), diff, grown);
      weights := weights[branch := weights[branch] + diff];
      sumWeight := sumWeight + diff;
      itemCnt := itemCnt + grown;
      Repr := Repr + sub.Repr;
    }

    /** Puts an item into a free leaf slot, or clears one. */
    method SetSlot(branch: nat, ref: Ref, diff: int, grown: int)
      requires Shape() && branch < BRANCHES && !items[branch].NodeRef? && !ref.NodeRef?
      modifies this`items, this`weights, this`sumWeight, this`itemCnt, this`tree
      ensures Shape() && tree == Adjusted(old(tree), branch, if ref.ItemRef? then Leaf(ref.item) else Nil, diff, grown)
    {
      tree := Adjusted(tree, branch, if ref.ItemRef? then Leaf(ref.item) else Nil, diff, grown);
      weights := weights[branch := weights[branch] + diff];
      sumWeight := sumWeight + diff;
      itemCnt := itemCnt + grown;
      items := items[branch := ref];
    }

    /** Puts an item into a free leaf slot, which it returns, and changes no other. */
    method Insert(item: Item, weight: nat) returns (idx: nat)
      requires Valid() && itemCnt < maxItems && weight > 0
      modifies Repr
      ensures Valid() && fresh(Repr - old(Repr)) && level == old(level) && maxItems == old(maxItems)
      ensures idx < |old(Flat(tree))| && old(Flat(tree))[idx] == None
      ensures Flat(tree) == old(Flat(tree))[idx := Some(Entry(item, weight))]
      decreases level, 1
    {
      var branch := FindBranch();
      if level == 0 {
        RefAt(branch);
        LeafStored(tree, branch, Leaf(item), Some(Entry(item, weight)), weight, 1);
        SetSlot(branch, ItemRef(item), weight, 1);
        idx := branch;
      } else {
        idx := InsertBelow(branch, item, weight);
      }
    }

    method InsertBelow(branch: nat, item: Item, weight: nat) returns (idx: nat)
      requires Valid() && level > 0 && branch < BRANCHES && !BranchFull(tree, branch) && weight > 0
      modifies Repr
      ensures Valid() && fresh(Repr - old(Repr)) && level == old(level) && maxItems == old(maxItems)
      ensures idx < |old(Flat(tree))| && old(Flat(tree))[idx] == None
      ensures Flat(tree) == old(Flat(tree))[idx := Some(Entry(item, weight))]
      decreases level, 0
    {
      ghost var was := tree;
      var subNode := Child(branch);
      var subIdx := subNode.Insert(item, weight);
      SubStored(was, level, branch, subNode.tree, subIdx, Some(Entry(item, weight)), weight, 1);
      Absorb(branch, subNode, weight, 1);
      idx := SlotIndex(subNode.maxItems, branch, subIdx);
    }

    /** Sets the weight in a taken leaf slot, freeing it for weight zero, and returns the change of the sum. */
    method SetWeight(idx: nat, weight: nat) returns (diff: int)
      requires Valid() && idx < |Flat(tree)| && Flat(tree)[idx].Some?
      modifies Repr
      ensures Valid() && Repr == old(Repr) && level == old(level) && maxItems == old(maxItems)
      ensures Flat(tree) == old(Flat(tree))[idx := Weighed(old(Flat(tree))[idx], weight)]
      ensures diff == weight - WeightOf(old(Flat(tree))[idx])
      decreases level, 1
    {
      Locate(tree, idx);
      if level == 0 {
        diff := SetLeaf(idx, weight);
      } else {
        var branchItems := maxItems / BRANCHES;
        var branch := idx / branchItems;
        diff := SetBelow(branch, idx - branch * branchItems, weight);
      }
    }

    method SetLeaf(idx: nat, weight: nat) returns (diff: int)
      requires Valid() && level == 0 && idx < BRANCHES && BranchRow(tree, level, idx)[0].Some?
      modifies this
      ensures Valid() && Repr == old(Repr) && level == old(level) && maxItems == old(maxItems)
      ensures idx < |old(Flat(tree))| && Flat(tree) == old(Flat(tree))[idx := Weighed(old(Flat(tree))[idx], weight)]
      ensures diff == weight - WeightOf(old(Flat(tree))[idx])
    {
      RefAt(idx);
      KindAt(tree, idx);
      LeafRow(tree, idx);
      diff := weight - weights[idx];
      var ref, grown := if weight == 0 then NilRef else items[idx], if weight == 0 then -1 else 0;
      ghost var slot := if weight == 0 then Nil else tree.items[idx];
      LeafStored(tree, idx, slot, Weighed(BranchRow(tree, level, idx)[0], weight), diff, grown);
      SetSlot(idx, ref, diff, grown);
    }

    lemma PartAt(branch: nat, sub: nat)
      requires Valid() && level > 0 && branch < BRANCHES && sub < Width(level)
      requires BranchRow(tree, level, branch)[sub].Some?
      ensures items[branch].NodeRef? && Parted(branch, items[branch].node) && items[branch].node.Repr <= Repr
      ensures items[branch].node.level == level - 1 && TreeOk(items[branch].node.tree, level - 1)
      ensures Flat(items[branch].node.tree) == BranchRow(tree, level, branch)
    {
      RefAt(branch);
      KindAt(tree, branch);
    }

    method SetBelow(branch: nat, sub: nat, weight: nat) returns (diff: int)
      requires Valid() && level > 0 && branch < BRANCHES && sub < Width(level)
      requires BranchRow(tree, level, branch)[sub].Some?
      modifies Repr
      ensures Valid() && Repr == old(Repr) && level == old(level) && maxItems == old(maxItems)
      ensures var j, row := SlotIndex(Width(level), branch, sub), old(Flat(tree));
              && j < |row| && row[j] == old(BranchRow(tree, level, branch)[sub])
              && Flat(tree) == row[j := Weighed(row[j], weight)] && diff == weight - WeightOf(row[j])
      decreases level, 0
    {
      PartAt(branch, sub);
      var subNode, grown := items[branch].node, if weight == 0 then -1 else 0;
      ghost var e := Weighed(BranchRow(tree, level, branch)[sub], weight);
      diff := subNode.SetWeight(sub, weight);
      SubStored(tree, level, branch, subNode.tree, sub, e, diff, grown);
      Absorb(branch, subNode, diff, grown);
    }

    /** Finds the slot a value falls into. */
    method Choose(val: nat) returns (item: Item, weight: nat, ghost j: nat)
      requires Valid() && val < sumWeight
      ensures Selects(Flat(tree), val, j) && Flat(tree)[j] == Some(Entry(item, weight))
      decreases level
    {
      var i, rest: nat := 0, val;
      PassBranch(tree, 0, val, rest);
      while weights[i] <= rest
        invariant i < BRANCHES && rest + Total(Row(tree, level, i)) == val
        invariant weights[i] == Total(BranchRow(tree, level, i))
        decreases BRANCHES - i
      {
        PassBranch(tree, i, val, rest);
        rest := rest - weights[i];
        i := i + 1;
        PassBranch(tree, i, val, rest);
      }
      RefAt(i);
      KindAt(tree, i);
      NilWeighsNothing(tree, i);
      if level == 0 {
        ChosenLeaf(tree, i, val, rest);
        item, weight, j := items[i].item, weights[i], i;
      } else {
        item, weight, j := items[i].node.Choose(rest);
        SelectBelow(tree, level, i, val, rest, j);
        j := SlotIndex(Width(level), i, j);
      }
    }
  }

  class WeightedRandomSelect {
    var root: WrsNode
    var idx: map<Item, nat>

    ghost predicate Valid()
      reads this, root, root.Repr
    {
      root.Valid() && this !in root.Repr && Indexed(idx, Flat(root.tree))
    }

    ghost function Weights(): map<Item, nat>
      requires Valid()
      reads this, root, root.Repr
    {
      WeightsOf(idx, Flat(root.tree))
    }

    constructor ()
      ensures Valid() && fresh(root.Repr) && Weights() == map[]
    {
      NewNodeOk(0);
      root := new WrsNode(0, BRANCHES);
      idx := map[];
    }

    /** Sets the weight of an item that is there. */
    method Change(item: Item, weight: nat)
      requires Valid() && item in idx
      modifies this`idx, root.Repr
      ensures Valid() && root.Repr == old(root.Repr)
      ensures Weights() == Set(old(Weights()), item, weight)
      ensures root.sumWeight == old(root.sumWeight) + weight - old(Weights())[item]
    {
      Reweighed(idx, Flat(root.tree), item, weight);
      var _ := root.SetWeight(idx[item], weight);
      if weight == 0 {
        idx := idx - {item};
      }
    }

    /** Puts a new root over a full one; every item keeps its slot. */
    method Grow()
      requires Valid()
      modifies this`root
      ensures Valid() && fresh(root.Repr - old(root.Repr)) && Weights() == old(Weights())
      ensures root.sumWeight == old(root.sumWeight) && root.itemCnt < root.maxItems
    {
      GrownOk(root.tree);
      Extended(idx, Flat(root.tree), Flat(Grown(root.tree)));
      root := new WrsNode.Over(root);
    }

    /** Adds a new item. */
    method Add(item: Item, weight: nat)
      requires Valid() && item !in idx && weight > 0 && root.itemCnt < root.maxItems
      modifies this`idx, root.Repr
      ensures Valid() && fresh(root.Repr - old(root.Repr))
      ensures Weights() == old(Weights())[item := weight] && root.sumWeight == old(root.sumWeight) + weight
    {
      ghost var row := Flat(root.tree);
      var at := root.Insert(item, weight);
      Inserted(idx, row, item, weight, at);
      idx := idx[item := at];
    }

    /** Sets an item's weight, adds it if it was not there or removes it for weight zero; no other changes. */
    method SetWeight(item: Item, weight: nat)
      requires Valid()
      modifies this, root.Repr
      ensures Valid() && fresh(root.Repr - old(root.Repr))
      ensures Weights() == Set(old(Weights()), item, weight)
      ensures var before := if item in old(Weights()) then old(Weights())[item] else 0;
              root.sumWeight == old(root.sumWeight) + weight - before
    {
      if item in idx {
        Change(item, weight);
      } else if weight != 0 {
        if root.itemCnt == root.maxItems {
          Grow();
        }
        Add(item, weight);
      }
    }

    /** One draw: the item a value falls on, with its stored weight. */
    method Draw(val: nat) returns (item: Item, lastWeight: nat)
      requires Valid() && val < root.sumWeight
      ensures item in Weights() && Weights()[item] == lastWeight > 0 && Picks(Flat(root.tree), val, item)
    {
      ghost var j;
      item, lastWeight, j := root.Choose(val);
    }

    /** One draw, after which the item has its current weight. */
    method DrawAndUpdate(val: nat, current: (nat, Item) -> nat, i: nat) returns (item: Item, lastWeight: nat)
      requires Valid() && val < root.sumWeight
      modifies this, root.Repr
      ensures Valid() && fresh(root.Repr - old(root.Repr))
      ensures item in old(Weights()) && old(Weights())[item] == lastWeight > 0
      ensures Picks(old(Flat(root.tree)), val, item)
      ensures Weights() == Set(old(Weights()), item, current(i, item))
      ensures root.sumWeight == old(root.sumWeight) + current(i, item) - lastWeight
    {
      item, lastWeight := Draw(val);
      var weight := current(i, item);
      if weight != lastWeight {
        SetWeight(item, weight);
      }
    }

    /** One turn of the selection: an item whose weight has dropped is taken with the chance that is left to it. */
    method TryOne(current: (nat, Item) -> nat, vals: (nat, nat) -> nat, rests: (nat, nat) -> nat, i: nat)
      returns (item: Item, taken: bool, ghost turn: Turn)
      requires Valid() && root.sumWeight > 0 && Random(vals)
      modifies this, root.Repr
      ensures Valid() && fresh(root.Repr - old(root.Repr))
      ensures turn == Turn(old(idx), old(Flat(root.tree)), item) && Total(turn.row) == old(root.sumWeight)
      ensures Drew(turn, old(Weights()), vals(i, old(root.sumWeight)))
      ensures Weights() == Set(old(Weights()), item, current(i, item))
      ensures taken <==> Takes(current(i, item), old(Weights())[item], rests(i, old(Weights())[item]))
      ensures !taken ==> root.sumWeight < old(root.sumWeight)
    {
      var value := vals(i, root.sumWeight);
      assert Total(Flat(root.tree)) == root.sumWeight;
      var lastWeight;
      item, lastWeight := DrawAndUpdate(value, current, i);
      turn := Turn(old(idx), old(Flat(root.tree)), item);
      var weight := current(i, item);
      taken := weight >= lastWeight || rests(i, lastWeight) < weight;
    }

    /**
     Draws until an item is taken: one whose weight has not dropped below the stored one, or, with
     the chance that is left to it, one whose weight has.  The set then holds the current weight of
     every item drawn and what it held of the others.  Every retry lowers the sum of weights.
     `current` tells the weight an item has at the i-th draw; `vals` and `rests` are the random
     numbers of the i-th turn.
     */
    method Choose(current: (nat, Item) -> nat, vals: (nat, nat) -> nat, rests: (nat, nat) -> nat)
      returns (choice: Option<Item>, ghost drawn: seq<Item>, ghost turns: seq<Turn>)
      requires Valid() && Random(vals) && Random(rests)
      modifies this, root.Repr
      ensures Valid() && fresh(root.Repr - old(root.Repr)) && drawn == Drawn(turns)
      ensures Outcome(old(Weights()), current, vals, rests, turns, choice)
      ensures Weights() == Redrawn(old(Weights()), current, drawn)
      ensures choice.None? ==> root.sumWeight == 0 && AllDropped(old(Weights()), current, drawn)
      ensures choice.Some? ==>
                && drawn != [] && drawn[|drawn| - 1] == choice.value
                && AllDropped(old(Weights()), current, drawn[..|drawn| - 1])
                && choice.value in Weights() && Weights()[choice.value] > 0
    {
      ghost var was := Weights();
      choice, turns := TakeTurns(current, vals, rests, was);
      drawn := Drawn(turns);
      OutcomeDrops(was, current, vals, rests, turns, choice);
    }

    /** The loop of Choose. */
    method TakeTurns(current: (nat, Item) -> nat, vals: (nat, nat) -> nat, rests: (nat, nat) -> nat,
                     ghost was: map<Item, nat>)
      returns (choice: Option<Item>, ghost turns: seq<Turn>)
      requires Valid() && Random(vals) && was == Weights()
      modifies this, root.Repr
      ensures Valid() && fresh(root.Repr - old(root.Repr))
      ensures Outcome(was, current, vals, rests, turns, choice) && Weights() == Redrawn(was, current, Drawn(turns))
      ensures choice.None? ==> root.sumWeight == 0
    {
      turns, choice := [], None;
      ghost var repr := root.Repr;
      var i: nat := 0;
      while choice.None? && root.sumWeight > 0
        invariant Valid() && fresh(root.Repr - repr) && i == |turns|
        invariant Outcome(was, current, vals, rests, turns, choice)
        invariant Weights() == Redrawn(was, current, Drawn(turns))
        decreases if choice.None? then root.sumWeight + 1 else 0
      {
        ghost var mid := root.Repr;
        choice, turns := TakeTurn(current, vals, rests, i, was, turns);
        assert root.Repr - repr <= (root.Repr - mid) + (mid - repr);
        i := i + 1;
      }
    }

    /** One more turn of Choose. */
    method TakeTurn(current: (nat, Item) -> nat, vals: (nat, nat) -> nat, rests: (nat, nat) -> nat, i: nat,
                    ghost was: map<Item, nat>, ghost turns: seq<Turn>)
      returns (choice: Option<Item>, ghost turns': seq<Turn>)
      requires Valid() && root.sumWeight > 0 && i == |turns| && Random(vals)
      requires Outcome(was, current, vals, rests, turns, None) && Weights() == Redrawn(was, current, Drawn(turns))
      modifies this, root.Repr
      ensures Valid() && fresh(root.Repr - old(root.Repr)) && |turns'| == i + 1
      ensures Outcome(was, current, vals, rests, turns', choice) && Weights() == Redrawn(was, current, Drawn(turns'))
      ensures choice.None? ==> root.sumWeight < old(root.sumWeight)
    {
      ghost var turn;
      var item, taken;
      item, taken, turn := TryOne(current, vals, rests, i);
      OneMoreTurn(was, current, vals, turns, turn);
      turns' := turns + [turn];
      choice := if taken then Some(item) else None;
    }

    /** Any sequence of updates: the set holds what they amount to. */
    method Run(updates: seq<(Item, nat)>)
      requires Valid()
      modifies this, root.Repr
      ensures Valid() && Weights() == Applied(old(Weights()), updates)
    {
      for i := 0 to |updates|
        invariant Valid() && fresh(root.Repr - old(root.Repr)) && Weights() == Applied(old(Weights()), updates[..i])
      {
        assert updates[..i + 1][..i] == updates[..i];
        SetWeight(updates[i].0, updates[i].1);
      }
      assert updates[..|updates|] == updates;
    }
  }
}
