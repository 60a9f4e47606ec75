/** What splitting, closing and updating panes keeps and changes. */
module PaneTreeLaws {
  import opened Common
  import opened PaneTrees

  // ---------------------------------------------------------------- leaves and ids

  lemma LeafIsCounted(t: PaneTree, id: string)
    ensures HasLeaf(t, id) ==> IdCount(t, id) >= 1
    decreases t, 1
  {
    if t.Split? {
      ForestLeafIsCounted(t.children, id);
    }
  }

  lemma ForestLeafIsCounted(trees: seq<PaneTree>, id: string)
    ensures ForestHasLeaf(trees, id) ==> ForestIdCount(trees, id) >= 1
    decreases trees, 0
  {
    if trees != [] {
      LeafIsCounted(trees[0], id);
      ForestLeafIsCounted(trees[1..], id);
    }
  }

  lemma DirectLeafIsFound(trees: seq<PaneTree>, target: string)
    ensures LeafIndex(trees, target).Some? ==> ForestHasLeaf(trees, target)
  {
  }

  /** Every observation of a forest, unfolded once. */
  lemma Cons(first: PaneTree, rest: seq<PaneTree>, id: string)
    ensures ForestIdCount([first] + rest, id) == IdCount(first, id) + ForestIdCount(rest, id)
    ensures ForestWellFormed([first] + rest) <==> WellFormed(first) && ForestWellFormed(rest)
    ensures ForestLeaves([first] + rest) == Leaves(first) + ForestLeaves(rest)
  {
    assert ([first] + rest)[1..] == rest;
  }

  /** Two trees in front of a forest. */
  lemma ConsTwo(first: PaneTree, second: PaneTree, rest: seq<PaneTree>, id: string)
    ensures var trees := [first, second] + rest;
            && ForestIdCount(trees, id) == IdCount(first, id) + IdCount(second, id) + ForestIdCount(rest, id)
            && (ForestWellFormed(trees) <==> WellFormed(first) && WellFormed(second) && ForestWellFormed(rest))
            && ForestLeaves(trees) == Leaves(first) + Leaves(second) + ForestLeaves(rest)
  {
    Cons(second, rest, id);
    Cons(first, [second] + rest, id);
    assert [first, second] + rest == [first] + ([second] + rest);
  }

  /** The new leaf placed after the first direct child that is the leaf `target`. */
  function AddSibling(trees: seq<PaneTree>, target: string, leaf: PaneTree): seq<PaneTree>
    requires LeafIndex(trees, target).Some?
  {
    if trees[0].Leaf? && trees[0].id == target then [trees[0], leaf] + trees[1..]
    else [trees[0]] + AddSibling(trees[1..], target, leaf)
  }

  lemma {:induction false} AddSiblingAtIndex(trees: seq<PaneTree>, target: string, leaf: PaneTree)
    requires LeafIndex(trees, target).Some?
    ensures var i := LeafIndex(trees, target).value;
            AddSibling(trees, target, leaf) == trees[..i + 1] + [leaf] + trees[i + 1..]
  {
    var i := LeafIndex(trees, target).value;
    if i > 0 {
      AddSiblingAtIndex(trees[1..], target, leaf);
      assert trees[1..][i..] == trees[i + 1..] && trees[1..][..i] == trees[1..i + 1];
      assert AddSibling(trees, target, leaf) == [trees[0]] + (trees[1..i + 1] + [leaf] + trees[i + 1..]);
      assert trees[..i + 1] == [trees[0]] + trees[1..i + 1];
    }
  }

  /** How a split treats the children of a split of the same direction that holds the target. */
  lemma SplitJoins(t: PaneTree, target: string, direction: Direction, splitId: string, leaf: PaneTree)
    requires t.Split? && t.direction == direction && LeafIndex(t.children, target).Some?
    ensures var r := SplitTree(t, target, direction, splitId, leaf).0;
            r == t.(children := AddSibling(t.children, target, leaf),
                    sizes := EvenSizes(|AddSibling(t.children, target, leaf)|))
  {
    AddSiblingAtIndex(t.children, target, leaf);
  }

  // ---------------------------------------------------------------- split

  lemma SplitFinds(t: PaneTree, target: string, direction: Direction, splitId: string, leaf: PaneTree)
    ensures var (r, found) := SplitTree(t, target, direction, splitId, leaf);
            (found <==> HasLeaf(t, target)) && (!found ==> r == t)
    decreases t, 1
  {
    if t.Split? {
      DirectLeafIsFound(t.children, target);
      SplitForestFinds(t.children, target, direction, splitId, leaf);
    }
  }

  lemma SplitForestFinds(trees: seq<PaneTree>, target: string, direction: Direction, splitId: string, leaf: PaneTree)
    ensures var (r, found) := SplitForest(trees, target, direction, splitId, leaf);
            (found <==> ForestHasLeaf(trees, target)) && (!found ==> r == trees)
    decreases trees, 0
  {
    if trees != [] {
      SplitFinds(trees[0], target, direction, splitId, leaf);
      SplitForestFinds(trees[1..], target, direction, splitId, leaf);
    }
  }

  /** The new leaf becomes a sibling in an existing split, so that no new split is made. */
  predicate JoinsSplit(t: PaneTree, target: string, direction: Direction)
    decreases t, 1
  {
    t.Split? && ((t.direction == direction && LeafIndex(t.children, target).Some?)
                 || ForestJoinsSplit(t.children, target, direction))
  }

  predicate ForestJoinsSplit(trees: seq<PaneTree>, target: string, direction: Direction)
    decreases trees, 0
  {
    trees != [] && (if HasLeaf(trees[0], target) then JoinsSplit(trees[0], target, direction)
                    else ForestJoinsSplit(trees[1..], target, direction))
  }

  /** How many of the nodes a split adds are named `id`. */
  function Added(joins: bool, splitId: string, leafId: string, id: string): nat {
    (if id == leafId then 1 else 0) + (if !joins && id == splitId then 1 else 0)
  }

  /** A split adds exactly the new pane's id, and the new split's id unless the pane joins a split. */
  lemma {:induction false} SplitAddsIds(t: PaneTree, target: string, direction: Direction, splitId: string,
                                        leaf: PaneTree, id: string)
    requires HasLeaf(t, target) && leaf.Leaf?
    ensures IdCount(SplitTree(t, target, direction, splitId, leaf).0, id)
            == IdCount(t, id) + Added(JoinsSplit(t, target, direction), splitId, leaf.id, id)
    decreases t, 1
  {
    if t.Leaf? {
      ConsTwo(t, leaf, [], id);
      assert [t, leaf] + [] == [t, leaf];
    } else if t.direction == direction && LeafIndex(t.children, target).Some? {
      SplitJoins(t, target, direction, splitId, leaf);
      SiblingAddsIds(t.children, target, leaf, id);
    } else {
      SplitForestAddsIds(t.children, target, direction, splitId, leaf, id);
    }
  }

  lemma {:induction false} SiblingAddsIds(trees: seq<PaneTree>, target: string, leaf: PaneTree, id: string)
    requires LeafIndex(trees, target).Some? && leaf.Leaf?
    ensures ForestIdCount(AddSibling(trees, target, leaf), id)
            == ForestIdCount(trees, id) + (if id == leaf.id then 1 else 0)
  {
    var r := AddSibling(trees, target, leaf);
    if trees[0].Leaf? && trees[0].id == target {
      ConsTwo(trees[0], leaf, trees[1..], id);
    } else {
      SiblingAddsIds(trees[1..], target, leaf, id);
      assert r[1..] == AddSibling(trees[1..], target, leaf);
    }
  }

  lemma {:induction false} SplitForestAddsIds(trees: seq<PaneTree>, target: string, direction: Direction,
                                              splitId: string, leaf: PaneTree, id: string)
    requires ForestHasLeaf(trees, target) && leaf.Leaf?
    ensures ForestIdCount(SplitForest(trees, target, direction, splitId, leaf).0, id)
            == ForestIdCount(trees, id) + Added(ForestJoinsSplit(trees, target, direction), splitId, leaf.id, id)
    decreases trees, 0
  {
    var r := SplitForest(trees, target, direction, splitId, leaf).0;
    SplitFinds(trees[0], target, direction, splitId, leaf);
    if HasLeaf(trees[0], target) {
      SplitAddsIds(trees[0], target, direction, splitId, leaf, id);
      assert r[1..] == trees[1..];
    } else {
      SplitForestAddsIds(trees[1..], target, direction, splitId, leaf, id);
      assert r[1..] == SplitForest(trees[1..], target, direction, splitId, leaf).0;
    }
  }

  /** A split of a well-formed tree is well formed exactly when the new leaf is, and the new split's
      id is not empty in case one is made. */
  lemma {:induction false} SplitKeepsShape(t: PaneTree, target: string, direction: Direction, splitId: string,
                                           leaf: PaneTree)
    requires HasLeaf(t, target) && leaf.Leaf? && WellFormed(t)
    ensures WellFormed(SplitTree(t, target, direction, splitId, leaf).0)
            <==> LeafOk(leaf) && (JoinsSplit(t, target, direction) || splitId != "")
    decreases t, 1
  {
    if t.Leaf? {
      ConsTwo(t, leaf, [], target);
      assert [t, leaf] + [] == [t, leaf];
    } else if t.direction == direction && LeafIndex(t.children, target).Some? {
      SplitJoins(t, target, direction, splitId, leaf);
      SiblingKeepsShape(t.children, target, leaf);
    } else {
      SplitForestKeepsShape(t.children, target, direction, splitId, leaf);
    }
  }

  lemma {:induction false} SiblingKeepsShape(trees: seq<PaneTree>, target: string, leaf: PaneTree)
    requires LeafIndex(trees, target).Some? && leaf.Leaf? && ForestWellFormed(trees)
    ensures |AddSibling(trees, target, leaf)| == |trees| + 1
    ensures ForestWellFormed(AddSibling(trees, target, leaf)) <==> LeafOk(leaf)
  {
    var r := AddSibling(trees, target, leaf);
    if trees[0].Leaf? && trees[0].id == target {
      ConsTwo(trees[0], leaf, trees[1..], target);
    } else {
      SiblingKeepsShape(trees[1..], target, leaf);
      assert r[1..] == AddSibling(trees[1..], target, leaf);
    }
  }

  lemma {:induction false} SplitForestKeepsShape(trees: seq<PaneTree>, target: string, direction: Direction,
                                                 splitId: string, leaf: PaneTree)
    requires ForestHasLeaf(trees, target) && leaf.Leaf? && ForestWellFormed(trees)
    ensures ForestWellFormed(SplitForest(trees, target, direction, splitId, leaf).0)
            <==> LeafOk(leaf) && (ForestJoinsSplit(trees, target, direction) || splitId != "")
    decreases trees, 0
  {
    var r := SplitForest(trees, target, direction, splitId, leaf).0;
    SplitFinds(trees[0], target, direction, splitId, leaf);
    if HasLeaf(trees[0], target) {
      SplitKeepsShape(trees[0], target, direction, splitId, leaf);
      assert r[1..] == trees[1..];
    } else {
      SplitForestKeepsShape(trees[1..], target, direction, splitId, leaf);
      assert r[1..] == SplitForest(trees[1..], target, direction, splitId, leaf).0;
    }
  }

  function InsertAfter(leaves: seq<PaneTree>, target: string, leaf: PaneTree): seq<PaneTree> {
    if leaves == [] then []
    else if leaves[0].id == target then [leaves[0], leaf] + leaves[1..]
    else [leaves[0]] + InsertAfter(leaves[1..], target, leaf)
  }

  predicate HasId(leaves: seq<PaneTree>, id: string) {
    leaves != [] && (leaves[0].id == id || HasId(leaves[1..], id))
  }

  lemma {:induction false} HasIdAppend(a: seq<PaneTree>, b: seq<PaneTree>, id: string)
    ensures HasId(a + b, id) <==> HasId(a, id) || HasId(b, id)
  {
    if a == [] {
      assert a + b == b;
    } else {
      HasIdAppend(a[1..], b, id);
      assert (a + b)[0] == a[0] && (a + b)[1..] == a[1..] + b;
    }
  }

  lemma {:induction false} InsertAfterAppend(a: seq<PaneTree>, b: seq<PaneTree>, target: string, leaf: PaneTree)
    ensures HasId(a, target) ==> InsertAfter(a + b, target, leaf) == InsertAfter(a, target, leaf) + b
    ensures !HasId(a, target) ==> InsertAfter(a + b, target, leaf) == a + InsertAfter(b, target, leaf)
  {
    if a == [] {
      assert a + b == b;
    } else {
      assert (a + b)[0] == a[0] && (a + b)[1..] == a[1..] + b;
      if a[0].id != target {
        InsertAfterAppend(a[1..], b, target, leaf);
        assert InsertAfter(a + b, target, leaf) == [a[0]] + InsertAfter(a[1..] + b, target, leaf);
      }
    }
  }

  lemma LeavesHoldIds(t: PaneTree, id: string)
    ensures HasLeaf(t, id) <==> HasId(Leaves(t), id)
    decreases t, 1
  {
    match t {
      case Leaf(_, _, _, _, _, _) => assert [t][1..] == [];
      case Split(_, _, children, _) => ForestLeavesHoldIds(children, id);
    }
  }

  lemma ForestLeavesHoldIds(trees: seq<PaneTree>, id: string)
    ensures ForestHasLeaf(trees, id) <==> HasId(ForestLeaves(trees), id)
    decreases trees, 0
  {
    if trees != [] {
      LeavesHoldIds(trees[0], id);
      ForestLeavesHoldIds(trees[1..], id);
      HasIdAppend(Leaves(trees[0]), ForestLeaves(trees[1..]), id);
    }
  }

  /** With distinct ids the pane is inserted directly after the one that is split, in leaf order, and
      every other leaf is untouched. */
  lemma {:induction false} SplitInsertsAfterTarget(t: PaneTree, target: string, direction: Direction, splitId: string,
                                                   leaf: PaneTree)
    requires HasLeaf(t, target) && leaf.Leaf? && IdCount(t, target) == 1
    ensures Leaves(SplitTree(t, target, direction, splitId, leaf).0) == InsertAfter(Leaves(t), target, leaf)
    decreases t, 1
  {
    if t.Leaf? {
      ConsTwo(t, leaf, [], target);
      assert [t, leaf] + [] == [t, leaf];
    } else {
      ForestLeafIsCounted(t.children, target);
      if t.direction == direction && LeafIndex(t.children, target).Some? {
        SplitJoins(t, target, direction, splitId, leaf);
        SiblingInsertsAfterTarget(t.children, target, leaf);
      } else {
        SplitForestInsertsAfterTarget(t.children, target, direction, splitId, leaf);
      }
    }
  }

  lemma {:induction false} SiblingInsertsAfterTarget(trees: seq<PaneTree>, target: string, leaf: PaneTree)
    requires LeafIndex(trees, target).Some? && leaf.Leaf? && ForestIdCount(trees, target) == 1
    ensures ForestLeaves(AddSibling(trees, target, leaf)) == InsertAfter(ForestLeaves(trees), target, leaf)
  {
    var r := AddSibling(trees, target, leaf);
    LeavesHoldIds(trees[0], target);
    InsertAfterAppend(Leaves(trees[0]), ForestLeaves(trees[1..]), target, leaf);
    if trees[0].Leaf? && trees[0].id == target {
      ConsTwo(trees[0], leaf, trees[1..], target);
      assert InsertAfter([trees[0]], target, leaf) == [trees[0], leaf];
    } else {
      DirectLeafIsFound(trees[1..], target);
      ForestLeafIsCounted(trees[1..], target);
      LeafIsCounted(trees[0], target);
      SiblingInsertsAfterTarget(trees[1..], target, leaf);
      assert r[1..] == AddSibling(trees[1..], target, leaf);
    }
  }

  lemma {:induction false} SplitForestInsertsAfterTarget(trees: seq<PaneTree>, target: string, direction: Direction,
                                                         splitId: string, leaf: PaneTree)
    requires ForestHasLeaf(trees, target) && leaf.Leaf? && ForestIdCount(trees, target) == 1
    ensures ForestLeaves(SplitForest(trees, target, direction, splitId, leaf).0)
            == InsertAfter(ForestLeaves(trees), target, leaf)
    decreases trees, 0
  {
    var r := SplitForest(trees, target, direction, splitId, leaf).0;
    SplitFinds(trees[0], target, direction, splitId, leaf);
    LeavesHoldIds(trees[0], target);
    LeafIsCounted(trees[0], target);
    ForestLeafIsCounted(trees[1..], target);
    InsertAfterAppend(Leaves(trees[0]), ForestLeaves(trees[1..]), target, leaf);
    if HasLeaf(trees[0], target) {
      SplitInsertsAfterTarget(trees[0], target, direction, splitId, leaf);
      assert r[1..] == trees[1..];
    } else {
      SplitForestInsertsAfterTarget(trees[1..], target, direction, splitId, leaf);
      assert r[1..] == SplitForest(trees[1..], target, direction, splitId, leaf).0;
    }
  }

  // ---------------------------------------------------------------- close

  function Without(leaves: seq<PaneTree>, id: string): seq<PaneTree> {
    if leaves == [] then []
    else (if leaves[0].id == id then [] else [leaves[0]]) + Without(leaves[1..], id)
  }

  lemma {:induction false} WithoutAppend(a: seq<PaneTree>, b: seq<PaneTree>, id: string)
    ensures Without(a + b, id) == Without(a, id) + Without(b, id)
  {
    if a == [] {
      assert a + b == b;
    } else {
      WithoutAppend(a[1..], b, id);
      assert (a + b)[1..] == a[1..] + b;
    }
  }

  function LeavesOf(t: Option<PaneTree>): seq<PaneTree> {
    if t.Some? then Leaves(t.value) else []
  }

  /** Closing removes exactly the leaves named `id`; nothing is left only if no other leaf was there. */
  lemma {:induction false} RemoveDropsLeaf(t: PaneTree, id: string)
    ensures LeavesOf(RemovePane(t, id)) == Without(Leaves(t), id)
    ensures RemovePane(t, id).None? <==> Without(Leaves(t), id) == []
    decreases t, 1
  {
    if t.Leaf? {
      assert Leaves(t)[1..] == [];
    } else {
      var kept := RemoveFromForest(t.children, id);
      RemoveDropsLeaves(t.children, id);
      if |kept| == 1 {
        assert kept[1..] == [];
      }
    }
  }

  lemma {:induction false} RemoveDropsLeaves(trees: seq<PaneTree>, id: string)
    ensures ForestLeaves(RemoveFromForest(trees, id)) == Without(ForestLeaves(trees), id)
    ensures RemoveFromForest(trees, id) == [] <==> Without(ForestLeaves(trees), id) == []
    decreases trees, 0
  {
    if trees != [] {
      var first, rest := RemovePane(trees[0], id), RemoveFromForest(trees[1..], id);
      RemoveDropsLeaf(trees[0], id);
      RemoveDropsLeaves(trees[1..], id);
      WithoutAppend(Leaves(trees[0]), ForestLeaves(trees[1..]), id);
      if first.Some? {
        assert ([first.value] + rest)[1..] == rest;
      } else {
        assert [] + rest == rest;
      }
    }
  }

  /** Closing never adds an id. */
  lemma {:induction false} RemoveAddsNoId(t: PaneTree, target: string, id: string)
    ensures RemovePane(t, target).Some? ==> IdCount(RemovePane(t, target).value, id) <= IdCount(t, id)
    decreases t, 1
  {
    if t.Split? {
      var kept := RemoveFromForest(t.children, target);
      RemoveFromForestAddsNoId(t.children, target, id);
      if |kept| == 1 {
        assert kept[1..] == [];
      }
    }
  }

  lemma {:induction false} RemoveFromForestAddsNoId(trees: seq<PaneTree>, target: string, id: string)
    ensures ForestIdCount(RemoveFromForest(trees, target), id) <= ForestIdCount(trees, id)
    decreases trees, 0
  {
    if trees != [] {
      var first, rest := RemovePane(trees[0], target), RemoveFromForest(trees[1..], target);
      RemoveAddsNoId(trees[0], target, id);
      RemoveFromForestAddsNoId(trees[1..], target, id);
      if first.Some? {
        assert ([first.value] + rest)[1..] == rest;
      } else {
        assert [] + rest == rest;
      }
    }
  }

  lemma {:induction false} RemoveKeepsShape(t: PaneTree, id: string)
    requires WellFormed(t)
    ensures RemovePane(t, id).Some? ==> WellFormed(RemovePane(t, id).value)
    decreases t, 1
  {
    if t.Split? {
      RemoveFromForestKeepsShape(t.children, id);
      var kept := RemoveFromForest(t.children, id);
      if kept != [] {
        assert WellFormed(kept[0]);
      }
    }
  }

  lemma {:induction false} RemoveFromForestKeepsShape(trees: seq<PaneTree>, id: string)
    requires ForestWellFormed(trees)
    ensures ForestWellFormed(RemoveFromForest(trees, id))
    decreases trees, 0
  {
    if trees != [] {
      var first, rest := RemovePane(trees[0], id), RemoveFromForest(trees[1..], id);
      RemoveKeepsShape(trees[0], id);
      RemoveFromForestKeepsShape(trees[1..], id);
      if first.Some? {
        assert ([first.value] + rest)[1..] == rest;
      } else {
        assert [] + rest == rest;
      }
    }
  }

  /** Closing a pane that is not there evens every split's sizes and changes nothing else. */
  lemma {:induction false} RemoveAbsent(t: PaneTree, id: string)
    requires WellFormed(t) && !HasLeaf(t, id)
    ensures RemovePane(t, id) == Some(Evened(t))
    decreases t, 1
  {
    if t.Split? {
      RemoveAbsentFromForest(t.children, id);
    }
  }

  lemma {:induction false} RemoveAbsentFromForest(trees: seq<PaneTree>, id: string)
    requires ForestWellFormed(trees) && !ForestHasLeaf(trees, id)
    ensures RemoveFromForest(trees, id) == ForestEvened(trees)
    decreases trees, 0
  {
    if trees != [] {
      RemoveAbsent(trees[0], id);
      RemoveAbsentFromForest(trees[1..], id);
    }
  }

  /** Closing the pane a split made gives the original tree back, ids and nesting, with even sizes. */
  lemma {:induction false} CloseUndoesSplit(t: PaneTree, target: string, direction: Direction, splitId: string,
                                            leaf: PaneTree)
    requires WellFormed(t) && HasLeaf(t, target) && leaf.Leaf? && !HasLeaf(t, leaf.id)
    ensures RemovePane(SplitTree(t, target, direction, splitId, leaf).0, leaf.id) == Some(Evened(t))
    decreases t, 1
  {
    if t.Leaf? {
      assert [t, leaf][1..] == [leaf] && [leaf][1..] == [];
      assert RemoveFromForest([leaf], leaf.id) == [];
      assert RemoveFromForest([t, leaf], leaf.id) == [t];
    } else if t.direction == direction && LeafIndex(t.children, target).Some? {
      SplitJoins(t, target, direction, splitId, leaf);
      CloseUndoesSibling(t.children, target, leaf);
    } else {
      CloseUndoesSplitForest(t.children, target, direction, splitId, leaf);
    }
  }

  lemma {:induction false} CloseUndoesSibling(trees: seq<PaneTree>, target: string, leaf: PaneTree)
    requires LeafIndex(trees, target).Some? && leaf.Leaf?
    requires ForestWellFormed(trees) && !ForestHasLeaf(trees, leaf.id)
    ensures RemoveFromForest(AddSibling(trees, target, leaf), leaf.id) == ForestEvened(trees)
  {
    var r := AddSibling(trees, target, leaf);
    RemoveAbsent(trees[0], leaf.id);
    if trees[0].Leaf? && trees[0].id == target {
      RemoveAbsentFromForest(trees[1..], leaf.id);
      assert r[1..] == [leaf] + trees[1..] && r[1..][1..] == trees[1..];
      assert RemoveFromForest(r[1..], leaf.id) == RemoveFromForest(trees[1..], leaf.id);
    } else {
      CloseUndoesSibling(trees[1..], target, leaf);
      assert r[1..] == AddSibling(trees[1..], target, leaf);
    }
  }

  lemma {:induction false} CloseUndoesSplitForest(trees: seq<PaneTree>, target: string, direction: Direction,
                                                  splitId: string, leaf: PaneTree)
    requires ForestWellFormed(trees) && ForestHasLeaf(trees, target) && leaf.Leaf? && !ForestHasLeaf(trees, leaf.id)
    ensures RemoveFromForest(SplitForest(trees, target, direction, splitId, leaf).0, leaf.id) == ForestEvened(trees)
    decreases trees, 0
  {
    var r := SplitForest(trees, target, direction, splitId, leaf).0;
    SplitFinds(trees[0], target, direction, splitId, leaf);
    if HasLeaf(trees[0], target) {
      CloseUndoesSplit(trees[0], target, direction, splitId, leaf);
      RemoveAbsentFromForest(trees[1..], leaf.id);
      assert r[1..] == trees[1..];
    } else {
      RemoveAbsent(trees[0], leaf.id);
      CloseUndoesSplitForest(trees[1..], target, direction, splitId, leaf);
      assert r[1..] == SplitForest(trees[1..], target, direction, splitId, leaf).0;
    }
  }

  // ---------------------------------------------------------------- sizes

  /** Some split is named `id`, with `n` children if `n` is given. */
  predicate HasSplit(t: PaneTree, id: string, n: Option<nat>)
    decreases t, 1
  {
    t.Split? && ((t.id == id && (n.Some? ==> |t.children| == n.value)) || ForestHasSplit(t.children, id, n))
  }

  predicate ForestHasSplit(trees: seq<PaneTree>, id: string, n: Option<nat>)
    decreases trees, 0
  {
    trees != [] && (HasSplit(trees[0], id, n) || ForestHasSplit(trees[1..], id, n))
  }

  lemma SplitIsCounted(t: PaneTree, id: string, n: Option<nat>)
    ensures HasSplit(t, id, n) ==> IdCount(t, id) >= 1
    decreases t, 1
  {
    if t.Split? {
      ForestSplitIsCounted(t.children, id, n);
    }
  }

  lemma ForestSplitIsCounted(trees: seq<PaneTree>, id: string, n: Option<nat>)
    ensures ForestHasSplit(trees, id, n) ==> ForestIdCount(trees, id) >= 1
    decreases trees, 0
  {
    if trees != [] {
      SplitIsCounted(trees[0], id, n);
      ForestSplitIsCounted(trees[1..], id, n);
    }
  }

  /** Setting sizes succeeds exactly when the split exists with as many children as sizes; it keeps
      every id and leaf, and the tree stays well formed exactly when the sizes are positive. */
  lemma {:induction false} SetSizesMeaning(t: PaneTree, target: string, sizes: seq<real>)
    requires IdCount(t, target) <= 1 && WellFormed(t)
    ensures var (r, found) := SetSplitSizes(t, target, sizes);
            && (found <==> HasSplit(t, target, Some(|sizes|)))
            && (!found ==> r == t)
            && Leaves(r) == Leaves(t)
            && (forall id :: IdCount(r, id) == IdCount(t, id))
            && (WellFormed(r) <==> !found || forall size | size in sizes :: size > 0.0)
    decreases t, 1
  {
    if t.Split? {
      if t.id == target {
        ForestSplitIsCounted(t.children, target, Some(|sizes|));
      } else {
        SetForestSizesMeaning(t.children, target, sizes);
      }
    }
  }

  lemma {:induction false} SetForestSizesMeaning(trees: seq<PaneTree>, target: string, sizes: seq<real>)
    requires ForestIdCount(trees, target) <= 1 && ForestWellFormed(trees)
    ensures var (r, found) := SetForestSizes(trees, target, sizes);
            && (found <==> ForestHasSplit(trees, target, Some(|sizes|)))
            && (!found ==> r == trees)
            && ForestLeaves(r) == ForestLeaves(trees)
            && (forall id :: ForestIdCount(r, id) == ForestIdCount(trees, id))
            && (ForestWellFormed(r) <==> !found || forall size | size in sizes :: size > 0.0)
    decreases trees, 0
  {
    if trees != [] {
      var (r, found) := SetForestSizes(trees, target, sizes);
      SetSizesMeaning(trees[0], target, sizes);
      SetForestSizesMeaning(trees[1..], target, sizes);
      forall id ensures ForestIdCount(r, id) == ForestIdCount(trees, id) {
        assert r[1..] == trees[1..] || r[1..] == SetForestSizes(trees[1..], target, sizes).0;
      }
    }
  }

  // ---------------------------------------------------------------- leaf updates

  function EditFirst(leaves: seq<PaneTree>, target: string, edit: LeafEdit): seq<PaneTree>
    requires forall leaf | leaf in leaves :: leaf.Leaf?
  {
    if leaves == [] then []
    else if leaves[0].id == target then [EditLeaf(leaves[0], edit)] + leaves[1..]
    else [leaves[0]] + EditFirst(leaves[1..], target, edit)
  }

  lemma LeavesAreLeaves(t: PaneTree)
    ensures forall leaf | leaf in Leaves(t) :: leaf.Leaf?
    decreases t, 1
  {
    if t.Split? {
      ForestLeavesAreLeaves(t.children);
    }
  }

  lemma ForestLeavesAreLeaves(trees: seq<PaneTree>)
    ensures forall leaf | leaf in ForestLeaves(trees) :: leaf.Leaf?
    decreases trees, 0
  {
    if trees != [] {
      LeavesAreLeaves(trees[0]);
      ForestLeavesAreLeaves(trees[1..]);
    }
  }

  predicate EditOk(edit: LeafEdit) {
    match edit
    case SetCwd(cwd) => !IsBlank(cwd)
    case SetSession(_) => true
    case SetAgent(agent) =>
      agent.Some? ==>
        && agent.value.kind in ["claude", "codex", "opencode"]
        && !IsBlank(agent.value.command) && !IsBlank(agent.value.sessionId)
    case SetStatus(status) => status.Some? ==> status.value in ["working", "idle", "permission"]
    case SetTitle(_) => true
  }

  /** An update finds the leaf if there is one, keeps every id, and keeps a well-formed tree well
      formed exactly when the new value is acceptable. */
  lemma {:induction false} UpdateMeaning(t: PaneTree, target: string, edit: LeafEdit, id: string)
    requires WellFormed(t)
    ensures var (r, found) := UpdateLeaf(t, target, edit);
            && (found <==> HasLeaf(t, target))
            && (!found ==> r == t)
            && IdCount(r, id) == IdCount(t, id)
            && (WellFormed(r) <==> !found || EditOk(edit))
    decreases t, 1
  {
    if t.Split? {
      UpdateForestMeaning(t.children, target, edit, id);
    }
  }

  lemma {:induction false} UpdateForestMeaning(trees: seq<PaneTree>, target: string, edit: LeafEdit, id: string)
    requires ForestWellFormed(trees)
    ensures var (r, found) := UpdateForest(trees, target, edit);
            && (found <==> ForestHasLeaf(trees, target))
            && (!found ==> r == trees)
            && ForestIdCount(r, id) == ForestIdCount(trees, id)
            && (ForestWellFormed(r) <==> !found || EditOk(edit))
    decreases trees, 0
  {
    if trees != [] {
      var (r, found) := UpdateForest(trees, target, edit);
      UpdateMeaning(trees[0], target, edit, id);
      UpdateForestMeaning(trees[1..], target, edit, id);
      assert r[1..] == trees[1..] || r[1..] == UpdateForest(trees[1..], target, edit).0;
    }
  }

  /** Only the first leaf of that name changes, in place. */
  lemma {:induction false} UpdateEditsOneLeaf(t: PaneTree, target: string, edit: LeafEdit)
    ensures (forall leaf | leaf in Leaves(t) :: leaf.Leaf?)
            && Leaves(UpdateLeaf(t, target, edit).0) == EditFirst(Leaves(t), target, edit)
    ensures UpdateLeaf(t, target, edit).1 <==> HasLeaf(t, target)
    ensures !HasLeaf(t, target) ==> UpdateLeaf(t, target, edit).0 == t
    decreases t, 1
  {
    LeavesAreLeaves(t);
    if t.Split? {
      UpdateEditsOneInForest(t.children, target, edit);
    } else {
      assert EditFirst([t], target, edit) == if t.id == target then [EditLeaf(t, edit)] else [t];
    }
  }

  lemma {:induction false} UpdateEditsOneInForest(trees: seq<PaneTree>, target: string, edit: LeafEdit)
    ensures (forall leaf | leaf in ForestLeaves(trees) :: leaf.Leaf?)
            && ForestLeaves(UpdateForest(trees, target, edit).0) == EditFirst(ForestLeaves(trees), target, edit)
    ensures UpdateForest(trees, target, edit).1 <==> ForestHasLeaf(trees, target)
    ensures !ForestHasLeaf(trees, target) ==> UpdateForest(trees, target, edit).0 == trees
    decreases trees, 0
  {
    ForestLeavesAreLeaves(trees);
    if trees != [] {
      var (r, found) := UpdateForest(trees, target, edit);
      UpdateEditsOneLeaf(trees[0], target, edit);
      UpdateEditsOneInForest(trees[1..], target, edit);
      LeavesHoldIds(trees[0], target);
      EditFirstAppend(Leaves(trees[0]), ForestLeaves(trees[1..]), target, edit);
      assert r[1..] == trees[1..] || r[1..] == UpdateForest(trees[1..], target, edit).0;
    }
  }

  lemma {:induction false} EditFirstAppend(a: seq<PaneTree>, b: seq<PaneTree>, target: string, edit: LeafEdit)
    requires forall leaf | leaf in a + b :: leaf.Leaf?
    ensures (forall leaf | leaf in a :: leaf.Leaf?) && (forall leaf | leaf in b :: leaf.Leaf?)
    ensures EditFirst(a + b, target, edit)
            == if HasId(a, target) then EditFirst(a, target, edit) + b else a + EditFirst(b, target, edit)
  {
    forall leaf | leaf in a || leaf in b ensures leaf.Leaf? {
      assert leaf in a + b;
    }
    if a == [] {
      assert a + b == b;
    } else {
      assert (a + b)[0] == a[0] && (a + b)[1..] == a[1..] + b;
      if a[0].id != target {
        EditFirstAppend(a[1..], b, target, edit);
        assert EditFirst(a + b, target, edit) == [a[0]] + EditFirst(a[1..] + b, target, edit);
      }
    }
  }
}
