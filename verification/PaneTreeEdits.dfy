/** What an accepted edit writes into a tree, and what it leaves alone. */
module PaneTreeEdits {
  import opened Common
  import opened PaneTrees
  import opened PaneTreeLaws

  // ---------------------------------------------------------------- leaf updates

  /** The leaf has the value asked for, and nothing else about it changes. */
  predicate Written(before: PaneTree, after: PaneTree, edit: LeafEdit)
    requires before.Leaf?
  {
    && after.Leaf? && after.id == before.id
    && after.cwd == (if edit.SetCwd? then edit.cwd else before.cwd)
    && after.sessionId == (if edit.SetSession? then Some(edit.sessionId) else before.sessionId)
    && after.agent == (if edit.SetAgent? then edit.agent else before.agent)
    && after.runtimeStatus == (if edit.SetStatus? then edit.status else before.runtimeStatus)
    && after.runtimeTitle == (if edit.SetTitle? then edit.title else before.runtimeTitle)
  }

  /** Both trees have the same splits; the leaf `target` is written, and every other leaf is the same. */
  predicate WrittenAt(t: PaneTree, u: PaneTree, target: string, edit: LeafEdit)
    decreases t, 1
  {
    match t
    case Leaf(id, _, _, _, _, _) => if id == target then Written(t, u, edit) else u == t
    case Split(id, direction, children, sizes) =>
      && u.Split? && u.id == id && u.direction == direction && u.sizes == sizes
      && ForestWrittenAt(children, u.children, target, edit)
  }

  predicate ForestWrittenAt(trees: seq<PaneTree>, others: seq<PaneTree>, target: string, edit: LeafEdit)
    decreases trees, 0
  {
    if trees == [] then others == []
    else others != [] && WrittenAt(trees[0], others[0], target, edit)
         && ForestWrittenAt(trees[1..], others[1..], target, edit)
  }

  lemma {:induction false} AbsentIsUnwritten(t: PaneTree, target: string, edit: LeafEdit)
    requires !HasLeaf(t, target)
    ensures WrittenAt(t, t, target, edit)
    decreases t, 1
  {
    if t.Split? {
      AbsentFromForest(t.children, target, edit);
    }
  }

  lemma {:induction false} AbsentFromForest(trees: seq<PaneTree>, target: string, edit: LeafEdit)
    requires !ForestHasLeaf(trees, target)
    ensures ForestWrittenAt(trees, trees, target, edit)
    decreases trees, 0
  {
    if trees != [] {
      AbsentIsUnwritten(trees[0], target, edit);
      AbsentFromForest(trees[1..], target, edit);
    }
  }

  /** An update writes the leaf of that id and changes nothing else, whichever field it is for. */
  lemma {:induction false} UpdateWrites(t: PaneTree, target: string, edit: LeafEdit)
    requires IdCount(t, target) <= 1
    ensures WrittenAt(t, UpdateLeaf(t, target, edit).0, target, edit)
    ensures UpdateLeaf(t, target, edit).1 <==> HasLeaf(t, target)
    decreases t, 1
  {
    if t.Split? {
      ForestUpdateWrites(t.children, target, edit);
    }
  }

  lemma {:induction false} ForestUpdateWrites(trees: seq<PaneTree>, target: string, edit: LeafEdit)
    requires ForestIdCount(trees, target) <= 1
    ensures ForestWrittenAt(trees, UpdateForest(trees, target, edit).0, target, edit)
    ensures UpdateForest(trees, target, edit).1 <==> ForestHasLeaf(trees, target)
    decreases trees, 0
  {
    if trees != [] {
      var r := UpdateForest(trees, target, edit).0;
      UpdateWrites(trees[0], target, edit);
      ForestUpdateWrites(trees[1..], target, edit);
      if HasLeaf(trees[0], target) {
        LeafIsCounted(trees[0], target);
        ForestLeafIsCounted(trees[1..], target);
        AbsentFromForest(trees[1..], target, edit);
        assert r[1..] == trees[1..];
      } else {
        assert r[1..] == UpdateForest(trees[1..], target, edit).0;
      }
    }
  }

  // ---------------------------------------------------------------- sizes

  /** Both trees are the same but for the sizes of the splits named `target`, which are the ones given. */
  predicate SizedAt(t: PaneTree, u: PaneTree, target: string, sizes: seq<real>)
    decreases t, 1
  {
    match t
    case Leaf(_, _, _, _, _, _) => u == t
    case Split(id, direction, children, before) =>
      && u.Split? && u.id == id && u.direction == direction
      && u.sizes == (if id == target then sizes else before)
      && ForestSizedAt(children, u.children, target, sizes)
  }

  predicate ForestSizedAt(trees: seq<PaneTree>, others: seq<PaneTree>, target: string, sizes: seq<real>)
    decreases trees, 0
  {
    if trees == [] then others == []
    else others != [] && SizedAt(trees[0], others[0], target, sizes)
         && ForestSizedAt(trees[1..], others[1..], target, sizes)
  }

  lemma {:induction false} AbsentIsUnsized(t: PaneTree, target: string, sizes: seq<real>)
    requires IdCount(t, target) == 0
    ensures SizedAt(t, t, target, sizes)
    decreases t, 1
  {
    if t.Split? {
      AbsentForestIsUnsized(t.children, target, sizes);
    }
  }

  lemma {:induction false} AbsentForestIsUnsized(trees: seq<PaneTree>, target: string, sizes: seq<real>)
    requires ForestIdCount(trees, target) == 0
    ensures ForestSizedAt(trees, trees, target, sizes)
    decreases trees, 0
  {
    if trees != [] {
      AbsentIsUnsized(trees[0], target, sizes);
      AbsentForestIsUnsized(trees[1..], target, sizes);
    }
  }

  /** Setting sizes writes them into the split of that id and changes nothing else. */
  lemma {:induction false} SetSizesWrites(t: PaneTree, target: string, sizes: seq<real>)
    requires IdCount(t, target) <= 1 && SetSplitSizes(t, target, sizes).1
    ensures SizedAt(t, SetSplitSizes(t, target, sizes).0, target, sizes) && IdCount(t, target) == 1
    decreases t, 1
  {
    if t.id == target {
      AbsentForestIsUnsized(t.children, target, sizes);
    } else {
      SetForestSizesWrites(t.children, target, sizes);
    }
  }

  lemma {:induction false} SetForestSizesWrites(trees: seq<PaneTree>, target: string, sizes: seq<real>)
    requires ForestIdCount(trees, target) <= 1 && SetForestSizes(trees, target, sizes).1
    ensures ForestSizedAt(trees, SetForestSizes(trees, target, sizes).0, target, sizes)
    ensures ForestIdCount(trees, target) == 1
    decreases trees, 0
  {
    var r := SetForestSizes(trees, target, sizes).0;
    if SetSplitSizes(trees[0], target, sizes).1 {
      SetSizesWrites(trees[0], target, sizes);
      AbsentForestIsUnsized(trees[1..], target, sizes);
      assert r[1..] == trees[1..];
    } else {
      SetForestSizesWrites(trees[1..], target, sizes);
      MissedIsSame(trees[0], target, sizes);
      AbsentIsUnsized(trees[0], target, sizes);
      assert r[1..] == SetForestSizes(trees[1..], target, sizes).0;
    }
  }

  /** Where no sizes are set, the tree is the same. */
  lemma {:induction false} MissedIsSame(t: PaneTree, target: string, sizes: seq<real>)
    requires !SetSplitSizes(t, target, sizes).1
    ensures SetSplitSizes(t, target, sizes).0 == t
    decreases t, 1
  {
    if t.Split? && t.id != target {
      MissedForestIsSame(t.children, target, sizes);
    }
  }

  lemma {:induction false} MissedForestIsSame(trees: seq<PaneTree>, target: string, sizes: seq<real>)
    requires !SetForestSizes(trees, target, sizes).1
    ensures SetForestSizes(trees, target, sizes).0 == trees
    decreases trees, 0
  {
    if trees != [] {
      MissedIsSame(trees[0], target, sizes);
      MissedForestIsSame(trees[1..], target, sizes);
    }
  }

  // ---------------------------------------------------------------- splits

  /** All of `n` sizes are one share of a hundred. */
  predicate Even(sizes: seq<real>, n: nat) {
    |sizes| == n && forall i | 0 <= i < n :: sizes[i] * (n as real) == 100.0
  }

  /** Somewhere in the tree is a split of that direction with even sizes, in which the second leaf comes
      directly after the leaf `target`. */
  predicate Neighbours(t: PaneTree, direction: Direction, target: string, leaf: PaneTree)
    decreases t, 1
  {
    t.Split? && ((t.direction == direction && Even(t.sizes, |t.children|) && Follows(t.children, target, leaf))
                 || ForestNeighbours(t.children, direction, target, leaf))
  }

  predicate ForestNeighbours(trees: seq<PaneTree>, direction: Direction, target: string, leaf: PaneTree)
    decreases trees, 0
  {
    trees != [] && (Neighbours(trees[0], direction, target, leaf)
                    || ForestNeighbours(trees[1..], direction, target, leaf))
  }

  predicate Follows(trees: seq<PaneTree>, target: string, leaf: PaneTree) {
    exists k | 0 < k < |trees| :: trees[k] == leaf && trees[k - 1].Leaf? && trees[k - 1].id == target
  }

  lemma EvenSizesAreEven(n: nat)
    requires n > 0
    ensures Even(EvenSizes(n), n)
  {
  }

  /** After a split the new leaf is the target's neighbour in a split of the direction asked for, with even
      sizes. */
  lemma {:induction false} SplitMakesNeighbours(t: PaneTree, target: string, direction: Direction, splitId: string,
                                                leaf: PaneTree)
    requires HasLeaf(t, target)
    ensures Neighbours(SplitTree(t, target, direction, splitId, leaf).0, direction, target, leaf)
    decreases t, 1
  {
    var u := SplitTree(t, target, direction, splitId, leaf).0;
    if t.Leaf? {
      assert u.children[1] == leaf && u.children[0] == t;
    } else if t.direction == direction && LeafIndex(t.children, target).Some? {
      var i := LeafIndex(t.children, target).value;
      EvenSizesAreEven(|u.children|);
      assert u.children[i + 1] == leaf && u.children[i] == t.children[i];
    } else {
      ForestSplitMakesNeighbours(t.children, target, direction, splitId, leaf);
    }
  }

  lemma {:induction false} ForestSplitMakesNeighbours(trees: seq<PaneTree>, target: string, direction: Direction,
                                                      splitId: string, leaf: PaneTree)
    requires ForestHasLeaf(trees, target)
    ensures ForestNeighbours(SplitForest(trees, target, direction, splitId, leaf).0, direction, target, leaf)
    decreases trees, 0
  {
    SplitFinds(trees[0], target, direction, splitId, leaf);
    if HasLeaf(trees[0], target) {
      SplitMakesNeighbours(trees[0], target, direction, splitId, leaf);
    } else {
      ForestSplitMakesNeighbours(trees[1..], target, direction, splitId, leaf);
      assert SplitForest(trees, target, direction, splitId, leaf).0[1..]
          == SplitForest(trees[1..], target, direction, splitId, leaf).0;
    }
  }

  /** Some split has that id, direction and sizes. */
  predicate HasSized(t: PaneTree, id: string, direction: Direction, sizes: seq<real>)
    decreases t, 1
  {
    t.Split? && ((t.id == id && t.direction == direction && t.sizes == sizes)
                 || ForestHasSized(t.children, id, direction, sizes))
  }

  predicate ForestHasSized(trees: seq<PaneTree>, id: string, direction: Direction, sizes: seq<real>)
    decreases trees, 0
  {
    trees != [] && (HasSized(trees[0], id, direction, sizes) || ForestHasSized(trees[1..], id, direction, sizes))
  }

  /** Some split of that id and direction has the leaf `target` as a child. */
  predicate Holds(t: PaneTree, id: string, direction: Direction, target: string)
    decreases t, 1
  {
    t.Split? && ((t.id == id && t.direction == direction && LeafIndex(t.children, target).Some?)
                 || ForestHolds(t.children, id, direction, target))
  }

  predicate ForestHolds(trees: seq<PaneTree>, id: string, direction: Direction, target: string)
    decreases trees, 0
  {
    trees != [] && (Holds(trees[0], id, direction, target) || ForestHolds(trees[1..], id, direction, target))
  }

  /** A split keeps the direction and the sizes of every split, but for one of its direction that holds the
      target. */
  lemma {:induction false} SplitKeepsSizes(t: PaneTree, target: string, direction: Direction, splitId: string,
                                           leaf: PaneTree, id: string, existing: Direction, sizes: seq<real>)
    requires HasSized(t, id, existing, sizes) && !Holds(t, id, direction, target)
    ensures HasSized(SplitTree(t, target, direction, splitId, leaf).0, id, existing, sizes)
    decreases t, 1
  {
    if t.direction == direction && LeafIndex(t.children, target).Some? {
      SplitJoins(t, target, direction, splitId, leaf);
      SiblingKeepsSized(t.children, target, leaf, id, existing, sizes);
    } else if ForestHasSized(t.children, id, existing, sizes) {
      ForestSplitKeepsSizes(t.children, target, direction, splitId, leaf, id, existing, sizes);
    }
  }

  lemma {:induction false} ForestSplitKeepsSizes(trees: seq<PaneTree>, target: string, direction: Direction,
                                                 splitId: string, leaf: PaneTree, id: string, existing: Direction,
                                                 sizes: seq<real>)
    requires ForestHasSized(trees, id, existing, sizes) && !ForestHolds(trees, id, direction, target)
    ensures ForestHasSized(SplitForest(trees, target, direction, splitId, leaf).0, id, existing, sizes)
    decreases trees, 0
  {
    var r := SplitForest(trees, target, direction, splitId, leaf).0;
    if HasSized(trees[0], id, existing, sizes) {
      SplitKeepsSizes(trees[0], target, direction, splitId, leaf, id, existing, sizes);
    } else {
      ForestSplitKeepsSizes(trees[1..], target, direction, splitId, leaf, id, existing, sizes);
      assert r[1..] == trees[1..] || r[1..] == SplitForest(trees[1..], target, direction, splitId, leaf).0;
    }
  }

  lemma {:induction false} SiblingKeepsSized(trees: seq<PaneTree>, target: string, leaf: PaneTree, id: string,
                                             direction: Direction, sizes: seq<real>)
    requires LeafIndex(trees, target).Some? && ForestHasSized(trees, id, direction, sizes)
    ensures ForestHasSized(AddSibling(trees, target, leaf), id, direction, sizes)
  {
    var r := AddSibling(trees, target, leaf);
    if trees[0].Leaf? && trees[0].id == target {
      assert r[1..][1..] == trees[1..];
    } else if !HasSized(trees[0], id, direction, sizes) {
      SiblingKeepsSized(trees[1..], target, leaf, id, direction, sizes);
      assert r[1..] == AddSibling(trees[1..], target, leaf);
    }
  }

  // ---------------------------------------------------------------- closing

  /** Closing leaves every split with even sizes. */
  lemma {:induction false} RemoveIsEven(t: PaneTree, target: string)
    ensures RemovePane(t, target).Some? ==> Evened(RemovePane(t, target).value) == RemovePane(t, target).value
    decreases t, 1
  {
    if t.Split? {
      RemoveFromForestIsEven(t.children, target);
      var kept := RemoveFromForest(t.children, target);
      if |kept| == 1 {
        assert ForestEvened(kept)[0] == Evened(kept[0]);
      }
    }
  }

  lemma {:induction false} RemoveFromForestIsEven(trees: seq<PaneTree>, target: string)
    ensures ForestEvened(RemoveFromForest(trees, target)) == RemoveFromForest(trees, target)
    decreases trees, 0
  {
    if trees != [] {
      RemoveIsEven(trees[0], target);
      RemoveFromForestIsEven(trees[1..], target);
      var first := RemovePane(trees[0], target);
      if first.Some? {
        assert RemoveFromForest(trees, target)[1..] == RemoveFromForest(trees[1..], target);
      } else {
        assert RemoveFromForest(trees, target) == RemoveFromForest(trees[1..], target);
      }
    }
  }

  /** Some split has that id and direction. */
  predicate Directed(t: PaneTree, id: string, direction: Direction)
    decreases t, 1
  {
    t.Split? && ((t.id == id && t.direction == direction) || ForestDirected(t.children, id, direction))
  }

  predicate ForestDirected(trees: seq<PaneTree>, id: string, direction: Direction)
    decreases trees, 0
  {
    trees != [] && (Directed(trees[0], id, direction) || ForestDirected(trees[1..], id, direction))
  }

  /** Every split that is left after a pane is closed has been there before, in the same direction. */
  lemma {:induction false} CloseKeepsDirections(t: PaneTree, target: string, id: string, direction: Direction)
    requires RemovePane(t, target).Some? && Directed(RemovePane(t, target).value, id, direction)
    ensures Directed(t, id, direction)
    decreases t, 1
  {
    var kept := RemoveFromForest(t.children, target);
    if ForestDirected(kept, id, direction) || |kept| == 1 {
      ForestCloseKeepsDirections(t.children, target, id, direction);
    }
  }

  lemma {:induction false} ForestCloseKeepsDirections(trees: seq<PaneTree>, target: string, id: string,
                                                      direction: Direction)
    requires ForestDirected(RemoveFromForest(trees, target), id, direction)
    ensures ForestDirected(trees, id, direction)
    decreases trees, 0
  {
    var first, rest := RemovePane(trees[0], target), RemoveFromForest(trees[1..], target);
    if first.Some? && Directed(first.value, id, direction) {
      CloseKeepsDirections(trees[0], target, id, direction);
    } else {
      assert first.Some? ==> RemoveFromForest(trees, target)[1..] == rest;
      assert first.None? ==> RemoveFromForest(trees, target) == rest;
      ForestCloseKeepsDirections(trees[1..], target, id, direction);
    }
  }

  /** An even tree has one share of a hundred for every child of every split. */
  predicate AllEven(t: PaneTree)
    decreases t, 1
  {
    t.Split? ==> (t.children == [] || Even(t.sizes, |t.children|)) && ForestAllEven(t.children)
  }

  predicate ForestAllEven(trees: seq<PaneTree>)
    decreases trees, 0
  {
    trees == [] || (AllEven(trees[0]) && ForestAllEven(trees[1..]))
  }

  lemma {:induction false} EvenedIsEven(t: PaneTree)
    ensures AllEven(Evened(t))
    decreases t, 1
  {
    if t.Split? {
      ForestEvenedIsEven(t.children);
      if t.children != [] {
        EvenSizesAreEven(|t.children|);
      }
    }
  }

  lemma {:induction false} ForestEvenedIsEven(trees: seq<PaneTree>)
    ensures ForestAllEven(ForestEvened(trees))
    decreases trees, 0
  {
    if trees != [] {
      EvenedIsEven(trees[0]);
      ForestEvenedIsEven(trees[1..]);
      assert ForestEvened(trees)[1..] == ForestEvened(trees[1..]);
    }
  }

  /** After a pane is closed, every split that is left has even sizes. */
  lemma CloseEvens(t: PaneTree, target: string)
    ensures RemovePane(t, target).Some? ==> AllEven(RemovePane(t, target).value)
  {
    RemoveIsEven(t, target);
    if RemovePane(t, target).Some? {
      EvenedIsEven(RemovePane(t, target).value);
    }
  }
}
