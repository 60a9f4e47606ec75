/** The client's optimistic twin of the pane tree operations (src/lib/pane-tree.ts), and its
    agreement with the agent's. */
module ClientPaneTree {
  import opened Common
  import opened PaneTrees
  import opened PaneTreeLaws

  // ---------------------------------------------------------------- the transforms

  /** `splitPane`'s inner recursion; `parent` is the direction of the enclosing split, if any. */
  function SplitPane(t: PaneTree, parent: Option<Direction>, target: string, direction: Direction, splitId: string,
                     leaf: PaneTree): PaneTree
    decreases t, 1
  {
    match t
    case Leaf(id, _, _, _, _, _) =>
      if id != target then t
      else if parent == Some(direction) then t
      else Split(splitId, direction, [t, leaf], [50.0, 50.0])
    case Split(_, existing, children, _) =>
      var index := if existing == direction then LeafIndex(children, target) else None;
      if index.Some? then
        var grown := children[..index.value + 1] + [leaf] + children[index.value + 1..];
        t.(children := grown, sizes := EvenSizes(|grown|))
      else
        t.(children := SplitEach(children, existing, target, direction, splitId, leaf))
  }

  function SplitEach(trees: seq<PaneTree>, parent: Direction, target: string, direction: Direction, splitId: string,
                     leaf: PaneTree): seq<PaneTree>
    decreases trees, 0
  {
    if trees == [] then []
    else [SplitPane(trees[0], Some(parent), target, direction, splitId, leaf)]
         + SplitEach(trees[1..], parent, target, direction, splitId, leaf)
  }

  function Remove(t: PaneTree, target: string): Option<PaneTree>
    decreases t, 1
  {
    match t
    case Leaf(id, _, _, _, _, _) => if id == target then None else Some(t)
    case Split(_, _, children, _) =>
      var kept := NonNull(RemoveEach(children, target));
      if |kept| == 0 then None
      else if |kept| == 1 then Some(kept[0])
      else Some(t.(children := kept, sizes := EvenSizes(|kept|)))
  }

  function RemoveEach(trees: seq<PaneTree>, target: string): seq<Option<PaneTree>>
    decreases trees, 0
  {
    if trees == [] then [] else [Remove(trees[0], target)] + RemoveEach(trees[1..], target)
  }

  function NonNull(trees: seq<Option<PaneTree>>): seq<PaneTree> {
    if trees == [] then []
    else (if trees[0].Some? then [trees[0].value] else []) + NonNull(trees[1..])
  }

  function SetSizesAt(t: PaneTree, splitId: string, sizes: seq<real>): PaneTree
    decreases t, 1
  {
    if t.Leaf? then t
    else if t.id == splitId then t.(sizes := sizes)
    else t.(children := SetSizesEach(t.children, splitId, sizes))
  }

  function SetSizesEach(trees: seq<PaneTree>, splitId: string, sizes: seq<real>): seq<PaneTree>
    decreases trees, 0
  {
    if trees == [] then [] else [SetSizesAt(trees[0], splitId, sizes)] + SetSizesEach(trees[1..], splitId, sizes)
  }

  /** `setLeafCwd` and `setLeafAgent`. */
  function SetLeaf(t: PaneTree, id: string, edit: LeafEdit): PaneTree
    decreases t, 1
  {
    if t.Leaf? then (if t.id == id then EditLeaf(t, edit) else t)
    else t.(children := SetEachLeaf(t.children, id, edit))
  }

  function SetEachLeaf(trees: seq<PaneTree>, id: string, edit: LeafEdit): seq<PaneTree>
    decreases trees, 0
  {
    if trees == [] then [] else [SetLeaf(trees[0], id, edit)] + SetEachLeaf(trees[1..], id, edit)
  }

  function LeafIds(t: PaneTree): seq<string> {
    NamesOf(Leaves(t))
  }

  function NamesOf(leaves: seq<PaneTree>): seq<string> {
    if leaves == [] then [] else [leaves[0].id] + NamesOf(leaves[1..])
  }

  lemma FirstName(leaf: PaneTree, rest: seq<PaneTree>)
    ensures NamesOf([leaf] + rest) == [leaf.id] + NamesOf(rest)
  {
    assert ([leaf] + rest)[1..] == rest;
  }

  lemma {:induction false} NamesAppend(a: seq<PaneTree>, b: seq<PaneTree>)
    ensures NamesOf(a + b) == NamesOf(a) + NamesOf(b)
  {
    if a == [] {
      assert a + b == b;
    } else {
      var first, rest := a[0], a[1..];
      NamesAppend(rest, b);
      FirstName(first, rest);
      FirstName(first, rest + b);
      Associative([first], rest, b);
      Associative([first.id], NamesOf(rest), NamesOf(b));
      assert a == [first] + rest;
    }
  }

  /** `collectLeafIds`: pushes the leaf ids onto `acc`, left to right. */
  method CollectLeafIds(node: PaneTree, acc: seq<string>) returns (out: seq<string>)
    ensures out == acc + LeafIds(node)
    decreases node
  {
    out := acc;
    if node.Leaf? {
      out := out + [node.id];
      assert Leaves(node) == [node] && [node][1..] == [] && NamesOf([node]) == [node.id];
    } else {
      for i := 0 to |node.children|
        invariant out == acc + NamesOf(ForestLeaves(node.children[..i]))
      {
        out := CollectLeafIds(node.children[i], out);
        NamesSnoc(node.children, i);
      }
      assert node.children[..|node.children|] == node.children;
    }
  }

  lemma NamesSnoc(trees: seq<PaneTree>, i: nat)
    requires i < |trees|
    ensures NamesOf(ForestLeaves(trees[..i + 1])) == NamesOf(ForestLeaves(trees[..i])) + LeafIds(trees[i])
  {
    assert trees[..i + 1] == trees[..i] + [trees[i]];
    ForestLeavesAppend(trees[..i], [trees[i]]);
    assert ForestLeaves([trees[i]]) == Leaves(trees[i]) + ForestLeaves([trees[i]][1..]) == Leaves(trees[i]);
    NamesAppend(ForestLeaves(trees[..i]), Leaves(trees[i]));
  }

  lemma {:induction false} ForestLeavesAppend(a: seq<PaneTree>, b: seq<PaneTree>)
    ensures ForestLeaves(a + b) == ForestLeaves(a) + ForestLeaves(b)
    decreases |a|
  {
    if a == [] {
      assert a + b == b;
    } else {
      ForestLeavesAppend(a[1..], b);
      assert (a + b)[1..] == a[1..] + b;
    }
  }

  function IndexOf(names: seq<string>, name: string): int {
    if names == [] then -1
    else if names[0] == name then 0
    else
      var later := IndexOf(names[1..], name);
      if later < 0 then -1 else later + 1
  }

  function Others(names: seq<string>, name: string): seq<string> {
    if names == [] then []
    else (if names[0] == name then [] else [names[0]]) + Others(names[1..], name)
  }

  /** The leaf `removePane` focuses next. */
  function NextActive(t: PaneTree, target: string): Option<string> {
    var order := LeafIds(t);
    var others, removed := Others(order, target), IndexOf(order, target);
    var at := if removed - 1 > 0 then removed - 1 else 0;
    if Remove(t, target).None? then None
    else if at < |others| then Some(others[at])
    else None
  }

  // ---------------------------------------------------------------- agreement with the agent

  lemma {:induction false} SplitUntouched(t: PaneTree, parent: Option<Direction>, target: string, direction: Direction,
                                          splitId: string, leaf: PaneTree)
    requires !HasLeaf(t, target)
    ensures SplitPane(t, parent, target, direction, splitId, leaf) == t
    decreases t, 1
  {
    if t.Split? {
      DirectLeafIsFound(t.children, target);
      SplitEachUntouched(t.children, t.direction, target, direction, splitId, leaf);
    }
  }

  lemma {:induction false} SplitEachUntouched(trees: seq<PaneTree>, parent: Direction, target: string,
                                              direction: Direction, splitId: string, leaf: PaneTree)
    requires !ForestHasLeaf(trees, target)
    ensures SplitEach(trees, parent, target, direction, splitId, leaf) == trees
    decreases trees, 0
  {
    if trees != [] {
      SplitUntouched(trees[0], Some(parent), target, direction, splitId, leaf);
      SplitEachUntouched(trees[1..], parent, target, direction, splitId, leaf);
    }
  }

  /** The client splits exactly as the agent does, wherever the target's name is not repeated. */
  lemma {:induction false} SplitAgrees(t: PaneTree, parent: Option<Direction>, target: string, direction: Direction,
                                       splitId: string, leaf: PaneTree)
    requires IdCount(t, target) <= 1
    requires t.Leaf? && t.id == target ==> parent != Some(direction)
    ensures SplitPane(t, parent, target, direction, splitId, leaf)
            == SplitTree(t, target, direction, splitId, leaf).0
    decreases t, 1
  {
    if t.Split? {
      SplitEachAgrees(t.children, t.direction, target, direction, splitId, leaf);
    }
  }

  lemma {:induction false} SplitEachAgrees(trees: seq<PaneTree>, parent: Direction, target: string,
                                           direction: Direction, splitId: string, leaf: PaneTree)
    requires ForestIdCount(trees, target) <= 1
    ensures parent != direction || LeafIndex(trees, target).None? ==>
              SplitEach(trees, parent, target, direction, splitId, leaf)
              == SplitForest(trees, target, direction, splitId, leaf).0
    decreases trees, 0
  {
    if trees != [] && (parent != direction || LeafIndex(trees, target).None?) {
      SplitAgrees(trees[0], Some(parent), target, direction, splitId, leaf);
      SplitFinds(trees[0], target, direction, splitId, leaf);
      if HasLeaf(trees[0], target) {
        LeafIsCounted(trees[0], target);
        ForestLeafIsCounted(trees[1..], target);
        SplitEachUntouched(trees[1..], parent, target, direction, splitId, leaf);
      } else {
        SplitEachAgrees(trees[1..], parent, target, direction, splitId, leaf);
      }
    }
  }

  /** With a repeated name the two differ: the client splits both panes, the agent the first. */
  lemma RepeatedNamesDisagree(pane: PaneTree, leaf: PaneTree, splitId: string)
    requires pane.Leaf? && leaf.Leaf?
    ensures var t := Split("s", Column, [pane, pane], [50.0, 50.0]);
            SplitPane(t, None, pane.id, Row, splitId, leaf) != SplitTree(t, pane.id, Row, splitId, leaf).0
  {
    var t := Split("s", Column, [pane, pane], [50.0, 50.0]);
    var wrapped := Split(splitId, Row, [pane, leaf], [50.0, 50.0]);
    assert [pane, pane][1..] == [pane] && [pane][1..] == [];
    assert SplitEach([pane], Column, pane.id, Row, splitId, leaf) == [wrapped];
    assert SplitPane(t, None, pane.id, Row, splitId, leaf).children == [wrapped, wrapped];
    assert SplitForest([pane, pane], pane.id, Row, splitId, leaf).0 == [wrapped, pane];
  }

  /** Closing agrees on every tree. */
  lemma {:induction false} RemoveAgrees(t: PaneTree, target: string)
    ensures Remove(t, target) == RemovePane(t, target)
    decreases t, 1
  {
    if t.Split? {
      RemoveEachAgrees(t.children, target);
    }
  }

  lemma {:induction false} RemoveEachAgrees(trees: seq<PaneTree>, target: string)
    ensures NonNull(RemoveEach(trees, target)) == RemoveFromForest(trees, target)
    decreases trees, 0
  {
    if trees != [] {
      RemoveAgrees(trees[0], target);
      RemoveEachAgrees(trees[1..], target);
      assert RemoveEach(trees, target)[1..] == RemoveEach(trees[1..], target);
    }
  }

  lemma {:induction false} SetSizesUntouched(t: PaneTree, id: string, sizes: seq<real>)
    requires !HasSplit(t, id, None)
    ensures SetSizesAt(t, id, sizes) == t
    decreases t, 1
  {
    if t.Split? {
      SetSizesEachUntouched(t.children, id, sizes);
    }
  }

  lemma {:induction false} SetSizesEachUntouched(trees: seq<PaneTree>, id: string, sizes: seq<real>)
    requires !ForestHasSplit(trees, id, None)
    ensures SetSizesEach(trees, id, sizes) == trees
    decreases trees, 0
  {
    if trees != [] {
      SetSizesUntouched(trees[0], id, sizes);
      SetSizesEachUntouched(trees[1..], id, sizes);
    }
  }

  lemma {:induction false} SetSizesUnfound(t: PaneTree, id: string, sizes: seq<real>)
    requires !HasSplit(t, id, None)
    ensures SetSplitSizes(t, id, sizes) == (t, false)
    decreases t, 1
  {
    if t.Split? {
      SetForestSizesUnfound(t.children, id, sizes);
    }
  }

  lemma {:induction false} SetForestSizesUnfound(trees: seq<PaneTree>, id: string, sizes: seq<real>)
    requires !ForestHasSplit(trees, id, None)
    ensures SetForestSizes(trees, id, sizes) == (trees, false)
    decreases trees, 0
  {
    if trees != [] {
      SetSizesUnfound(trees[0], id, sizes);
      SetForestSizesUnfound(trees[1..], id, sizes);
      assert [trees[0]] + trees[1..] == trees;
    }
  }

  /** Setting sizes agrees with the agent if and only if the split, when there is one, has as many
      children as sizes are given. */
  lemma {:induction false} SetSizesAgreesIff(t: PaneTree, id: string, sizes: seq<real>)
    requires IdCount(t, id) <= 1 && WellFormed(t)
    ensures SetSizesAt(t, id, sizes) == SetSplitSizes(t, id, sizes).0
            <==> !HasSplit(t, id, None) || HasSplit(t, id, Some(|sizes|))
    decreases t, 1
  {
    if t.Split? {
      if t.id == id {
        ForestSplitIsCounted(t.children, id, Some(|sizes|));
      } else {
        SetSizesEachAgreesIff(t.children, id, sizes);
      }
    }
  }

  lemma {:induction false} SetSizesEachAgreesIff(trees: seq<PaneTree>, id: string, sizes: seq<real>)
    requires ForestIdCount(trees, id) <= 1 && ForestWellFormed(trees)
    ensures SetSizesEach(trees, id, sizes) == SetForestSizes(trees, id, sizes).0
            <==> !ForestHasSplit(trees, id, None) || ForestHasSplit(trees, id, Some(|sizes|))
    decreases trees, 0
  {
    if trees != [] {
      var client, agent := SetSizesEach(trees, id, sizes), SetForestSizes(trees, id, sizes).0;
      assert client[0] == SetSizesAt(trees[0], id, sizes) && client[1..] == SetSizesEach(trees[1..], id, sizes);
      assert agent[0] == SetSplitSizes(trees[0], id, sizes).0;
      SetSizesMeaning(trees[0], id, sizes);
      SplitIsCounted(trees[0], id, None);
      ForestSplitIsCounted(trees[1..], id, None);
      ForestSplitIsCounted(trees[1..], id, Some(|sizes|));
      SplitIsCounted(trees[0], id, Some(|sizes|));
      SetSizesAgreesIff(trees[0], id, sizes);
      if HasSplit(trees[0], id, None) {
        SetSizesEachUntouched(trees[1..], id, sizes);
        SetForestSizesUnfound(trees[1..], id, sizes);
        assert agent[1..] == trees[1..];
        assert client == [client[0]] + client[1..] && agent == [agent[0]] + agent[1..];
      } else {
        SetSizesUntouched(trees[0], id, sizes);
        SetSizesUnfound(trees[0], id, sizes);
        SetSizesEachAgreesIff(trees[1..], id, sizes);
        assert agent[1..] == SetForestSizes(trees[1..], id, sizes).0;
        assert client == [client[0]] + client[1..] && agent == [agent[0]] + agent[1..];
      }
    }
  }

  lemma {:induction false} SetLeafUntouched(t: PaneTree, id: string, edit: LeafEdit)
    requires !HasLeaf(t, id)
    ensures SetLeaf(t, id, edit) == t
    decreases t, 1
  {
    if t.Split? {
      SetEachLeafUntouched(t.children, id, edit);
    }
  }

  lemma {:induction false} SetEachLeafUntouched(trees: seq<PaneTree>, id: string, edit: LeafEdit)
    requires !ForestHasLeaf(trees, id)
    ensures SetEachLeaf(trees, id, edit) == trees
    decreases trees, 0
  {
    if trees != [] {
      SetLeafUntouched(trees[0], id, edit);
      SetEachLeafUntouched(trees[1..], id, edit);
    }
  }

  /** Leaf updates agree wherever the pane's name is not repeated. */
  lemma {:induction false} SetLeafAgrees(t: PaneTree, id: string, edit: LeafEdit)
    requires IdCount(t, id) <= 1
    ensures SetLeaf(t, id, edit) == UpdateLeaf(t, id, edit).0
    decreases t, 1
  {
    if t.Split? {
      SetEachLeafAgrees(t.children, id, edit);
    }
  }

  lemma {:induction false} SetEachLeafAgrees(trees: seq<PaneTree>, id: string, edit: LeafEdit)
    requires ForestIdCount(trees, id) <= 1
    ensures SetEachLeaf(trees, id, edit) == UpdateForest(trees, id, edit).0
    decreases trees, 0
  {
    if trees != [] {
      SetLeafAgrees(trees[0], id, edit);
      UpdateEditsOneLeaf(trees[0], id, edit);
      if HasLeaf(trees[0], id) {
        LeafIsCounted(trees[0], id);
        ForestLeafIsCounted(trees[1..], id);
        SetEachLeafUntouched(trees[1..], id, edit);
      } else {
        SetEachLeafAgrees(trees[1..], id, edit);
      }
    }
  }

  // ---------------------------------------------------------------- the next focus

  lemma {:induction false} OthersAreNamesWithout(leaves: seq<PaneTree>, id: string)
    ensures Others(NamesOf(leaves), id) == NamesOf(Without(leaves, id))
  {
    if leaves != [] {
      OthersAreNamesWithout(leaves[1..], id);
      assert NamesOf(leaves)[1..] == NamesOf(leaves[1..]);
      NamesAppend(if leaves[0].id == id then [] else [leaves[0]], Without(leaves[1..], id));
      assert NamesOf([leaves[0]]) == [leaves[0].id];
    }
  }

  lemma {:induction false} NamesBelongToLeaves(leaves: seq<PaneTree>, i: nat)
    requires i < |NamesOf(leaves)|
    ensures HasId(leaves, NamesOf(leaves)[i])
  {
    if i > 0 {
      NamesBelongToLeaves(leaves[1..], i - 1);
    }
  }

  /** What stands before the first occurrence of a name survives at its place. */
  lemma {:induction false} BeforeSurvives(names: seq<string>, name: string, i: nat)
    requires i < IndexOf(names, name)
    ensures i < |Others(names, name)| && i < |names| && Others(names, name)[i] == names[i]
  {
    if i > 0 {
      BeforeSurvives(names[1..], name, i - 1);
      assert Others(names, name) == [names[0]] + Others(names[1..], name);
    }
  }

  /** While the tab lives on, the next focus is a surviving pane: the one before the closed pane, or
      the first survivor if there is none before it. */
  lemma NextActiveSurvives(t: PaneTree, target: string)
    ensures Remove(t, target).Some? <==> NextActive(t, target).Some?
    ensures Remove(t, target).Some? ==>
              var next, at := NextActive(t, target).value, IndexOf(LeafIds(t), target);
              && HasLeaf(Remove(t, target).value, next)
              && (at > 0 ==> at <= |LeafIds(t)| && next == LeafIds(t)[at - 1])
              && (at <= 0 ==> LeafIds(Remove(t, target).value) != [] && next == LeafIds(Remove(t, target).value)[0])
  {
    RemoveAgrees(t, target);
    RemoveDropsLeaf(t, target);
    var order, kept := LeafIds(t), Without(Leaves(t), target);
    var others, removed := Others(order, target), IndexOf(order, target);
    OthersAreNamesWithout(Leaves(t), target);
    if Remove(t, target).Some? {
      if removed > 0 {
        BeforeSurvives(order, target, removed - 1);
      }
      var at := if removed - 1 > 0 then removed - 1 else 0;
      assert others == NamesOf(kept) && kept != [];
      assert at < |others|;
      NamesBelongToLeaves(kept, at);
      LeavesHoldIds(Remove(t, target).value, others[at]);
    }
  }
}
