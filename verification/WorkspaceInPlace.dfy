/** The workspace document as the agent keeps it: one object, edited in place, whose trees are walked
    by loops that stop at the first hit (src-tauri/src/workspace.rs). */
module WorkspaceInPlace {
  import opened Common
  import opened PaneTrees
  import opened PaneTreeLaws
  import opened WorkspaceDocuments

  // ---------------------------------------------------------------- loops over one tree

  method FindLeafChild(trees: seq<PaneTree>, target: string) returns (r: Option<nat>)
    ensures r == LeafIndex(trees, target)
  {
    for i := 0 to |trees|
      invariant var rest := LeafIndex(trees[i..], target);
                LeafIndex(trees, target) == if rest.Some? then Some(rest.value + i) else None
    {
      assert trees[i..][1..] == trees[i + 1..];
      if trees[i].Leaf? && trees[i].id == target {
        return Some(i);
      }
    }
    r := None;
  }

  /** A walk over children that hits the `i`-th first changes that one and stops. */
  lemma {:induction false} SplitStopsAt(trees: seq<PaneTree>, i: nat, target: string, direction: Direction,
                                        splitId: string, leaf: PaneTree)
    requires i <= |trees| && (forall j | 0 <= j < i :: !HasLeaf(trees[j], target))
    requires i < |trees| ==> HasLeaf(trees[i], target)
    ensures var (r, found) := SplitForest(trees, target, direction, splitId, leaf);
            if i < |trees| then found && r == trees[i := SplitTree(trees[i], target, direction, splitId, leaf).0]
            else !found && r == trees
    decreases i
  {
    if trees != [] {
      SplitFinds(trees[0], target, direction, splitId, leaf);
      if i > 0 {
        SplitStopsAt(trees[1..], i - 1, target, direction, splitId, leaf);
      }
    }
  }

  lemma {:induction false} SetSizesStopsAt(trees: seq<PaneTree>, i: nat, target: string, sizes: seq<real>)
    requires i <= |trees| && (forall j | 0 <= j < i :: !SetSplitSizes(trees[j], target, sizes).1)
    requires i < |trees| ==> SetSplitSizes(trees[i], target, sizes).1
    ensures var (r, found) := SetForestSizes(trees, target, sizes);
            if i < |trees| then found && r == trees[i := SetSplitSizes(trees[i], target, sizes).0]
            else !found && r == trees
    decreases i
  {
    if trees != [] {
      SetSizesMiss(trees[0], target, sizes);
      if i > 0 {
        SetSizesStopsAt(trees[1..], i - 1, target, sizes);
      }
    }
  }

  lemma {:induction false} UpdateStopsAt(trees: seq<PaneTree>, i: nat, target: string, edit: LeafEdit)
    requires i <= |trees| && (forall j | 0 <= j < i :: !HasLeaf(trees[j], target))
    requires i < |trees| ==> HasLeaf(trees[i], target)
    ensures var (r, found) := UpdateForest(trees, target, edit);
            if i < |trees| then found && r == trees[i := UpdateLeaf(trees[i], target, edit).0]
            else !found && r == trees
    decreases i
  {
    if trees != [] {
      UpdateEditsOneLeaf(trees[0], target, edit);
      if i > 0 {
        UpdateStopsAt(trees[1..], i - 1, target, edit);
      }
    }
  }

  lemma {:induction false} EditTabsStopsAt(tabs: seq<Tab>, i: nat, pane: string, edit: LeafEdit)
    requires i <= |tabs| && (forall j | 0 <= j < i :: !HasLeaf(tabs[j].root, pane))
    requires i < |tabs| ==> HasLeaf(tabs[i].root, pane)
    ensures var (r, found) := EditTabs(tabs, pane, edit);
            if i < |tabs| then found && r == tabs[i := tabs[i].(root := UpdateLeaf(tabs[i].root, pane, edit).0)]
            else !found && r == tabs
    decreases i
  {
    if tabs != [] {
      UpdateEditsOneLeaf(tabs[0].root, pane, edit);
      if i > 0 {
        EditTabsStopsAt(tabs[1..], i - 1, pane, edit);
      }
    }
  }

  method SplitInPlace(tree: PaneTree, target: string, direction: Direction, splitId: string, leaf: PaneTree)
    returns (r: PaneTree, found: bool)
    ensures (r, found) == SplitTree(tree, target, direction, splitId, leaf)
    decreases tree
  {
    if tree.Leaf? {
      if tree.id == target {
        return Split(splitId, direction, [tree, leaf], [50.0, 50.0]), true;
      }
      return tree, false;
    }
    var children := tree.children;
    if tree.direction == direction {
      var index := FindLeafChild(children, target);
      if index.Some? {
        var grown := children[..index.value + 1] + [leaf] + children[index.value + 1..];
        return tree.(children := grown, sizes := EvenSizes(|grown|)), true;
      }
    }
    for i := 0 to |children|
      invariant forall j | 0 <= j < i :: !HasLeaf(children[j], target)
    {
      var child, hit := SplitInPlace(children[i], target, direction, splitId, leaf);
      SplitFinds(children[i], target, direction, splitId, leaf);
      if hit {
        SplitStopsAt(children, i, target, direction, splitId, leaf);
        return tree.(children := children[i := child]), true;
      }
    }
    SplitStopsAt(children, |children|, target, direction, splitId, leaf);
    return tree, false;
  }

  method SetSizesInPlace(tree: PaneTree, target: string, sizes: seq<real>) returns (r: PaneTree, found: bool)
    ensures (r, found) == SetSplitSizes(tree, target, sizes)
    decreases tree
  {
    if tree.Leaf? {
      return tree, false;
    }
    var children := tree.children;
    if tree.id == target {
      if |sizes| != |children| {
        return tree, false;
      }
      return tree.(sizes := sizes), true;
    }
    for i := 0 to |children|
      invariant forall j | 0 <= j < i :: !SetSplitSizes(children[j], target, sizes).1
    {
      var child, hit := SetSizesInPlace(children[i], target, sizes);
      SetSizesMiss(children[i], target, sizes);
      if hit {
        SetSizesStopsAt(children, i, target, sizes);
        return tree.(children := children[i := child]), true;
      }
    }
    SetSizesStopsAt(children, |children|, target, sizes);
    return tree, false;
  }

  lemma SetSizesMiss(t: PaneTree, target: string, sizes: seq<real>)
    ensures !SetSplitSizes(t, target, sizes).1 ==> SetSplitSizes(t, target, sizes).0 == t
    decreases t, 1
  {
    if t.Split? {
      SetForestSizesMiss(t.children, target, sizes);
    }
  }

  lemma SetForestSizesMiss(trees: seq<PaneTree>, target: string, sizes: seq<real>)
    ensures !SetForestSizes(trees, target, sizes).1 ==> SetForestSizes(trees, target, sizes).0 == trees
    decreases trees, 0
  {
    if trees != [] {
      SetSizesMiss(trees[0], target, sizes);
      SetForestSizesMiss(trees[1..], target, sizes);
    }
  }

  method UpdateLeafInPlace(tree: PaneTree, target: string, edit: LeafEdit) returns (r: PaneTree, found: bool)
    ensures (r, found) == UpdateLeaf(tree, target, edit)
    decreases tree
  {
    if tree.Leaf? {
      if tree.id != target {
        return tree, false;
      }
      return EditLeaf(tree, edit), true;
    }
    var children := tree.children;
    for i := 0 to |children|
      invariant forall j | 0 <= j < i :: !HasLeaf(children[j], target)
    {
      var child, hit := UpdateLeafInPlace(children[i], target, edit);
      UpdateEditsOneLeaf(children[i], target, edit);
      if hit {
        UpdateStopsAt(children, i, target, edit);
        return tree.(children := children[i := child]), true;
      }
    }
    UpdateStopsAt(children, |children|, target, edit);
    return tree, false;
  }

  // ---------------------------------------------------------------- validation

  /** The tree is well formed and none of its ids repeats or is in `ids`. */
  ghost predicate Acceptable(tree: PaneTree, ids: set<string>) {
    WellFormed(tree) && forall id :: IdCount(tree, id) + (if id in ids then 1 else 0) <= 1
  }

  ghost predicate ForestAcceptable(trees: seq<PaneTree>, ids: set<string>) {
    ForestWellFormed(trees) && forall id :: ForestIdCount(trees, id) + (if id in ids then 1 else 0) <= 1
  }

  lemma {:induction false} ForestSnoc(trees: seq<PaneTree>, i: nat, id: string)
    requires i < |trees|
    ensures ForestIdCount(trees[..i + 1], id) == ForestIdCount(trees[..i], id) + IdCount(trees[i], id)
    ensures ForestWellFormed(trees[..i + 1]) <==> ForestWellFormed(trees[..i]) && WellFormed(trees[i])
    ensures ForestIdCount(trees[..i + 1], id) <= ForestIdCount(trees, id)
    ensures ForestWellFormed(trees) ==> ForestWellFormed(trees[..i + 1])
  {
    if i == 0 {
      assert trees[..1] == [trees[0]] && trees[..1][1..] == [] && trees[..0] == [];
    } else {
      ForestSnoc(trees[1..], i - 1, id);
      assert trees[..i + 1][1..] == trees[1..][..i] && trees[..i][1..] == trees[1..][..i - 1];
    }
  }

  /** `validate_tree`: collects the ids of an acceptable tree and refuses every other tree. */
  method ValidateTree(tree: PaneTree, ids: set<string>) returns (r: Option<set<string>>)
    ensures r.Some? <==> Acceptable(tree, ids)
    ensures r.Some? ==> forall id :: id in r.value <==> id in ids || IdCount(tree, id) > 0
    decreases tree
  {
    if tree.id == "" || tree.id in ids {
      assert IdCount(tree, tree.id) >= 1;
      return None;
    }
    var seen := ids + {tree.id};
    if tree.Leaf? {
      return if LeafOk(tree) then Some(seen) else None;
    }
    var children := tree.children;
    if !ShapeOk(tree) {
      return None;
    }
    var start := seen;
    for i := 0 to |children|
      invariant ForestAcceptable(children[..i], start)
      invariant forall id :: id in seen <==> id in start || ForestIdCount(children[..i], id) > 0
    {
      var next := ValidateTree(children[i], seen);
      forall id
        ensures ForestIdCount(children[..i + 1], id) == ForestIdCount(children[..i], id) + IdCount(children[i], id)
        ensures ForestIdCount(children[..i + 1], id) <= ForestIdCount(children, id)
      {
        ForestSnoc(children, i, id);
      }
      ForestSnoc(children, i, "");
      if next.None? {
        RefusedChild(tree, i, ids, seen);
        return None;
      }
      seen := next.value;
    }
    assert children[..|children|] == children;
    return Some(seen);
  }

  /** A refused child makes the whole tree unacceptable. */
  lemma RefusedChild(tree: PaneTree, i: nat, ids: set<string>, seen: set<string>)
    requires tree.Split? && i < |tree.children|
    requires forall id :: id in seen <==> id in ids + {tree.id} || ForestIdCount(tree.children[..i], id) > 0
    requires !Acceptable(tree.children[i], seen)
    ensures !Acceptable(tree, ids)
  {
    ForestSnoc(tree.children, i, "");
    if WellFormed(tree.children[i]) {
      var id :| IdCount(tree.children[i], id) + (if id in seen then 1 else 0) > 1;
      ForestSnoc(tree.children, i, id);
      assert IdCount(tree, id) + (if id in ids then 1 else 0) > 1;
    }
  }

  ghost predicate TabsAcceptable(tabs: seq<Tab>) {
    TabsWellFormed(tabs) && forall id :: TabsIdCount(tabs, id) <= 1
  }

  ghost predicate Collected(tabs: seq<Tab>, ids: set<string>) {
    forall id :: id in ids <==> TabsIdCount(tabs, id) > 0
  }

  lemma TabsSnoc(tabs: seq<Tab>, i: nat, id: string)
    requires i < |tabs|
    ensures TabsIdCount(tabs[..i + 1], id) == TabsIdCount(tabs[..i], id) + TabIdCount(tabs[i], id)
    ensures TabsIdCount(tabs[..i + 1], id) <= TabsIdCount(tabs, id)
  {
    assert tabs[..i + 1][..i] == tabs[..i] && tabs[..i + 1][i + 1..] == [];
    TabsAround(tabs[..i + 1], i, id);
    TabsAround(tabs, i, id);
  }

  lemma AcceptedTab(tabs: seq<Tab>, i: nat, ids: set<string>, next: set<string>)
    requires i < |tabs| && TabsAcceptable(tabs[..i]) && Collected(tabs[..i], ids)
    requires tabs[i].id !in ids && Acceptable(tabs[i].root, ids + {tabs[i].id})
    requires forall id :: id in next <==> id in ids + {tabs[i].id} || IdCount(tabs[i].root, id) > 0
    ensures TabsAcceptable(tabs[..i + 1]) && Collected(tabs[..i + 1], next)
  {
    var tab, upTo := tabs[i], tabs[..i + 1];
    forall id
      ensures TabsIdCount(upTo, id) == TabsIdCount(tabs[..i], id) + TabIdCount(tab, id)
      ensures TabsIdCount(upTo, id) <= 1
    {
      TabsSnoc(tabs, i, id);
      assert IdCount(tab.root, id) + (if id in ids + {tab.id} then 1 else 0) <= 1;
      assert id in ids <==> TabsIdCount(tabs[..i], id) > 0;
      assert TabsIdCount(tabs[..i], id) <= 1;
    }
    assert forall k | 0 <= k < |upTo| :: upTo[k] == if k < i then tabs[..i][k] else tab;
  }

  lemma RefusedTab(tabs: seq<Tab>, i: nat, ids: set<string>)
    requires i < |tabs| && Collected(tabs[..i], ids)
    requires tabs[i].id in ids || !Acceptable(tabs[i].root, ids + {tabs[i].id})
    ensures !TabsAcceptable(tabs)
  {
    if tabs[i].id in ids {
      TabsSnoc(tabs, i, tabs[i].id);
    } else if WellFormed(tabs[i].root) {
      var id :| IdCount(tabs[i].root, id) + (if id in ids + {tabs[i].id} then 1 else 0) > 1;
      TabsSnoc(tabs, i, id);
    }
  }

  lemma OtherTabsFrom(all: seq<Tab>, i: nat, id: string, kept: seq<Tab>)
    requires i < |all|
    ensures kept + OtherTabs(all[i..], id)
            == (if all[i].id == id then kept else kept + [all[i]]) + OtherTabs(all[i + 1..], id)
  {
    assert all[i..][1..] == all[i + 1..];
  }

  // ---------------------------------------------------------------- the document

  class WorkspaceDocument {
    var id: string
    var revision: nat
    var name: string
    var icon: Option<string>
    var tabs: seq<Tab>

    function State(): (d: Document)
      reads this
      ensures d.id == id && d.name == name && d.tabs == tabs
    {
      Document(id, revision, name, icon, tabs)
    }

    constructor (d: Document)
      ensures State() == d
    {
      id, revision, name, icon, tabs := d.id, d.revision, d.name, d.icon, d.tabs;
    }

    method Validate() returns (ok: bool)
      ensures ok <==> Valid(State())
    {
      if IsBlank(id) || IsBlank(name) {
        return false;
      }
      var ids: set<string> := {};
      for i := 0 to |tabs|
        invariant TabsAcceptable(tabs[..i])
        invariant Collected(tabs[..i], ids)
      {
        var tab := tabs[i];
        var next := None;
        if tab.id !in ids {
          next := ValidateTree(tab.root, ids + {tab.id});
        }
        if next.None? {
          RefusedTab(tabs, i, ids);
          return false;
        }
        AcceptedTab(tabs, i, ids, next.value);
        ids := next.value;
      }
      assert tabs[..|tabs|] == tabs;
      return true;
    }

    method FindTab(tabId: string) returns (r: Option<nat>)
      ensures r == TabIndex(tabs, tabId)
    {
      for i := 0 to |tabs|
        invariant var rest := TabIndex(tabs[i..], tabId);
                  TabIndex(tabs, tabId) == if rest.Some? then Some(rest.value + i) else None
      {
        assert tabs[i..][1..] == tabs[i + 1..];
        if tabs[i].id == tabId {
          return Some(i);
        }
      }
      r := None;
    }

    /** `update_workspace_leaf`: the first tab that holds the pane. */
    method UpdateWorkspaceLeaf(pane: string, edit: LeafEdit) returns (found: bool)
      modifies this`tabs
      ensures (tabs, found) == EditTabs(old(tabs), pane, edit)
    {
      for i := 0 to |tabs|
        invariant tabs == old(tabs)
        invariant forall j | 0 <= j < i :: !HasLeaf(tabs[j].root, pane)
      {
        var root, hit := UpdateLeafInPlace(tabs[i].root, pane, edit);
        UpdateEditsOneLeaf(tabs[i].root, pane, edit);
        if hit {
          EditTabsStopsAt(tabs, i, pane, edit);
          tabs := tabs[i := tabs[i].(root := root)];
          return true;
        }
      }
      EditTabsStopsAt(tabs, |tabs|, pane, edit);
      return false;
    }

    method RetainOthers(tabId: string) returns (found: bool)
      modifies this`tabs
      ensures tabs == OtherTabs(old(tabs), tabId) && found == (|tabs| != |old(tabs)|)
    {
      var all, kept := tabs, [];
      for i := 0 to |all|
        invariant kept + OtherTabs(all[i..], tabId) == OtherTabs(all, tabId)
      {
        OtherTabsFrom(all, i, tabId, kept);
        if all[i].id != tabId {
          kept := kept + [all[i]];
        }
      }
      assert kept + [] == kept;
      found := |kept| != |all|;
      tabs := kept;
    }

    method InsertTab(tab: Tab, index: nat)
      modifies this`tabs
      ensures var at := if index < |old(tabs)| then index else |old(tabs)|;
              tabs == old(tabs)[..at] + [tab] + old(tabs)[at..]
    {
      var at := if index < |tabs| then index else |tabs|;
      tabs := tabs[..at] + [tab] + tabs[at..];
    }

    method MoveTab(from: nat, index: nat)
      requires from < |tabs|
      modifies this`tabs
      ensures var rest := old(tabs)[..from] + old(tabs)[from + 1..];
              var at := if index < |rest| then index else |rest|;
              tabs == rest[..at] + [old(tabs)[from]] + rest[at..]
    {
      var tab := tabs[from];
      tabs := tabs[..from] + tabs[from + 1..];
      InsertTab(tab, index);
    }

    /** Carries out one operation in place and validates the result. */
    method Apply(op: Operation) returns (ok: bool)
      modifies this
      ensures (State(), ok) == Applied(old(State()), op)
    {
      var done := Edit(op);
      if !done {
        return false;
      }
      ok := Validate();
    }

    /** The part of `apply` before the check. */
    method Edit(op: Operation) returns (done: bool)
      modifies this
      ensures (State(), done) == Edited(old(State()), op)
    {
      match op {
        case RenameWorkspace(newName) =>
          if IsBlank(newName) {
            return false;
          }
          name := newName;
        case SetWorkspaceIcon(newIcon) =>
          icon := NonEmpty(newIcon);
        case AddTab(tab, index) =>
          var existing := FindTab(tab.id);
          if existing.Some? {
            return false;
          }
          InsertTab(tab, if index.Some? then index.value else |tabs|);
        case RemoveTab(tabId) =>
          var found := RetainOthers(tabId);
          if !found {
            return false;
          }
        case ReorderTab(tabId, index) =>
          var from := FindTab(tabId);
          if from.None? {
            return false;
          }
          MoveTab(from.value, index);
        case EditPane(pane, edit) =>
          var found := UpdateWorkspaceLeaf(pane, edit);
          if !found {
            return false;
          }
        case _ =>
          var index := FindTab(op.tabId);
          if index.None? {
            return false;
          }
          done := ApplyToTab(index.value, op);
          return;
      }
      done := true;
    }

    method ApplyToTab(i: nat, op: Operation) returns (done: bool)
      requires i < |tabs|
      modifies this`tabs
      ensures var (tab, finished) := EditedTab(old(tabs[i]), op);
              && done == finished
              && tabs == (if tab.Some? then old(tabs)[i := tab.value] else old(tabs)[..i] + old(tabs)[i + 1..])
    {
      var tab := tabs[i];
      done := true;
      match op {
        case RenameTab(_, newName) =>
          tab := tab.(name := newName, customName := Some(newName));
        case ClearTabCustomName(_) =>
          tab := tab.(customName := None);
        case SetTabAutoName(_, newName) =>
          if tab.customName.None? {
            tab := tab.(name := newName);
          }
        case SetTabIcon(_, newIcon) =>
          tab := tab.(icon := NonEmpty(newIcon));
        case SplitPane(_, target, splitId, newPaneId, direction, cwd) =>
          var root;
          root, done := SplitInPlace(tab.root, target, direction, splitId, FreshLeaf(newPaneId, cwd));
          tab := tab.(root := root);
        case ClosePane(_, pane) =>
          var root := RemovePane(tab.root, pane);
          if root.None? {
            tabs := tabs[..i] + tabs[i + 1..];
            return true;
          }
          tab := tab.(root := root.value);
        case SetSizes(_, splitId, sizes) =>
          var root;
          root, done := SetSizesInPlace(tab.root, splitId, sizes);
          tab := tab.(root := root);
        case UpdatePaneCwd(_, pane, cwd) =>
          var root;
          root, done := UpdateLeafInPlace(tab.root, pane, SetCwd(cwd));
          tab := tab.(root := root);
        case _ =>
      }
      tabs := tabs[i := tab];
    }
  }
}
