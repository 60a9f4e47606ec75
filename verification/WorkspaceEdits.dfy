/** What each accepted operation writes into a workspace document, and what it leaves alone. */
module WorkspaceEdits {
  import opened Common
  import opened PaneTrees
  import PaneTreeLaws
  import opened PaneTreeEdits
  import opened WorkspaceDocuments

  /** The documents differ at most in the tree of tab `i`. */
  predicate OnlyTree(d: Document, e: Document, i: nat) {
    i < |d.tabs| == |e.tabs| && e == d.(tabs := d.tabs[i := d.tabs[i].(root := e.tabs[i].root)])
  }

  // ---------------------------------------------------------------- panes

  /** The documents differ at most in the pane of that id, which is written. */
  ghost predicate PaneWritten(d: Document, e: Document, pane: string, edit: LeafEdit) {
    && e.(tabs := d.tabs) == d && TabsWritten(d.tabs, e.tabs, pane, edit)
  }

  ghost predicate TabsWritten(tabs: seq<Tab>, after: seq<Tab>, pane: string, edit: LeafEdit) {
    && |after| == |tabs|
    && forall i | 0 <= i < |tabs| ::
         after[i].(root := tabs[i].root) == tabs[i] && WrittenAt(tabs[i].root, after[i].root, pane, edit)
  }

  lemma NotCountedIsNotHeld(tabs: seq<Tab>, pane: string, i: nat)
    requires i < |tabs| && TabsIdCount(tabs, pane) == 0
    ensures !HasLeaf(tabs[i].root, pane)
  {
    TabsAround(tabs, i, pane);
    PaneTreeLaws.LeafIsCounted(tabs[i].root, pane);
  }

  lemma UnwrittenTabs(tabs: seq<Tab>, pane: string, edit: LeafEdit)
    requires TabsIdCount(tabs, pane) == 0
    ensures TabsWritten(tabs, tabs, pane, edit)
  {
    forall i | 0 <= i < |tabs| ensures WrittenAt(tabs[i].root, tabs[i].root, pane, edit) {
      NotCountedIsNotHeld(tabs, pane, i);
      AbsentIsUnwritten(tabs[i].root, pane, edit);
    }
  }

  lemma {:induction false} EditTabsWrites(tabs: seq<Tab>, pane: string, edit: LeafEdit)
    requires TabsIdCount(tabs, pane) <= 1
    ensures TabsWritten(tabs, EditTabs(tabs, pane, edit).0, pane, edit)
  {
    if tabs != [] {
      var r := EditTabs(tabs, pane, edit).0;
      UpdateWrites(tabs[0].root, pane, edit);
      var rest := if HasLeaf(tabs[0].root, pane) then tabs[1..] else EditTabs(tabs[1..], pane, edit).0;
      if HasLeaf(tabs[0].root, pane) {
        PaneTreeLaws.LeafIsCounted(tabs[0].root, pane);
        UnwrittenTabs(tabs[1..], pane, edit);
      } else {
        EditTabsWrites(tabs[1..], pane, edit);
      }
      assert r == [tabs[0].(root := UpdateLeaf(tabs[0].root, pane, edit).0)] + rest;
      forall i | 0 < i < |tabs|
        ensures r[i].(root := tabs[i].root) == tabs[i] && WrittenAt(tabs[i].root, r[i].root, pane, edit)
      {
        assert tabs[i] == tabs[1..][i - 1] && r[i] == rest[i - 1];
      }
    }
  }

  /** Binding a session, an agent, a status or a title writes that field of the pane, and nothing else. */
  lemma PaneEditWrites(d: Document, op: Operation)
    requires Valid(d) && op.EditPane? && Applied(d, op).1
    ensures PaneWritten(d, Applied(d, op).0, op.paneId, op.edit) && TabsHold(d.tabs, op.paneId)
  {
    EditPaneAcceptedIff(d, op);
    assert TabsIdCount(d.tabs, op.paneId) <= 1;
    EditTabsWrites(d.tabs, op.paneId, op.edit);
  }

  /** A new directory is written into the pane, and nothing else changes. */
  lemma UpdateCwdWrites(d: Document, op: Operation)
    requires Valid(d) && op.UpdatePaneCwd? && Applied(d, op).1
    ensures PaneWritten(d, Applied(d, op).0, op.paneId, SetCwd(op.cwd)) && TabsHold(d.tabs, op.paneId)
  {
    UpdateCwdAcceptedIff(d, op);
    var i, e := TabIndex(d.tabs, op.tabId).value, Applied(d, op).0;
    var tab := d.tabs[i];
    assert TabsIdCount(d.tabs, op.paneId) <= 1;
    TabsAround(d.tabs, i, op.paneId);
    UpdateWrites(tab.root, op.paneId, SetCwd(op.cwd));
    PaneTreeLaws.LeafIsCounted(tab.root, op.paneId);
    assert e.tabs == d.tabs[i := tab.(root := UpdateLeaf(tab.root, op.paneId, SetCwd(op.cwd)).0)];
    forall k | 0 <= k < |d.tabs| && k != i
      ensures WrittenAt(d.tabs[k].root, d.tabs[k].root, op.paneId, SetCwd(op.cwd))
    {
      ElsewhereNotHeld(d.tabs, i, k, op.paneId);
      AbsentIsUnwritten(d.tabs[k].root, op.paneId, SetCwd(op.cwd));
    }
  }

  lemma ElsewhereNotHeld(tabs: seq<Tab>, i: nat, k: nat, pane: string)
    requires i < |tabs| && k < |tabs| && i != k && HasLeaf(tabs[i].root, pane) && TabsIdCount(tabs, pane) <= 1
    ensures !HasLeaf(tabs[k].root, pane)
  {
    TabsAround(tabs, i, pane);
    PaneTreeLaws.LeafIsCounted(tabs[i].root, pane);
    if k < i {
      NotCountedIsNotHeld(tabs[..i], pane, k);
    } else {
      NotCountedIsNotHeld(tabs[i + 1..], pane, k - i - 1);
    }
  }

  // ---------------------------------------------------------------- trees

  /** Sizes are written into the split of that id, and nothing else changes. */
  lemma SetSizesWritesTab(d: Document, op: Operation)
    requires Valid(d) && op.SetSizes? && Applied(d, op).1
    ensures var i := TabIndex(d.tabs, op.tabId);
            && i.Some? && OnlyTree(d, Applied(d, op).0, i.value)
            && IdCount(d.tabs[i.value].root, op.splitId) == 1
            && SizedAt(d.tabs[i.value].root, Applied(d, op).0.tabs[i.value].root, op.splitId, op.sizes)
  {
    SetSizesAcceptedIff(d, op);
    var i := TabIndex(d.tabs, op.tabId).value;
    assert TabsIdCount(d.tabs, op.splitId) <= 1;
    TabsAround(d.tabs, i, op.splitId);
    SetSizesWrites(d.tabs[i].root, op.splitId, op.sizes);
  }

  /** A split changes one tree only: the new pane is the target's neighbour in a split of that direction with
      even sizes, and every split that does not hold the target in that direction is as it was. */
  lemma SplitWritesTab(d: Document, op: Operation)
    requires Valid(d) && op.SplitPane? && Applied(d, op).1
    ensures TabIndex(d.tabs, op.tabId).Some?
    ensures var i, e := TabIndex(d.tabs, op.tabId).value, Applied(d, op).0;
            && OnlyTree(d, e, i)
            && Neighbours(e.tabs[i].root, op.direction, op.target, FreshLeaf(op.newPaneId, op.cwd))
            && (forall id, existing, sizes |
                  && HasSized(d.tabs[i].root, id, existing, sizes)
                  && !Holds(d.tabs[i].root, id, op.direction, op.target) ::
                  HasSized(e.tabs[i].root, id, existing, sizes))
  {
    SplitAcceptedIff(d, op);
    var i, leaf := TabIndex(d.tabs, op.tabId).value, FreshLeaf(op.newPaneId, op.cwd);
    var root := d.tabs[i].root;
    SplitMakesNeighbours(root, op.target, op.direction, op.splitId, leaf);
    forall id, existing, sizes | HasSized(root, id, existing, sizes) && !Holds(root, id, op.direction, op.target)
      ensures HasSized(SplitTree(root, op.target, op.direction, op.splitId, leaf).0, id, existing, sizes)
    {
      SplitKeepsSizes(root, op.target, op.direction, op.splitId, leaf, id, existing, sizes);
    }
  }

  /** Closing takes the pane out of its tab's panes and evens the tab's sizes, or takes the tab out if it had
      no other pane; nothing else changes. */
  lemma CloseWritesTab(d: Document, op: Operation)
    requires Valid(d) && op.ClosePane? && Applied(d, op).1
    ensures TabIndex(d.tabs, op.tabId).Some?
    ensures var i, e := TabIndex(d.tabs, op.tabId).value, Applied(d, op).0;
            var left := PaneTreeLaws.Without(Leaves(d.tabs[i].root), op.paneId);
            if left == [] then e == d.(tabs := Without(d.tabs, i))
            else OnlyTree(d, e, i) && Leaves(e.tabs[i].root) == left && AllEven(e.tabs[i].root)
  {
    CloseAcceptedIff(d, op);
    var i := TabIndex(d.tabs, op.tabId).value;
    PaneTreeLaws.RemoveDropsLeaf(d.tabs[i].root, op.paneId);
    CloseEvens(d.tabs[i].root, op.paneId);
  }

  // ---------------------------------------------------------------- names and icons

  /** The tab has the name or icon asked for: an automatic name gives way to a custom one, and a blank icon
      means none. */
  predicate Labelled(before: Tab, after: Tab, op: Operation)
    requires Labels(op)
  {
    && after == before.(name := after.name, customName := after.customName, icon := after.icon)
    && match op
       case RenameTab(_, name) => after.name == name && after.customName == Some(name) && after.icon == before.icon
       case ClearTabCustomName(_) =>
         after.customName.None? && after.name == before.name && after.icon == before.icon
       case SetTabAutoName(_, name) =>
         && after.name == (if before.customName.Some? then before.name else name)
         && after.customName == before.customName && after.icon == before.icon
       case SetTabIcon(_, icon) =>
         && (if icon.Some? && !IsBlank(icon.value) then after.icon == icon else after.icon.None?)
         && after.name == before.name && after.customName == before.customName
  }

  /** A label is written into its tab, and nothing else changes. */
  lemma LabelWrites(d: Document, op: Operation)
    requires Valid(d) && Labels(op) && Applied(d, op).1
    ensures var i, e := TabIndex(d.tabs, op.tabId), Applied(d, op).0;
            && i.Some? && |e.tabs| == |d.tabs| && e == d.(tabs := d.tabs[i.value := e.tabs[i.value]])
            && Labelled(d.tabs[i.value], e.tabs[i.value], op)
  {
    LabelAcceptedIff(d, op);
  }

  function AppliedAll(d: Document, ops: seq<Operation>): Document
    decreases |ops|
  {
    if ops == [] then d else AppliedAll(Edited(d, ops[0]).0, ops[1..])
  }

  function AutoNames(tabId: string, names: seq<string>): seq<Operation> {
    seq(|names|, k requires 0 <= k < |names| => SetTabAutoName(tabId, names[k]))
  }

  /** A custom name stays through any number of automatic ones. */
  lemma {:induction false} CustomNameStays(d: Document, tabId: string, i: nat, names: seq<string>)
    requires TabIndex(d.tabs, tabId) == Some(i) && i < |d.tabs| && d.tabs[i].customName.Some?
    ensures AppliedAll(d, AutoNames(tabId, names)) == d
    decreases |names|
  {
    if names != [] {
      assert AutoNames(tabId, names)[1..] == AutoNames(tabId, names[1..]);
      assert d.tabs[i := d.tabs[i]] == d.tabs;
      CustomNameStays(d, tabId, i, names[1..]);
    }
  }

  /** Renaming a tab fixes its name against automatic ones, until the custom name is cleared; then the
      next automatic one is shown. */
  lemma CustomNameWins(d: Document, tabId: string, name: string, names: seq<string>, next: string)
    requires Valid(d) && TabIndex(d.tabs, tabId).Some?
    ensures var i, renamed := TabIndex(d.tabs, tabId).value, Applied(d, RenameTab(tabId, name)).0;
            var later := AppliedAll(renamed, AutoNames(tabId, names));
            var cleared := Applied(later, ClearTabCustomName(tabId)).0;
            && |later.tabs| == |cleared.tabs| == |d.tabs|
            && later.tabs[i].name == name && cleared.tabs[i].name == name
            && TabIndex(cleared.tabs, tabId) == Some(i)
            && Edited(cleared, SetTabAutoName(tabId, next)).0.tabs[i].name == next
  {
    var i, renamed := TabIndex(d.tabs, tabId).value, Applied(d, RenameTab(tabId, name)).0;
    LabelAcceptedIff(d, RenameTab(tabId, name));
    SameTabIndex(d.tabs, i, tabId, renamed.tabs[i]);
    CustomNameStays(renamed, tabId, i, names);
    var cleared := Applied(renamed, ClearTabCustomName(tabId)).0;
    SameTabIndex(renamed.tabs, i, tabId, cleared.tabs[i]);
  }

  /** The workspace's own name and icon: a blank name is refused, and a blank icon means none. */
  lemma WorkspaceLabelAcceptedIff(d: Document, op: Operation)
    requires Valid(d) && (op.RenameWorkspace? || op.SetWorkspaceIcon?)
    ensures Applied(d, op).1 <==> (op.RenameWorkspace? ==> !IsBlank(op.name))
    ensures Applied(d, op).1 ==>
              var e := Applied(d, op).0;
              && e == d.(name := e.name, icon := e.icon)
              && e.name == (if op.RenameWorkspace? then op.name else d.name)
              && e.icon == (if op.RenameWorkspace? then d.icon
                            else if op.icon.Some? && !IsBlank(op.icon.value) then op.icon else None)
  {
  }

  // ---------------------------------------------------------------- tabs

  /** A new tab lands at the index asked for, or at the end; the others keep their order. */
  lemma AddTabLands(d: Document, op: Operation)
    requires Valid(d) && op.AddTab? && Applied(d, op).1
    ensures var e := Applied(d, op).0;
            var at := if op.at.Some? && op.at.value < |d.tabs| then op.at.value else |d.tabs|;
            && e == d.(tabs := e.tabs) && |e.tabs| == |d.tabs| + 1
            && e.tabs[at] == op.tab && Without(e.tabs, at) == d.tabs
  {
    var e := Applied(d, op).0;
    var at := if op.at.Some? && op.at.value < |d.tabs| then op.at.value else |d.tabs|;
    assert e.tabs == d.tabs[..at] + [op.tab] + d.tabs[at..];
    assert d.tabs == d.tabs[..at] + d.tabs[at..];
  }
}
