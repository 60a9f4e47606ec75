/** The workspace document and its operations (src-tauri/src/workspace.rs). */
module WorkspaceDocuments {
  import opened Common
  import opened PaneTrees
  import opened PaneTreeLaws

  datatype TabFile = TabFile(path: string, language: string, markdown: bool)

  datatype Tab = Tab(id: string, name: string, customName: Option<string>, icon: Option<string>,
                     cwd: string, root: PaneTree, file: Option<TabFile>)

  datatype Document = Document(id: string, revision: nat, name: string, icon: Option<string>, tabs: seq<Tab>)

  datatype Operation =
    | RenameWorkspace(name: string)
    | SetWorkspaceIcon(icon: Option<string>)
    | AddTab(tab: Tab, at: Option<nat>)
    | RemoveTab(tabId: string)
    | ReorderTab(tabId: string, index: nat)
    | RenameTab(tabId: string, tabName: string)
    | ClearTabCustomName(tabId: string)
    | SetTabAutoName(tabId: string, tabName: string)
    | SetTabIcon(tabId: string, tabIcon: Option<string>)
    | SplitPane(tabId: string, target: string, splitId: string, newPaneId: string,
                direction: Direction, cwd: string)
    | ClosePane(tabId: string, paneId: string)
    | SetSizes(tabId: string, splitId: string, sizes: seq<real>)
    | UpdatePaneCwd(tabId: string, paneId: string, cwd: string)
    | EditPane(paneId: string, edit: LeafEdit) // bind session, set agent, runtime status or title

  // ---------------------------------------------------------------- what an operation does

  function TabIndex(tabs: seq<Tab>, id: string): (r: Option<nat>)
    ensures r.Some? ==> r.value < |tabs| && tabs[r.value].id == id
    ensures r.None? ==> forall i | 0 <= i < |tabs| :: tabs[i].id != id
  {
    if tabs == [] then None
    else if tabs[0].id == id then Some(0)
    else
      var later := TabIndex(tabs[1..], id);
      if later.Some? then Some(later.value + 1) else None
  }

  function NonEmpty(value: Option<string>): Option<string> {
    if value.Some? && !IsBlank(value.value) then value else None
  }

  function FreshLeaf(id: string, cwd: string): (leaf: PaneTree)
    ensures leaf.Leaf? && leaf.id == id
  {
    Leaf(id, cwd, None, None, None, None)
  }

  function OtherTabs(tabs: seq<Tab>, id: string): seq<Tab> {
    if tabs == [] then []
    else (if tabs[0].id == id then [] else [tabs[0]]) + OtherTabs(tabs[1..], id)
  }

  function EditTabs(tabs: seq<Tab>, pane: string, edit: LeafEdit): (seq<Tab>, bool) {
    if tabs == [] then
      ([], false)
    else
      var (root, found) := UpdateLeaf(tabs[0].root, pane, edit);
      if found then
        ([tabs[0].(root := root)] + tabs[1..], true)
      else
        var (rest, later) := EditTabs(tabs[1..], pane, edit);
        ([tabs[0].(root := root)] + rest, later)
  }

  /** The edit before the final check; the flag is false for an early error. */
  function Edited(d: Document, op: Operation): (Document, bool) {
    match op
    case RenameWorkspace(name) => if IsBlank(name) then (d, false) else (d.(name := name), true)
    case SetWorkspaceIcon(icon) => (d.(icon := NonEmpty(icon)), true)
    case AddTab(tab, index) =>
      if TabIndex(d.tabs, tab.id).Some? then
        (d, false)
      else
        var wanted := if index.Some? then index.value else |d.tabs|;
        var at := if wanted < |d.tabs| then wanted else |d.tabs|;
        (d.(tabs := d.tabs[..at] + [tab] + d.tabs[at..]), true)
    case RemoveTab(tabId) =>
      var kept := OtherTabs(d.tabs, tabId);
      (d.(tabs := kept), |kept| != |d.tabs|)
    case ReorderTab(tabId, index) =>
      var from := TabIndex(d.tabs, tabId);
      if from.None? then
        (d, false)
      else
        var tab, rest := d.tabs[from.value], d.tabs[..from.value] + d.tabs[from.value + 1..];
        var at := if index < |rest| then index else |rest|;
        (d.(tabs := rest[..at] + [tab] + rest[at..]), true)
    case EditPane(pane, edit) =>
      var (tabs, found) := EditTabs(d.tabs, pane, edit);
      (d.(tabs := tabs), found)
    case _ =>
      var index := TabIndex(d.tabs, op.tabId);
      if index.None? then
        (d, false)
      else
        var (tab, done) := EditedTab(d.tabs[index.value], op);
        if tab.Some? then
          (d.(tabs := d.tabs[index.value := tab.value]), done)
        else
          (d.(tabs := d.tabs[..index.value] + d.tabs[index.value + 1..]), done)
  }

  /** The operations on one tab; no tab is left when its only pane is closed. */
  function EditedTab(tab: Tab, op: Operation): (Option<Tab>, bool) {
    match op
    case RenameTab(_, name) => (Some(tab.(name := name, customName := Some(name))), true)
    case ClearTabCustomName(_) => (Some(tab.(customName := None)), true)
    case SetTabAutoName(_, name) =>
      (Some(if tab.customName.None? then tab.(name := name) else tab), true)
    case SetTabIcon(_, icon) => (Some(tab.(icon := NonEmpty(icon))), true)
    case SplitPane(_, target, splitId, newPaneId, direction, cwd) =>
      var (root, found) := SplitTree(tab.root, target, direction, splitId, FreshLeaf(newPaneId, cwd));
      (Some(tab.(root := root)), found)
    case ClosePane(_, pane) =>
      var root := RemovePane(tab.root, pane);
      (if root.Some? then Some(tab.(root := root.value)) else None, true)
    case SetSizes(_, splitId, sizes) =>
      var (root, found) := SetSplitSizes(tab.root, splitId, sizes);
      (Some(tab.(root := root)), found)
    case UpdatePaneCwd(_, pane, cwd) =>
      var (root, found) := UpdateLeaf(tab.root, pane, SetCwd(cwd));
      (Some(tab.(root := root)), found)
    case _ => (Some(tab), true)
  }

  // ---------------------------------------------------------------- valid documents

  function TabsIdCount(tabs: seq<Tab>, id: string): nat {
    if tabs == [] then 0
    else (if tabs[0].id == id then 1 else 0) + IdCount(tabs[0].root, id) + TabsIdCount(tabs[1..], id)
  }

  predicate TabsWellFormed(tabs: seq<Tab>) {
    forall i | 0 <= i < |tabs| :: WellFormed(tabs[i].root)
  }

  /** Names are not blank, trees are well formed, and no id names two tabs, panes or splits. */
  ghost predicate Valid(d: Document) {
    && !IsBlank(d.id) && !IsBlank(d.name)
    && TabsWellFormed(d.tabs)
    && (forall id :: TabsIdCount(d.tabs, id) <= 1)
  }

  /** `apply`: edit, then validate.  The edit stays even if the check refuses it. */
  ghost function Applied(d: Document, op: Operation): (Document, bool) {
    var (edited, done) := Edited(d, op);
    (edited, done && Valid(edited))
  }

  // ---------------------------------------------------------------- counting ids over the tabs

  lemma {:induction false} TabsAppend(a: seq<Tab>, b: seq<Tab>, id: string)
    ensures TabsIdCount(a + b, id) == TabsIdCount(a, id) + TabsIdCount(b, id)
  {
    if a == [] {
      assert a + b == b;
    } else {
      TabsAppend(a[1..], b, id);
      assert (a + b)[1..] == a[1..] + b;
    }
  }

  function TabIdCount(tab: Tab, id: string): nat {
    (if tab.id == id then 1 else 0) + IdCount(tab.root, id)
  }

  lemma TabsAround(tabs: seq<Tab>, i: nat, id: string)
    requires i < |tabs|
    ensures TabsIdCount(tabs, id)
            == TabsIdCount(tabs[..i], id) + TabIdCount(tabs[i], id) + TabsIdCount(tabs[i + 1..], id)
    ensures TabsIdCount(tabs[..i] + tabs[i + 1..], id) == TabsIdCount(tabs[..i], id) + TabsIdCount(tabs[i + 1..], id)
  {
    assert tabs == tabs[..i] + ([tabs[i]] + tabs[i + 1..]);
    TabsAppend(tabs[..i], [tabs[i]] + tabs[i + 1..], id);
    TabsAppend([tabs[i]], tabs[i + 1..], id);
    TabsAppend(tabs[..i], tabs[i + 1..], id);
    assert [tabs[i]][1..] == [];
  }

  lemma TabReplaced(tabs: seq<Tab>, i: nat, tab: Tab, id: string)
    requires i < |tabs|
    ensures TabsIdCount(tabs[i := tab], id) == TabsIdCount(tabs, id) - TabIdCount(tabs[i], id) + TabIdCount(tab, id)
    ensures TabIdCount(tabs[i], id) <= TabsIdCount(tabs, id)
  {
    TabsAround(tabs, i, id);
    TabsAround(tabs[i := tab], i, id);
    assert tabs[i := tab][..i] == tabs[..i] && tabs[i := tab][i + 1..] == tabs[i + 1..];
  }

  lemma TabInserted(tabs: seq<Tab>, at: nat, tab: Tab, id: string)
    requires at <= |tabs|
    ensures TabsIdCount(tabs[..at] + [tab] + tabs[at..], id) == TabsIdCount(tabs, id) + TabIdCount(tab, id)
  {
    var grown := tabs[..at] + [tab] + tabs[at..];
    TabsAround(grown, at, id);
    assert grown[..at] == tabs[..at] && grown[at + 1..] == tabs[at..];
    assert tabs == tabs[..at] + tabs[at..];
    TabsAppend(tabs[..at], tabs[at..], id);
  }

  // ---------------------------------------------------------------- when an operation is accepted

  ghost predicate Fresh(d: Document, id: string) {
    TabsIdCount(d.tabs, id) == 0
  }

  /** A split is accepted exactly when the pane exists in the tab, the new pane has a directory and a
      fresh id, and, in case a new split is needed, that split has a fresh id of its own. */
  lemma SplitAcceptedIff(d: Document, op: Operation)
    requires Valid(d) && op.SplitPane?
    ensures Applied(d, op).1 <==>
              var index := TabIndex(d.tabs, op.tabId);
              && index.Some? && HasLeaf(d.tabs[index.value].root, op.target)
              && op.newPaneId != "" && !IsBlank(op.cwd) && Fresh(d, op.newPaneId)
              && (JoinsSplit(d.tabs[index.value].root, op.target, op.direction)
                  || (op.splitId != "" && op.splitId != op.newPaneId && Fresh(d, op.splitId)))
  {
    var index := TabIndex(d.tabs, op.tabId);
    if index.Some? {
      var i, leaf := index.value, FreshLeaf(op.newPaneId, op.cwd);
      var tab := d.tabs[i];
      var root := SplitTree(tab.root, op.target, op.direction, op.splitId, leaf).0;
      SplitFinds(tab.root, op.target, op.direction, op.splitId, leaf);
      if HasLeaf(tab.root, op.target) {
        var e := Edited(d, op).0;
        var joins := JoinsSplit(tab.root, op.target, op.direction);
        assert e.tabs == d.tabs[i := tab.(root := root)];
        assert WellFormed(tab.root);
        SplitKeepsShape(tab.root, op.target, op.direction, op.splitId, leaf);
        assert TabsWellFormed(e.tabs) <==> WellFormed(root) by {
          assert e.tabs[i].root == root;
        }
        forall id
          ensures TabsIdCount(e.tabs, id)
                  == TabsIdCount(d.tabs, id) + Added(joins, op.splitId, op.newPaneId, id)
        {
          SplitAddsIds(tab.root, op.target, op.direction, op.splitId, leaf, id);
          TabReplaced(d.tabs, i, tab.(root := root), id);
        }
        assert TabsIdCount(d.tabs, op.newPaneId) <= 1 && TabsIdCount(d.tabs, op.splitId) <= 1;
      }
    }
  }

  /** Closing a pane of an existing tab is always accepted: the final check can never refuse it. */
  lemma CloseAcceptedIff(d: Document, op: Operation)
    requires Valid(d) && op.ClosePane?
    ensures Applied(d, op).1 <==> TabIndex(d.tabs, op.tabId).Some?
  {
    var index := TabIndex(d.tabs, op.tabId);
    if index.Some? {
      var i := index.value;
      var tab := d.tabs[i];
      var root, e := RemovePane(tab.root, op.paneId), Edited(d, op).0;
      assert WellFormed(tab.root);
      RemoveKeepsShape(tab.root, op.paneId);
      forall id ensures TabsIdCount(e.tabs, id) <= TabsIdCount(d.tabs, id) {
        RemoveAddsNoId(tab.root, op.paneId, id);
        if root.Some? {
          TabReplaced(d.tabs, i, tab.(root := root.value), id);
        } else {
          TabsAround(d.tabs, i, id);
        }
      }
      forall k | 0 <= k < |e.tabs| ensures WellFormed(e.tabs[k].root) {
        assert k < |d.tabs|;
        if root.None? && k >= i {
          assert e.tabs[k] == d.tabs[k + 1];
        }
      }
      assert forall id :: TabsIdCount(e.tabs, id) <= TabsIdCount(d.tabs, id) <= 1;
    }
  }

  /** Sizes are accepted exactly when the split exists with that many children and all are positive. */
  lemma SetSizesAcceptedIff(d: Document, op: Operation)
    requires Valid(d) && op.SetSizes?
    ensures Applied(d, op).1 <==>
              var index := TabIndex(d.tabs, op.tabId);
              && index.Some? && HasSplit(d.tabs[index.value].root, op.splitId, Some(|op.sizes|))
              && forall size | size in op.sizes :: size > 0.0
  {
    var index := TabIndex(d.tabs, op.tabId);
    if index.Some? {
      var i := index.value;
      var tab, e := d.tabs[i], Edited(d, op).0;
      TabReplaced(d.tabs, i, tab, op.splitId);
      assert TabsIdCount(d.tabs, op.splitId) <= 1;
      assert WellFormed(tab.root);
      SetSizesMeaning(tab.root, op.splitId, op.sizes);
      var (root, found) := SetSplitSizes(tab.root, op.splitId, op.sizes);
      assert e.tabs == d.tabs[i := tab.(root := root)];
      forall id ensures TabsIdCount(e.tabs, id) == TabsIdCount(d.tabs, id) {
        TabReplaced(d.tabs, i, tab.(root := root), id);
      }
      assert TabsWellFormed(e.tabs) <==> WellFormed(root) by {
        assert e.tabs[i].root == root;
      }
    }
  }

  /** A new directory is accepted exactly when the pane exists in the tab and it is not blank. */
  lemma UpdateCwdAcceptedIff(d: Document, op: Operation)
    requires Valid(d) && op.UpdatePaneCwd?
    ensures Applied(d, op).1 <==>
              var index := TabIndex(d.tabs, op.tabId);
              index.Some? && HasLeaf(d.tabs[index.value].root, op.paneId) && !IsBlank(op.cwd)
  {
    var index := TabIndex(d.tabs, op.tabId);
    if index.Some? {
      var i := index.value;
      var tab, e := d.tabs[i], Edited(d, op).0;
      assert WellFormed(tab.root);
      var (root, found) := UpdateLeaf(tab.root, op.paneId, SetCwd(op.cwd));
      assert e.tabs == d.tabs[i := tab.(root := root)];
      UpdateMeaning(tab.root, op.paneId, SetCwd(op.cwd), op.paneId);
      forall id ensures TabsIdCount(e.tabs, id) == TabsIdCount(d.tabs, id) {
        UpdateMeaning(tab.root, op.paneId, SetCwd(op.cwd), id);
        TabReplaced(d.tabs, i, tab.(root := root), id);
      }
      assert TabsWellFormed(e.tabs) <==> WellFormed(root) by {
        assert e.tabs[i].root == root;
      }
    }
  }

  predicate TabsHold(tabs: seq<Tab>, pane: string) {
    exists i | 0 <= i < |tabs| :: HasLeaf(tabs[i].root, pane)
  }

  lemma TabsHoldFirst(tabs: seq<Tab>, pane: string)
    requires tabs != []
    ensures TabsHold(tabs, pane) <==> HasLeaf(tabs[0].root, pane) || TabsHold(tabs[1..], pane)
  {
    if i :| 0 <= i < |tabs[1..]| && HasLeaf(tabs[1..][i].root, pane) {
      assert HasLeaf(tabs[i + 1].root, pane);
    }
    if i :| 0 < i < |tabs| && HasLeaf(tabs[i].root, pane) {
      assert HasLeaf(tabs[1..][i - 1].root, pane);
    }
  }

  lemma TabsWellFormedFirst(tabs: seq<Tab>)
    requires tabs != []
    ensures TabsWellFormed(tabs) <==> WellFormed(tabs[0].root) && TabsWellFormed(tabs[1..])
  {
    assert forall i | 0 <= i < |tabs[1..]| :: tabs[1..][i] == tabs[i + 1];
    forall i | 0 < i < |tabs| && TabsWellFormed(tabs[1..]) ensures WellFormed(tabs[i].root) {
      assert tabs[i] == tabs[1..][i - 1];
    }
  }

  lemma {:induction false} EditTabsMeaning(tabs: seq<Tab>, pane: string, edit: LeafEdit)
    requires TabsWellFormed(tabs)
    ensures var (r, found) := EditTabs(tabs, pane, edit);
            && (found <==> TabsHold(tabs, pane))
            && (!found ==> r == tabs)
            && (TabsWellFormed(r) <==> !found || EditOk(edit))
            && |r| == |tabs|
            && (forall id :: TabsIdCount(r, id) == TabsIdCount(tabs, id))
  {
    if tabs != [] {
      var (root, here) := UpdateLeaf(tabs[0].root, pane, edit);
      var (r, found) := EditTabs(tabs, pane, edit);
      TabsWellFormedFirst(tabs);
      UpdateMeaning(tabs[0].root, pane, edit, pane);
      EditTabsMeaning(tabs[1..], pane, edit);
      var rest := if here then tabs[1..] else EditTabs(tabs[1..], pane, edit).0;
      assert r[1..] == rest && r[0].root == root;
      TabsWellFormedFirst(r);
      TabsHoldFirst(tabs, pane);
      forall id ensures TabsIdCount(r, id) == TabsIdCount(tabs, id) {
        UpdateMeaning(tabs[0].root, pane, edit, id);
      }
    }
  }

  /** Binding a session, an agent, a status or a title is accepted exactly when some tab holds the
      pane and the new value is acceptable. */
  lemma EditPaneAcceptedIff(d: Document, op: Operation)
    requires Valid(d) && op.EditPane?
    ensures Applied(d, op).1 <==>
              (exists i | 0 <= i < |d.tabs| :: HasLeaf(d.tabs[i].root, op.paneId)) && EditOk(op.edit)
  {
    EditTabsMeaning(d.tabs, op.paneId, op.edit);
  }

  /** A tab is accepted exactly when its tree is well formed and its ids are fresh and distinct. */
  lemma AddTabAcceptedIff(d: Document, op: Operation)
    requires Valid(d) && op.AddTab?
    ensures Applied(d, op).1 <==>
              && WellFormed(op.tab.root)
              && forall id :: TabsIdCount(d.tabs, id) + TabIdCount(op.tab, id) <= 1
  {
    var e, tab := Edited(d, op).0, op.tab;
    if TabIndex(d.tabs, tab.id).Some? {
      var i := TabIndex(d.tabs, tab.id).value;
      TabsAround(d.tabs, i, tab.id);
      assert TabsIdCount(d.tabs, tab.id) + TabIdCount(tab, tab.id) > 1;
    } else {
      var wanted := if op.at.Some? then op.at.value else |d.tabs|;
      var at := if wanted < |d.tabs| then wanted else |d.tabs|;
      forall id ensures TabsIdCount(e.tabs, id) == TabsIdCount(d.tabs, id) + TabIdCount(tab, id) {
        TabInserted(d.tabs, at, tab, id);
      }
      assert TabsWellFormed(e.tabs) <==> WellFormed(tab.root) by {
        assert e.tabs[at] == tab;
        forall k | 0 <= k < |e.tabs| && k != at ensures WellFormed(e.tabs[k].root) {
          assert e.tabs[k] == d.tabs[if k < at then k else k - 1];
        }
      }
    }
  }

  /** Taking a tab out and putting it back anywhere keeps the tabs and every id count. */
  function Moved(tabs: seq<Tab>, from: nat, at: nat): seq<Tab>
    requires from < |tabs| && at < |tabs|
  {
    var rest := tabs[..from] + tabs[from + 1..];
    rest[..at] + [tabs[from]] + rest[at..]
  }

  lemma MovedKeepsIds(tabs: seq<Tab>, from: nat, at: nat, id: string)
    requires from < |tabs| && at < |tabs|
    ensures TabsIdCount(Moved(tabs, from, at), id) == TabsIdCount(tabs, id)
  {
    TabsAround(tabs, from, id);
    TabInserted(tabs[..from] + tabs[from + 1..], at, tabs[from], id);
  }

  lemma MovedKeepsTabs(tabs: seq<Tab>, from: nat, at: nat)
    requires from < |tabs| && at < |tabs|
    ensures multiset(Moved(tabs, from, at)) == multiset(tabs)
  {
    var rest := tabs[..from] + tabs[from + 1..];
    assert tabs == tabs[..from] + [tabs[from]] + tabs[from + 1..];
    assert rest == rest[..at] + rest[at..];
    calc {
      multiset(rest[..at] + [tabs[from]] + rest[at..]);
      multiset(rest[..at]) + multiset{tabs[from]} + multiset(rest[at..]);
      multiset(rest[..at] + rest[at..]) + multiset{tabs[from]};
      multiset(tabs[..from] + tabs[from + 1..]) + multiset{tabs[from]};
      multiset(tabs[..from] + [tabs[from]] + tabs[from + 1..]);
    }
  }

  function Without(tabs: seq<Tab>, i: nat): seq<Tab>
    requires i < |tabs|
  {
    tabs[..i] + tabs[i + 1..]
  }

  lemma MovedLands(tabs: seq<Tab>, from: nat, at: nat)
    requires from < |tabs| && at < |tabs|
    ensures |Moved(tabs, from, at)| == |tabs|
    ensures Moved(tabs, from, at)[at] == tabs[from]
    ensures Without(Moved(tabs, from, at), at) == Without(tabs, from)
  {
    var rest, moved := Without(tabs, from), Moved(tabs, from, at);
    assert moved[..at] == rest[..at] && moved[at + 1..] == rest[at..];
    assert rest == rest[..at] + rest[at..];
  }

  /** Moving a tab is accepted exactly when it exists; it lands at the index asked for, or at the end, and
      the other tabs keep their order. */
  lemma ReorderAcceptedIff(d: Document, op: Operation)
    requires Valid(d) && op.ReorderTab?
    ensures Applied(d, op).1 <==> TabIndex(d.tabs, op.tabId).Some?
    ensures multiset(Applied(d, op).0.tabs) == multiset(d.tabs)
    ensures Applied(d, op).1 ==>
              var at, from := if op.index < |d.tabs| then op.index else |d.tabs| - 1, TabIndex(d.tabs, op.tabId).value;
              var tabs := Applied(d, op).0.tabs;
              && |tabs| == |d.tabs| && tabs[at] == d.tabs[from] && Without(tabs, at) == Without(d.tabs, from)
              && Applied(d, op).0 == d.(tabs := tabs)
  {
    var from := TabIndex(d.tabs, op.tabId);
    if from.Some? {
      var at := if op.index < |d.tabs| - 1 then op.index else |d.tabs| - 1;
      ReorderMoves(d, op, from.value, at);
      MovedLands(d.tabs, from.value, at);
      MovedKeepsTabs(d.tabs, from.value, at);
    }
  }

  lemma ReorderMoves(d: Document, op: Operation, from: nat, at: nat)
    requires Valid(d) && op.ReorderTab? && TabIndex(d.tabs, op.tabId) == Some(from)
    requires at == if op.index < |d.tabs| - 1 then op.index else |d.tabs| - 1
    ensures from < |d.tabs| && Applied(d, op) == (d.(tabs := Moved(d.tabs, from, at)), true)
  {
    var e := Edited(d, op).0;
    assert e.tabs == Moved(d.tabs, from, at);
    MovedIsValid(d, e, from, at);
  }

  lemma MovedIsValid(d: Document, e: Document, from: nat, at: nat)
    requires Valid(d) && from < |d.tabs| && at < |d.tabs| && e == d.(tabs := Moved(d.tabs, from, at))
    ensures Valid(e)
  {
    forall id ensures TabsIdCount(e.tabs, id) <= 1 {
      MovedKeepsIds(d.tabs, from, at, id);
    }
    var rest := d.tabs[..from] + d.tabs[from + 1..];
    assert forall tab | tab in rest :: tab in d.tabs;
    assert forall tab | tab in e.tabs :: tab in d.tabs;
    forall k | 0 <= k < |e.tabs| ensures WellFormed(e.tabs[k].root) {
      assert e.tabs[k] in e.tabs;
    }
  }

  /** An accepted split puts the new pane directly after the split one; no other pane moves. */
  lemma SplitPlacesPane(d: Document, op: Operation)
    requires Valid(d) && op.SplitPane? && Applied(d, op).1
    ensures TabIndex(d.tabs, op.tabId).Some?
    ensures var i := TabIndex(d.tabs, op.tabId).value;
            && |Applied(d, op).0.tabs| == |d.tabs|
            && Leaves(Applied(d, op).0.tabs[i].root)
               == InsertAfter(Leaves(d.tabs[i].root), op.target, FreshLeaf(op.newPaneId, op.cwd))
  {
    SplitAcceptedIff(d, op);
    var i := TabIndex(d.tabs, op.tabId).value;
    var tab := d.tabs[i];
    LeafIsCounted(tab.root, op.target);
    TabReplaced(d.tabs, i, tab, op.target);
    assert TabsIdCount(d.tabs, op.target) <= 1;
    SplitInsertsAfterTarget(tab.root, op.target, op.direction, op.splitId, FreshLeaf(op.newPaneId, op.cwd));
  }

  /** Splitting a pane and closing the new one gives the document back, with even sizes in the tab. */
  lemma SplitThenClose(d: Document, op: Operation)
    requires Valid(d) && op.SplitPane? && Applied(d, op).1
    ensures TabIndex(d.tabs, op.tabId).Some?
    ensures var i := TabIndex(d.tabs, op.tabId).value;
            Applied(Applied(d, op).0, ClosePane(op.tabId, op.newPaneId))
            == (d.(tabs := d.tabs[i := d.tabs[i].(root := Evened(d.tabs[i].root))]), true)
  {
    SplitAcceptedIff(d, op);
    var i, leaf := TabIndex(d.tabs, op.tabId).value, FreshLeaf(op.newPaneId, op.cwd);
    var tab, split := d.tabs[i], Applied(d, op).0;
    LeafIsCounted(tab.root, op.newPaneId);
    TabReplaced(d.tabs, i, tab, op.newPaneId);
    assert WellFormed(tab.root);
    CloseUndoesSplit(tab.root, op.target, op.direction, op.splitId, leaf);
    var grown := tab.(root := SplitTree(tab.root, op.target, op.direction, op.splitId, leaf).0);
    assert split == d.(tabs := d.tabs[i := grown]);
    SameTabIndex(d.tabs, i, op.tabId, grown);
    CloseReplacesRoot(split, ClosePane(op.tabId, op.newPaneId), i, Evened(tab.root));
    assert d.tabs[i := grown][i := tab.(root := Evened(tab.root))] == d.tabs[i := tab.(root := Evened(tab.root))];
  }

  lemma CloseReplacesRoot(d: Document, op: Operation, i: nat, root: PaneTree)
    requires Valid(d) && op.ClosePane? && TabIndex(d.tabs, op.tabId) == Some(i) && i < |d.tabs|
    requires RemovePane(d.tabs[i].root, op.paneId) == Some(root)
    ensures Applied(d, op) == (d.(tabs := d.tabs[i := d.tabs[i].(root := root)]), true)
  {
    CloseAcceptedIff(d, op);
  }

  lemma {:induction false} SameTabIndex(tabs: seq<Tab>, i: nat, id: string, tab: Tab)
    requires TabIndex(tabs, id) == Some(i) && i < |tabs| && tab.id == tabs[i].id
    ensures TabIndex(tabs[i := tab], id) == Some(i)
  {
    if i > 0 {
      SameTabIndex(tabs[1..], i - 1, id, tab);
      assert tabs[i := tab][1..] == tabs[1..][i - 1 := tab];
    }
  }

  // ---------------------------------------------------------------- operations without new ids

  /** The tabs without the first one of an id. */
  function WithoutTab(tabs: seq<Tab>, id: string): seq<Tab> {
    var i := TabIndex(tabs, id);
    if i.Some? then Without(tabs, i.value) else tabs
  }

  lemma WithoutTabFirst(tabs: seq<Tab>, id: string)
    requires tabs != []
    ensures WithoutTab(tabs, id)
            == if tabs[0].id == id then tabs[1..] else [tabs[0]] + WithoutTab(tabs[1..], id)
  {
    if tabs[0].id == id {
      assert Without(tabs, 0) == tabs[1..];
    } else if TabIndex(tabs[1..], id).Some? {
      var k := TabIndex(tabs[1..], id).value;
      assert Without(tabs, k + 1) == [tabs[0]] + Without(tabs[1..], k);
    }
  }

  /** With distinct ids, removing the tabs of an id is taking one tab out. */
  lemma {:induction false} OtherTabsMeaning(tabs: seq<Tab>, id: string)
    requires TabsIdCount(tabs, id) <= 1
    ensures OtherTabs(tabs, id) == WithoutTab(tabs, id)
  {
    if tabs != [] {
      OtherTabsMeaning(tabs[1..], id);
      WithoutTabFirst(tabs, id);
      if tabs[0].id == id {
        UncountedIsAbsent(tabs[1..], id);
      }
    }
  }

  lemma UncountedIsAbsent(tabs: seq<Tab>, id: string)
    requires TabsIdCount(tabs, id) == 0
    ensures TabIndex(tabs, id).None?
  {
    if TabIndex(tabs, id).Some? {
      TabsAround(tabs, TabIndex(tabs, id).value, id);
    }
  }

  /** Removing a tab is accepted exactly when it exists; the other tabs keep their order. */
  lemma RemoveTabAcceptedIff(d: Document, op: Operation)
    requires Valid(d) && op.RemoveTab?
    ensures Applied(d, op).1 <==> TabIndex(d.tabs, op.tabId).Some?
    ensures Applied(d, op).1 ==> Applied(d, op).0 == d.(tabs := Without(d.tabs, TabIndex(d.tabs, op.tabId).value))
  {
    assert TabsIdCount(d.tabs, op.tabId) <= 1;
    OtherTabsMeaning(d.tabs, op.tabId);
    var index := TabIndex(d.tabs, op.tabId);
    if index.Some? {
      WithoutIsValid(d, index.value);
      assert Edited(d, op).0 == d.(tabs := Without(d.tabs, index.value));
    }
  }

  lemma WithoutIsValid(d: Document, i: nat)
    requires Valid(d) && i < |d.tabs|
    ensures Valid(d.(tabs := Without(d.tabs, i)))
  {
    var left := Without(d.tabs, i);
    forall id ensures TabsIdCount(left, id) <= 1 {
      TabsAround(d.tabs, i, id);
      assert TabsIdCount(d.tabs, id) <= 1;
    }
    assert forall k | 0 <= k < |left| :: left[k] == d.tabs[if k < i then k else k + 1];
  }

  /** Names and icons of tabs. */
  predicate Labels(op: Operation) {
    op.RenameTab? || op.ClearTabCustomName? || op.SetTabAutoName? || op.SetTabIcon?
  }

  /** A label is accepted exactly when its tab exists; its id and tree, and the other tabs, stay. */
  lemma LabelAcceptedIff(d: Document, op: Operation)
    requires Valid(d) && Labels(op)
    ensures Applied(d, op).1 <==> TabIndex(d.tabs, op.tabId).Some?
    ensures Applied(d, op).1 ==>
              var i, tabs := TabIndex(d.tabs, op.tabId).value, Applied(d, op).0.tabs;
              |tabs| == |d.tabs| && tabs[i].id == d.tabs[i].id && tabs[i].root == d.tabs[i].root
              && Without(tabs, i) == Without(d.tabs, i)
  {
    var index, e := TabIndex(d.tabs, op.tabId), Edited(d, op).0;
    if index.Some? {
      var i := index.value;
      forall id ensures TabsIdCount(e.tabs, id) <= 1 {
        TabReplaced(d.tabs, i, e.tabs[i], id);
        assert TabsIdCount(d.tabs, id) <= 1;
      }
      assert e.tabs[..i] == d.tabs[..i] && e.tabs[i + 1..] == d.tabs[i + 1..];
    }
  }

  // ---------------------------------------------------------------- refused operations

  /** An operation that fails before the final check has changed nothing. */
  lemma EarlyErrorChangesNothing(d: Document, op: Operation)
    requires Valid(d) && !Edited(d, op).1
    ensures Edited(d, op).0 == d
  {
    match op {
      case RemoveTab(tabId) =>
        assert TabsIdCount(d.tabs, tabId) <= 1;
        OtherTabsMeaning(d.tabs, tabId);
      case EditPane(pane, edit) => EditTabsMeaning(d.tabs, pane, edit);
      case _ => EarlyTabErrorChangesNothing(d, op);
    }
  }

  lemma EarlyTabErrorChangesNothing(d: Document, op: Operation)
    requires Valid(d) && !op.RemoveTab? && !op.EditPane? && !Edited(d, op).1
    ensures Edited(d, op).0 == d
  {
    if op.SplitPane? || op.SetSizes? || op.UpdatePaneCwd? {
      var index := TabIndex(d.tabs, op.tabId);
      if index.Some? {
        var tab := d.tabs[index.value];
        assert WellFormed(tab.root);
        match op {
          case SplitPane(_, target, splitId, newPaneId, direction, cwd) =>
            SplitFinds(tab.root, target, direction, splitId, FreshLeaf(newPaneId, cwd));
          case SetSizes(_, splitId, sizes) =>
            TabReplaced(d.tabs, index.value, tab, splitId);
            assert TabsIdCount(d.tabs, splitId) <= 1;
            SetSizesMeaning(tab.root, splitId, sizes);
          case UpdatePaneCwd(_, pane, cwd) => UpdateMeaning(tab.root, pane, SetCwd(cwd), pane);
        }
        assert d.tabs[index.value := tab] == d.tabs;
      }
    }
  }

  /** The operations that edit first and are refused by the final check, in terms of the document as it
      was: a new tab or pane that is not acceptable, a size that is not positive, a blank directory, or a
      pane edit that is not acceptable. */
  ghost predicate RefusedAfterEdit(d: Document, op: Operation) {
    match op
    case AddTab(tab, _) =>
      && TabIndex(d.tabs, tab.id).None?
      && !(WellFormed(tab.root) && forall id :: TabsIdCount(d.tabs, id) + TabIdCount(tab, id) <= 1)
    case SplitPane(tabId, target, splitId, newPaneId, direction, cwd) =>
      var index := TabIndex(d.tabs, tabId);
      && index.Some? && HasLeaf(d.tabs[index.value].root, target)
      && !(&& newPaneId != "" && !IsBlank(cwd) && Fresh(d, newPaneId)
           && (JoinsSplit(d.tabs[index.value].root, target, direction)
               || (splitId != "" && splitId != newPaneId && Fresh(d, splitId))))
    case SetSizes(tabId, splitId, sizes) =>
      var index := TabIndex(d.tabs, tabId);
      && index.Some? && HasSplit(d.tabs[index.value].root, splitId, Some(|sizes|))
      && exists size :: size in sizes && size <= 0.0
    case UpdatePaneCwd(tabId, pane, cwd) =>
      var index := TabIndex(d.tabs, tabId);
      index.Some? && HasLeaf(d.tabs[index.value].root, pane) && IsBlank(cwd)
    case EditPane(pane, edit) => TabsHold(d.tabs, pane) && !EditOk(edit)
    case _ => false
  }

  /** An operation is refused and yet leaves its edit behind exactly in those cases. */
  lemma RefusedEditStaysIff(d: Document, op: Operation)
    requires Valid(d)
    ensures !Applied(d, op).1 && Applied(d, op).0 != d <==> RefusedAfterEdit(d, op)
  {
    if !Edited(d, op).1 {
      EarlyErrorChangesNothing(d, op);
    }
    match op {
      case AddTab(_, _) => AddTabAcceptedIff(d, op);
      case RemoveTab(tabId) =>
        RemoveTabAcceptedIff(d, op);
        assert TabsIdCount(d.tabs, tabId) <= 1;
        OtherTabsMeaning(d.tabs, tabId);
      case ReorderTab(_, _) => ReorderAcceptedIff(d, op);
      case ClosePane(_, _) => CloseAcceptedIff(d, op);
      case EditPane(pane, edit) =>
        EditPaneAcceptedIff(d, op);
        EditTabsMeaning(d.tabs, pane, edit);
      case RenameWorkspace(_) =>
      case SetWorkspaceIcon(_) =>
      case _ =>
        if Labels(op) {
          LabelAcceptedIff(d, op);
        } else {
          TabEditRefused(d, op);
        }
    }
  }

  /** The edits of a tab that the final check can refuse. */
  lemma TabEditRefused(d: Document, op: Operation)
    requires Valid(d) && (op.SplitPane? || op.SetSizes? || op.UpdatePaneCwd?)
    ensures Edited(d, op).1 && !Applied(d, op).1 <==> RefusedAfterEdit(d, op)
  {
    var index := TabIndex(d.tabs, op.tabId);
    if index.Some? {
      var tab := d.tabs[index.value];
      assert WellFormed(tab.root);
      match op {
        case SplitPane(_, target, splitId, newPaneId, direction, cwd) =>
          SplitAcceptedIff(d, op);
          SplitFinds(tab.root, target, direction, splitId, FreshLeaf(newPaneId, cwd));
        case SetSizes(_, splitId, sizes) =>
          SetSizesAcceptedIff(d, op);
          TabReplaced(d.tabs, index.value, tab, splitId);
          assert TabsIdCount(d.tabs, splitId) <= 1;
          SetSizesMeaning(tab.root, splitId, sizes);
        case UpdatePaneCwd(_, pane, cwd) =>
          UpdateCwdAcceptedIff(d, op);
          UpdateMeaning(tab.root, pane, SetCwd(cwd), pane);
      }
    }
  }

  /** For example a blank directory for the only pane of a document. */
  lemma RefusedEditStays(pane: PaneTree)
    requires pane.Leaf? && LeafOk(pane)
    ensures var d := Document("w", 0, "Work", None, [Tab("t" + pane.id, "shell", None, None, "/", pane, None)]);
            var (after, ok) := Applied(d, UpdatePaneCwd("t" + pane.id, pane.id, ""));
            !ok && after != d && Valid(d)
  {
    var tab := Tab("t" + pane.id, "shell", None, None, "/", pane, None);
    var d := Document("w", 0, "Work", None, [tab]);
    var op := UpdatePaneCwd("t" + pane.id, pane.id, "");
    assert !IsWhitespace("w"[0]) && !IsWhitespace("Work"[0]);
    assert |tab.id| == |pane.id| + 1;
    forall id ensures TabsIdCount(d.tabs, id) <= 1 {
      assert [tab][1..] == [];
    }
    UpdateCwdAcceptedIff(d, op);
    assert Edited(d, op).0.tabs[0].root.cwd == "" && IsBlank("") && !IsBlank(pane.cwd);
  }

  // ---------------------------------------------------------------- the stored document

  const U64_MAX: nat := 0xFFFF_FFFF_FFFF_FFFF

  datatype StoreResult = RevisionConflict(expected: nat, actual: nat) | Invalid | Stored(document: Document)

  /** `apply_workspace_operation`: a loaded copy is edited, and written back only if the edit is accepted
      and changes something. */
  ghost function StoreApplied(d: Document, base: Option<nat>, op: Operation): (Document, StoreResult) {
    if base.Some? && d.revision != base.value then (d, RevisionConflict(base.value, d.revision))
    else
      var (edited, ok) := Applied(d, op);
      if !ok then (d, Invalid)
      else if edited == d then (d, Stored(d))
      else
        var kept := edited.(revision := if d.revision < U64_MAX then d.revision + 1 else U64_MAX);
        (kept, Stored(kept))
  }

  lemma EditKeepsRevision(d: Document, op: Operation)
    ensures Edited(d, op).0.revision == d.revision && Edited(d, op).0.id == d.id
  {
  }

  /** What is stored stays valid under every operation at any base; nothing of a refused operation is ever
      stored, and below the last revision the revision tells whether the document changed. */
  lemma StoredStaysValid(d: Document, base: Option<nat>, op: Operation)
    requires Valid(d)
    ensures var (kept, r) := StoreApplied(d, base, op);
            && Valid(kept) && kept.id == d.id
            && (r.Stored? <==> (base.Some? ==> base.value == d.revision) && Applied(d, op).1)
            && (if r.Stored? then r.document == kept && kept.(revision := d.revision) == Applied(d, op).0
                else kept == d)
            && (d.revision < U64_MAX ==>
                  kept.revision == if r.Stored? && Applied(d, op).0 != d then d.revision + 1 else d.revision)
  {
    EditKeepsRevision(d, op);
  }
}
