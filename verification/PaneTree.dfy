/** Pane split trees: the agent's operations (src-tauri/src/workspace.rs) and what they mean. */
module PaneTrees {
  import opened Common

  datatype Direction = Row | Column

  datatype AgentSummary = AgentSummary(kind: string, command: string, sessionId: string)

  datatype PaneTree =
    | Leaf(id: string, cwd: string, sessionId: Option<string>, agent: Option<AgentSummary>,
           runtimeStatus: Option<string>, runtimeTitle: Option<string>)
    | Split(id: string, direction: Direction, children: seq<PaneTree>, sizes: seq<real>)

  // ---------------------------------------------------------------- observations

  /** The leaves from left to right. */
  function Leaves(t: PaneTree): seq<PaneTree>
    decreases t, 1
  {
    match t
    case Leaf(_, _, _, _, _, _) => [t]
    case Split(_, _, children, _) => ForestLeaves(children)
  }

  function ForestLeaves(trees: seq<PaneTree>): seq<PaneTree>
    decreases trees, 0
  {
    if trees == [] then [] else Leaves(trees[0]) + ForestLeaves(trees[1..])
  }

  /** How many nodes, leaves or splits, are named `id`. */
  function IdCount(t: PaneTree, id: string): nat
    decreases t, 1
  {
    (if t.id == id then 1 else 0) + (if t.Split? then ForestIdCount(t.children, id) else 0)
  }

  function ForestIdCount(trees: seq<PaneTree>, id: string): nat
    decreases trees, 0
  {
    if trees == [] then 0 else IdCount(trees[0], id) + ForestIdCount(trees[1..], id)
  }

  predicate HasLeaf(t: PaneTree, id: string)
    decreases t, 1
  {
    match t
    case Leaf(leafId, _, _, _, _, _) => leafId == id
    case Split(_, _, children, _) => ForestHasLeaf(children, id)
  }

  predicate ForestHasLeaf(trees: seq<PaneTree>, id: string)
    decreases trees, 0
  {
    trees != [] && (HasLeaf(trees[0], id) || ForestHasLeaf(trees[1..], id))
  }

  /** `t` with every split's sizes made even: all that closing a pane changes besides the pane. */
  function Evened(t: PaneTree): PaneTree
    decreases t, 1
  {
    match t
    case Leaf(_, _, _, _, _, _) => t
    case Split(id, direction, children, _) =>
      Split(id, direction, ForestEvened(children), EvenSizes(|children|))
  }

  function ForestEvened(trees: seq<PaneTree>): (r: seq<PaneTree>)
    ensures |r| == |trees|
    decreases trees, 0
  {
    if trees == [] then [] else [Evened(trees[0])] + ForestEvened(trees[1..])
  }

  function EvenSizes(n: nat): (sizes: seq<real>)
    ensures |sizes| == n && forall size | size in sizes :: size > 0.0
  {
    seq(n, i requires 0 <= i < n => 100.0 / (n as real))
  }

  // ---------------------------------------------------------------- split

  /** The first direct child that is the leaf `target`. */
  function LeafIndex(trees: seq<PaneTree>, target: string): (r: Option<nat>)
    ensures r.Some? ==> r.value < |trees| && trees[r.value].Leaf? && trees[r.value].id == target
    ensures r.None? ==> forall i | 0 <= i < |trees| :: !(trees[i].Leaf? && trees[i].id == target)
  {
    if trees == [] then None
    else if trees[0].Leaf? && trees[0].id == target then Some(0)
    else
      var rest := LeafIndex(trees[1..], target);
      if rest.Some? then Some(rest.value + 1) else None
  }

  function SplitTree(t: PaneTree, target: string, direction: Direction, splitId: string, leaf: PaneTree): (PaneTree,
                     bool)
    decreases t, 1
  {
    match t
    case Split(_, existing, children, _) =>
      var index := if existing == direction then LeafIndex(children, target) else None;
      if index.Some? then
        var grown := children[..index.value + 1] + [leaf] + children[index.value + 1..];
        (t.(children := grown, sizes := EvenSizes(|grown|)), true)
      else
        var (trees, found) := SplitForest(children, target, direction, splitId, leaf);
        (t.(children := trees), found)
    case Leaf(id, _, _, _, _, _) =>
      if id == target then
        (Split(splitId, direction, [t, leaf], [50.0, 50.0]), true)
      else
        (t, false)
  }

  function SplitForest(trees: seq<PaneTree>, target: string, direction: Direction, splitId: string, leaf: PaneTree)
    : (r: (seq<PaneTree>, bool))
    ensures |r.0| == |trees|
    decreases trees, 0
  {
    if trees == [] then
      ([], false)
    else
      var (first, found) := SplitTree(trees[0], target, direction, splitId, leaf);
      if found then
        ([first] + trees[1..], true)
      else
        var (rest, later) := SplitForest(trees[1..], target, direction, splitId, leaf);
        ([first] + rest, later)
  }

  // ---------------------------------------------------------------- close, sizes, leaf updates

  function RemovePane(t: PaneTree, target: string): Option<PaneTree>
    decreases t, 1
  {
    match t
    case Leaf(id, _, _, _, _, _) => if id == target then None else Some(t)
    case Split(id, direction, children, _) =>
      var kept := RemoveFromForest(children, target);
      if |kept| == 0 then None
      else if |kept| == 1 then Some(kept[0])
      else Some(Split(id, direction, kept, EvenSizes(|kept|)))
  }

  function RemoveFromForest(trees: seq<PaneTree>, target: string): seq<PaneTree>
    decreases trees, 0
  {
    if trees == [] then [] else
    var first := RemovePane(trees[0], target);
    (if first.Some? then [first.value] else []) + RemoveFromForest(trees[1..], target)
  }

  function SetSplitSizes(t: PaneTree, target: string, sizes: seq<real>): (PaneTree, bool)
    decreases t, 1
  {
    match t
    case Leaf(_, _, _, _, _, _) => (t, false)
    case Split(id, _, children, _) =>
      if id == target then
        if |sizes| != |children| then (t, false) else (t.(sizes := sizes), true)
      else
        var (trees, found) := SetForestSizes(children, target, sizes);
        (t.(children := trees), found)
  }

  function SetForestSizes(trees: seq<PaneTree>, target: string, sizes: seq<real>): (r: (seq<PaneTree>, bool))
    ensures |r.0| == |trees|
    decreases trees, 0
  {
    if trees == [] then
      ([], false)
    else
      var (first, found) := SetSplitSizes(trees[0], target, sizes);
      if found then
        ([first] + trees[1..], true)
      else
        var (rest, later) := SetForestSizes(trees[1..], target, sizes);
        ([first] + rest, later)
  }

  /** What an update does to the leaf it finds. */
  datatype LeafEdit =
    | SetCwd(cwd: string)
    | SetSession(sessionId: string)
    | SetAgent(agent: Option<AgentSummary>)
    | SetStatus(status: Option<string>)
    | SetTitle(title: Option<string>)

  function EditLeaf(leaf: PaneTree, edit: LeafEdit): (r: PaneTree)
    requires leaf.Leaf?
    ensures r.Leaf? && r.id == leaf.id
  {
    match edit
    case SetCwd(cwd) => leaf.(cwd := cwd)
    case SetSession(session) => leaf.(sessionId := Some(session))
    case SetAgent(agent) => leaf.(agent := agent)
    case SetStatus(status) => leaf.(runtimeStatus := status)
    case SetTitle(title) => leaf.(runtimeTitle := title)
  }

  function UpdateLeaf(t: PaneTree, target: string, edit: LeafEdit): (PaneTree, bool)
    decreases t, 1
  {
    match t
    case Leaf(id, _, _, _, _, _) => if id == target then (EditLeaf(t, edit), true) else (t, false)
    case Split(_, _, children, _) =>
      var (trees, found) := UpdateForest(children, target, edit);
      (t.(children := trees), found)
  }

  function UpdateForest(trees: seq<PaneTree>, target: string, edit: LeafEdit): (r: (seq<PaneTree>, bool))
    ensures |r.0| == |trees|
    decreases trees, 0
  {
    if trees == [] then
      ([], false)
    else
      var (first, found) := UpdateLeaf(trees[0], target, edit);
      if found then
        ([first] + trees[1..], true)
      else
        var (rest, later) := UpdateForest(trees[1..], target, edit);
        ([first] + rest, later)
  }

  // ---------------------------------------------------------------- well-formed trees

  predicate IsWhitespace(c: char) {
    || '\U{0009}' <= c <= '\U{000D}' || c == '\U{0020}' || c == '\U{0085}' || c == '\U{00A0}' || c == '\U{1680}'
    || '\U{2000}' <= c <= '\U{200A}' || c == '\U{2028}' || c == '\U{2029}' || c == '\U{202F}' || c == '\U{205F}'
    || c == '\U{3000}'
  }

  predicate IsBlank(s: string) {
    forall i | 0 <= i < |s| :: IsWhitespace(s[i])
  }

  predicate LeafOk(leaf: PaneTree)
    requires leaf.Leaf?
  {
    && leaf.id != "" && !IsBlank(leaf.cwd)
    && (leaf.runtimeStatus.Some? ==> leaf.runtimeStatus.value in ["working", "idle", "permission"])
    && (leaf.agent.Some? ==>
          && leaf.agent.value.kind in ["claude", "codex", "opencode"]
          && !IsBlank(leaf.agent.value.command) && !IsBlank(leaf.agent.value.sessionId))
  }

  predicate ShapeOk(split: PaneTree)
    requires split.Split?
  {
    && split.id != ""
    && |split.children| >= 2 && |split.children| == |split.sizes|
    && forall size | size in split.sizes :: size > 0.0
  }

  predicate WellFormed(t: PaneTree)
    decreases t, 1
  {
    match t
    case Leaf(_, _, _, _, _, _) => LeafOk(t)
    case Split(_, _, children, _) => ShapeOk(t) && ForestWellFormed(children)
  }

  predicate ForestWellFormed(trees: seq<PaneTree>)
    decreases trees, 0
  {
    trees == [] || (WellFormed(trees[0]) && ForestWellFormed(trees[1..]))
  }
}
