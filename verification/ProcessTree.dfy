/** The processes under a pane's shell, with what tmux runs for it (src-tauri/src/main.rs). */
module ProcessTrees {
  import opened Common

  datatype ProcInfo = ProcInfo(pid: nat, ppid: nat, argv: seq<string>)

  // ---------------------------------------------------------------- descendants

  /** Entry `i` is reached from `root` by `steps` more parent links after the first. */
  ghost predicate ReachedIn(root: nat, all: seq<ProcInfo>, i: nat, steps: nat)
    requires i < |all|
    decreases steps
  {
    if steps == 0 then all[i].ppid == root
    else exists j :: 0 <= j < |all| && ReachedIn(root, all, j, steps - 1) && all[i].ppid == all[j].pid
  }

  ghost predicate Descends(root: nat, all: seq<ProcInfo>, i: nat) {
    i < |all| && exists steps: nat :: ReachedIn(root, all, i, steps)
  }

  /** The entries of a list at the positions kept, in the list's order. */
  function KeptOf(all: seq<ProcInfo>, keep: set<nat>): seq<ProcInfo> {
    if all == [] then []
    else
      var before := KeptOf(all[..|all| - 1], keep);
      if |all| - 1 in keep then before + [all[|all| - 1]] else before
  }

  ghost function Descendants(root: nat, all: seq<ProcInfo>): set<nat> {
    set i | 0 <= i < |all| && Descends(root, all, i)
  }

  /** The positions of the entries whose parent is each pid, in order. */
  method ChildrenByParent(all: seq<ProcInfo>) returns (children: map<nat, seq<nat>>)
    ensures forall parent | parent in children :: forall k | 0 <= k < |children[parent]| ::
              children[parent][k] < |all| && all[children[parent][k]].ppid == parent
    ensures forall i | 0 <= i < |all| :: all[i].ppid in children && i in children[all[i].ppid]
  {
    children := map[];
    for i := 0 to |all|
      invariant forall parent | parent in children :: forall k | 0 <= k < |children[parent]| ::
                  children[parent][k] < |all| && all[children[parent][k]].ppid == parent
      invariant forall j | 0 <= j < i :: all[j].ppid in children && j in children[all[j].ppid]
    {
      var parent := all[i].ppid;
      var siblings := if parent in children then children[parent] else [];
      assert i in siblings + [i];
      assert forall j | j in siblings :: j in siblings + [i];
      children := children[parent := siblings + [i]];
    }
  }

  /** Whatever is kept descends from the root; what a served pid is the parent of is kept. */
  ghost predicate Sound(root: nat, all: seq<ProcInfo>, keep: set<nat>) {
    forall i | i in keep :: Descends(root, all, i)
  }

  ghost predicate Served(all: seq<ProcInfo>, keep: set<nat>, served: set<nat>) {
    forall i | 0 <= i < |all| && all[i].ppid in served :: i in keep
  }

  ghost predicate Named(root: nat, all: seq<ProcInfo>, keep: set<nat>, pid: nat) {
    pid == root || exists i :: i in keep && i < |all| && all[i].pid == pid
  }

  ghost predicate Noticed(root: nat, all: seq<ProcInfo>, keep: set<nat>, served: set<nat>, queue: seq<nat>) {
    && (root in served || root in queue)
    && (forall i | i in keep :: i < |all| && (all[i].pid in served || all[i].pid in queue))
    && (forall pid | pid in queue :: Named(root, all, keep, pid))
  }

  lemma ChildDescends(root: nat, all: seq<ProcInfo>, keep: set<nat>, parent: nat, i: nat)
    requires i < |all| && all[i].ppid == parent && Sound(root, all, keep)
    requires Named(root, all, keep, parent)
    ensures Descends(root, all, i)
  {
    if parent == root {
      assert ReachedIn(root, all, i, 0);
    } else {
      var j :| j in keep && j < |all| && all[j].pid == parent;
      var steps: nat :| ReachedIn(root, all, j, steps);
      assert ReachedIn(root, all, i, steps + 1);
    }
  }

  /** A set that holds the root's children and its members' children holds every descendant. */
  lemma {:induction false} ClosedHoldsAll(root: nat, all: seq<ProcInfo>, keep: set<nat>, served: set<nat>, i: nat,
                                          steps: nat)
    requires i < |all| && Served(all, keep, served) && Noticed(root, all, keep, served, [])
    requires ReachedIn(root, all, i, steps)
    ensures i in keep
    decreases steps
  {
    if steps > 0 {
      var j: nat :| j < |all| && ReachedIn(root, all, j, steps - 1) && all[i].ppid == all[j].pid;
      ClosedHoldsAll(root, all, keep, served, j, steps - 1);
    }
  }

  /** Terminates on any list, and returns exactly the entries that descend from the root, in order. */
  method DescendantsOf(root: nat, all: seq<ProcInfo>) returns (tree: seq<ProcInfo>)
    ensures tree == KeptOf(all, Descendants(root, all))
  {
    var children := ChildrenByParent(all);
    var keep: set<nat>, queue := {}, [root];
    ghost var served: set<nat> := {};
    while queue != []
      invariant Sound(root, all, keep) && Served(all, keep, served) && Noticed(root, all, keep, served, queue)
      decreases |all| - |keep|, |queue|
    {
      var parent := queue[0];
      ghost var before := queue;
      queue := queue[1..];
      assert forall pid :: pid in before <==> pid == parent || pid in queue;
      ghost var had := keep;
      KeptIsSmall(|all|, keep);
      if parent in children {
        keep, queue := Serve(root, all, children[parent], parent, keep, queue, served + {parent});
      }
      served := served + {parent};
      KeptIsSmall(|all|, keep);
      Grows(had, keep);
    }
    forall i | 0 <= i < |all| && Descends(root, all, i) ensures i in keep {
      var steps: nat :| ReachedIn(root, all, i, steps);
      ClosedHoldsAll(root, all, keep, served, i, steps);
    }
    assert keep == Descendants(root, all);
    tree := Keep(all, keep);
  }

  lemma {:induction false} KeptIsSmall(n: nat, keep: set<nat>)
    requires forall i | i in keep :: i < n
    ensures |keep| <= n
  {
    if n > 0 {
      KeptIsSmall(n - 1, keep - {n - 1});
    }
  }

  lemma {:induction false} Grows(small: set<nat>, large: set<nat>)
    requires small <= large
    ensures |small| <= |large|
    ensures small != large ==> |small| < |large|
    decreases small
  {
    if small != {} {
      var x :| x in small;
      Grows(small - {x}, large - {x});
    }
  }

  /** One parent's children: those not kept yet are kept, and their pids queued. */
  method Serve(ghost root: nat, all: seq<ProcInfo>, indices: seq<nat>, ghost parent: nat, keep: set<nat>,
               queue: seq<nat>,
               ghost served: set<nat>)
    returns (keeps: set<nat>, queues: seq<nat>)
    requires forall k | 0 <= k < |indices| :: indices[k] < |all| && all[indices[k]].ppid == parent
    requires Sound(root, all, keep) && Noticed(root, all, keep, served, queue)
    requires Named(root, all, keep, parent)
    ensures Sound(root, all, keeps) && Noticed(root, all, keeps, served, queues)
    ensures keep <= keeps && (forall i | i in indices :: i in keeps)
    ensures keeps == keep ==> queues == queue
  {
    keeps, queues := keep, queue;
    for k := 0 to |indices|
      invariant Sound(root, all, keeps) && Noticed(root, all, keeps, served, queues)
      invariant keep <= keeps && (forall j | 0 <= j < k :: indices[j] in keeps)
      invariant keeps == keep ==> queues == queue
    {
      var i := indices[k];
      if i !in keeps {
        ChildDescends(root, all, keeps, parent, i);
        var more := queues + [all[i].pid];
        assert all[i].pid in more && forall pid | pid in queues :: pid in more;
        assert forall pid | Named(root, all, keeps, pid) :: Named(root, all, keeps + {i}, pid);
        keeps, queues := keeps + {i}, more;
      }
    }
  }

  method Keep(all: seq<ProcInfo>, keep: set<nat>) returns (kept: seq<ProcInfo>)
    ensures kept == KeptOf(all, keep)
  {
    kept := [];
    for i := 0 to |all|
      invariant kept == KeptOf(all[..i], keep)
    {
      assert all[..i + 1][..i] == all[..i];
      if i in keep {
        kept := kept + [all[i]];
      }
    }
    assert all[..|all|] == all;
  }

  // ---------------------------------------------------------------- tmux

  predicate StartsWith(text: string, prefix: string) {
    |prefix| <= |text| && text[..|prefix|] == prefix
  }

  /** What precedes the first colon. */
  function Head(first: string): string {
    if first == "" || first[0] == ':' then "" else [first[0]] + Head(first[1..])
  }

  predicate IsSlash(c: char) {
    c == '/' || c == '\\'
  }

  /** What follows the last slash or backslash. */
  function BaseName(head: string): string {
    if head == "" || IsSlash(head[|head| - 1]) then ""
    else BaseName(head[..|head| - 1]) + [head[|head| - 1]]
  }

  predicate IsTmuxProc(argv: seq<string>) {
    argv != [] && BaseName(Head(argv[0])) == "tmux"
  }

  predicate IsTmuxServer(argv: seq<string>) {
    argv != [] && (StartsWith(argv[0], "tmux:") || (IsTmuxProc(argv) && "-D" in argv))
  }

  predicate IsTmuxClient(argv: seq<string>) {
    IsTmuxProc(argv) && !IsTmuxServer(argv)
  }

  /** The first argument is a program named tmux in some directory, and then nothing or a colon. */
  predicate NamesTmux(first: string, directory: string, rest: string) {
    && first == directory + "tmux" + rest
    && ':' !in directory && (directory != "" ==> IsSlash(directory[|directory| - 1]))
    && (rest != "" ==> rest[0] == ':')
  }

  /** The head has no colon and ends before one, or nowhere. */
  lemma {:induction false} HeadParts(first: string)
    ensures var n := |Head(first)|;
            && n <= |first| && Head(first) == first[..n]
            && (forall k | 0 <= k < n :: first[k] != ':') && (n < |first| ==> first[n] == ':')
  {
    if first != "" && first[0] != ':' {
      HeadParts(first[1..]);
      assert forall k | 0 < k < |first| :: first[k] == first[1..][k - 1];
    }
  }

  /** The last `n` characters have no slash and begin after one, or at the front. */
  predicate IsBase(head: string, n: nat) {
    && n <= |head|
    && (forall k | |head| - n <= k < |head| :: !IsSlash(head[k]))
    && (n < |head| ==> IsSlash(head[|head| - n - 1]))
  }

  lemma LongerBase(head: string, n: nat)
    requires head != "" && !IsSlash(head[|head| - 1]) && IsBase(head[..|head| - 1], n)
    ensures IsBase(head, n + 1)
    ensures head[|head| - 1 - n..] == head[..|head| - 1][|head| - 1 - n..] + [head[|head| - 1]]
  {
    var shorter := head[..|head| - 1];
    assert forall k | 0 <= k < |shorter| :: head[k] == shorter[k];
  }

  lemma {:induction false} BaseParts(head: string)
    ensures IsBase(head, |BaseName(head)|) && BaseName(head) == head[|head| - |BaseName(head)|..]
    decreases |head|
  {
    if head != "" && !IsSlash(head[|head| - 1]) {
      var n := |BaseName(head[..|head| - 1])|;
      BaseParts(head[..|head| - 1]);
      LongerBase(head, n);
      assert |BaseName(head)| == n + 1;
    }
  }

  lemma HeadOfName(name: string, rest: string)
    requires ':' !in name && (rest != "" ==> rest[0] == ':')
    ensures Head(name + rest) == name
  {
    var first := name + rest;
    HeadParts(first);
    assert forall k | 0 <= k < |name| :: first[k] == name[k] && name[k] in name;
    assert rest != "" ==> first[|name|] == ':';
    assert first[..|name|] == name;
  }

  lemma BaseOfPath(directory: string, name: string)
    requires directory != "" ==> IsSlash(directory[|directory| - 1])
    requires forall k | 0 <= k < |name| :: !IsSlash(name[k])
    ensures BaseName(directory + name) == name
  {
    var path := directory + name;
    BaseParts(path);
    assert forall k | |directory| <= k < |path| :: path[k] == name[k - |directory|];
    assert directory != "" ==> IsSlash(path[|directory| - 1]);
    assert path[|directory|..] == name;
  }

  lemma PartsOfTmux(first: string) returns (directory: string, rest: string)
    requires BaseName(Head(first)) == "tmux"
    ensures NamesTmux(first, directory, rest)
  {
    var head := Head(first);
    HeadParts(first);
    BaseParts(head);
    assert |"tmux"| == 4 && head[|head| - 4..] == "tmux";
    directory, rest := head[..|head| - 4], first[|head|..];
    assert head == directory + head[|head| - 4..] && first == head + rest;
    assert forall k | 0 <= k < |directory| :: directory[k] == first[k];
  }

  /** The tmux processes are those whose first argument names tmux. */
  lemma TmuxIffNamed(argv: seq<string>)
    ensures IsTmuxProc(argv) <==> argv != [] && exists directory, rest :: NamesTmux(argv[0], directory, rest)
  {
    if IsTmuxProc(argv) {
      var _, _ := PartsOfTmux(argv[0]);
    }
    if argv != [] && exists directory, rest :: NamesTmux(argv[0], directory, rest) {
      var directory, rest :| NamesTmux(argv[0], directory, rest);
      NamedIsTmux(argv, directory, rest);
    }
  }

  lemma NamedIsTmux(argv: seq<string>, directory: string, rest: string)
    requires argv != [] && NamesTmux(argv[0], directory, rest)
    ensures IsTmuxProc(argv)
  {
    HeadOfName(directory + "tmux", rest);
    BaseOfPath(directory, "tmux");
  }

  /** A server is a tmux process too, so each tmux process is either a client or a server. */
  lemma ServerIsTmux(argv: seq<string>)
    requires IsTmuxServer(argv)
    ensures IsTmuxProc(argv)
  {
    if StartsWith(argv[0], "tmux:") {
      assert "tmux" + ":" == "tmux:";
      assert argv[0] == "" + "tmux" + argv[0][4..] && argv[0][4] == ':';
      NamedIsTmux(argv, "", argv[0][4..]);
    }
  }

  /** Of the tmux processes, the servers are those with nothing but a title after the name, as the daemon
      has, or an explicit flag; all others are clients. */
  lemma ServerIffTitleOrFlag(argv: seq<string>, directory: string, rest: string)
    requires argv != [] && NamesTmux(argv[0], directory, rest)
    ensures IsTmuxServer(argv) <==> (directory == "" && rest != "") || "-D" in argv
    ensures IsTmuxClient(argv) <==> !((directory == "" && rest != "") || "-D" in argv)
  {
    NamedIsTmux(argv, directory, rest);
    var first := argv[0];
    assert directory + "tmux" <= first;
    if directory != "" {
      assert first[4] == (directory + "tmux")[4] && first[4] in directory + "tmux";
    } else {
      assert "" + "tmux" + rest == "tmux" + rest;
      assert rest != "" ==> first[..5] == "tmux" + [rest[0]];
    }
  }

  predicate HasClient(tree: seq<ProcInfo>) {
    exists p :: p in tree && IsTmuxClient(p.argv)
  }

  /** Some of the first `n` entries is a tmux server that the entry at `i` descends from. */
  ghost predicate UnderServer(all: seq<ProcInfo>, n: nat, i: nat) {
    exists s :: 0 <= s < n && s < |all| && IsTmuxServer(all[s].argv) && Descends(all[s].pid, all, i)
  }

  ghost predicate DistinctPids(list: seq<ProcInfo>) {
    forall i, j | 0 <= i < j < |list| :: list[i].pid != list[j].pid
  }

  predicate HasPid(list: seq<ProcInfo>, pid: nat) {
    exists p :: p in list && p.pid == pid
  }

  lemma {:induction false} KeptExactly(all: seq<ProcInfo>, keep: set<nat>, p: ProcInfo)
    ensures p in KeptOf(all, keep) <==> exists i :: 0 <= i < |all| && i in keep && all[i] == p
    decreases |all|
  {
    if all != [] {
      var n := |all| - 1;
      KeptExactly(all[..n], keep, p);
      if p in KeptOf(all, keep) && !(n in keep && all[n] == p) {
        var i :| 0 <= i < |all[..n]| && i in keep && all[..n][i] == p;
        assert all[i] == p;
      }
      if i :| 0 <= i < |all| && i in keep && all[i] == p {
        assert i < n ==> all[..n][i] == p;
      }
    }
  }

  lemma {:induction false} KeptIsDistinct(all: seq<ProcInfo>, keep: set<nat>)
    requires DistinctPids(all)
    ensures DistinctPids(KeptOf(all, keep))
    decreases |all|
  {
    if all != [] {
      var n := |all| - 1;
      KeptIsDistinct(all[..n], keep);
      var before := KeptOf(all[..n], keep);
      forall k | 0 <= k < |before| ensures before[k].pid != all[n].pid {
        KeptExactly(all[..n], keep, before[k]);
      }
    }
  }

  /** Entries of a list that come from `all` and are wanted. */
  ghost predicate From(list: seq<ProcInfo>, all: seq<ProcInfo>, wanted: set<nat>) {
    forall p | p in list :: exists i :: 0 <= i < |all| && i in wanted && all[i] == p
  }

  ghost predicate Covers(list: seq<ProcInfo>, all: seq<ProcInfo>, wanted: set<nat>) {
    forall i | 0 <= i < |all| && i in wanted :: HasPid(list, all[i].pid)
  }

  ghost function UnderServers(all: seq<ProcInfo>, n: nat): set<nat> {
    set i | 0 <= i < |all| && UnderServer(all, n, i)
  }

  ghost predicate Seen(list: seq<ProcInfo>, seen: set<nat>) {
    forall pid :: pid in seen <==> HasPid(list, pid)
  }

  lemma KeptFromAll(all: seq<ProcInfo>, keep: set<nat>)
    ensures From(KeptOf(all, keep), all, keep) && Covers(KeptOf(all, keep), all, keep)
  {
    forall p | p in KeptOf(all, keep) ensures exists i :: 0 <= i < |all| && i in keep && all[i] == p {
      KeptExactly(all, keep, p);
    }
    forall i | 0 <= i < |all| && i in keep ensures HasPid(KeptOf(all, keep), all[i].pid) {
      KeptExactly(all, keep, all[i]);
    }
  }

  /** The entries of `more` whose pid is not there yet, at the end and in order. */
  function Added(tree: seq<ProcInfo>, more: seq<ProcInfo>): seq<ProcInfo> {
    if more == [] then tree
    else
      var longer, d := Added(tree, more[..|more| - 1]), more[|more| - 1];
      if HasPid(longer, d.pid) then longer else longer + [d]
  }

  /** The tree with the descendants of each server among the first `n` entries added in turn. */
  ghost function AddedServers(all: seq<ProcInfo>, n: nat, tree: seq<ProcInfo>): seq<ProcInfo>
    requires n <= |all|
  {
    if n == 0 then tree
    else
      var before := AddedServers(all, n - 1, tree);
      if IsTmuxServer(all[n - 1].argv) then Added(before, KeptOf(all, Descendants(all[n - 1].pid, all))) else before
  }

  method Fold(more: seq<ProcInfo>, tree: seq<ProcInfo>, seen: set<nat>)
    returns (longer: seq<ProcInfo>, saw: set<nat>)
    requires Seen(tree, seen)
    ensures Seen(longer, saw) && longer == Added(tree, more)
  {
    longer, saw := tree, seen;
    for k := 0 to |more|
      invariant Seen(longer, saw) && longer == Added(tree, more[..k])
    {
      var d := more[k];
      assert more[..k + 1][..k] == more[..k];
      if d.pid !in saw {
        Pushed(longer, d, saw);
        longer, saw := longer + [d], saw + {d.pid};
      }
    }
    assert more[..|more|] == more;
  }

  lemma {:induction false} AddedMeaning(tree: seq<ProcInfo>, more: seq<ProcInfo>)
    ensures tree <= Added(tree, more)
    ensures forall p | p in Added(tree, more) :: p in tree || p in more
    ensures forall p | p in tree || p in more :: HasPid(Added(tree, more), p.pid)
    ensures DistinctPids(tree) ==> DistinctPids(Added(tree, more))
    decreases |more|
  {
    if more == [] {
      assert forall p | p in tree :: HasPid(tree, p.pid);
    } else {
      var rest, d := more[..|more| - 1], more[|more| - 1];
      AddedMeaning(tree, rest);
      assert more == rest + [d];
      assert forall p :: p in more <==> p in rest || p == d;
      if !HasPid(Added(tree, rest), d.pid) {
        Appended(Added(tree, rest), d);
      }
    }
  }

  lemma Appended(list: seq<ProcInfo>, d: ProcInfo)
    ensures forall pid :: HasPid(list + [d], pid) <==> HasPid(list, pid) || pid == d.pid
    ensures DistinctPids(list) && !HasPid(list, d.pid) ==> DistinctPids(list + [d])
  {
    assert d in list + [d];
    assert forall p :: p in list + [d] <==> p in list || p == d;
    assert !HasPid(list, d.pid) ==> forall i | 0 <= i < |list| :: list[i] in list && list[i].pid != d.pid;
  }

  lemma Pushed(list: seq<ProcInfo>, d: ProcInfo, seen: set<nat>)
    requires Seen(list, seen)
    ensures Seen(list + [d], seen + {d.pid})
  {
    Appended(list, d);
  }

  method PidsOf(tree: seq<ProcInfo>) returns (seen: set<nat>)
    ensures Seen(tree, seen)
  {
    seen := set p | p in tree :: p.pid;
  }

  /** The list holds what is wanted and nothing else. */
  ghost predicate Holds(list: seq<ProcInfo>, all: seq<ProcInfo>, wanted: set<nat>) {
    From(list, all, wanted) && Covers(list, all, wanted)
  }

  /** The descendants of the pane's shell; if a tmux client is among them, also those of every tmux
      server, no pid twice. */
  method ProcessTreeWithTmux(pid: nat, all: seq<ProcInfo>) returns (tree: seq<ProcInfo>)
    ensures var own := KeptOf(all, Descendants(pid, all));
            && own <= tree
            && tree == (if HasClient(own) then AddedServers(all, |all|, own) else own)
            && if HasClient(own) then Holds(tree, all, Descendants(pid, all) + UnderServers(all, |all|))
               else Holds(tree, all, Descendants(pid, all))
    ensures DistinctPids(all) ==> DistinctPids(tree)
  {
    tree := DescendantsOf(pid, all);
    KeptFromAll(all, Descendants(pid, all));
    if DistinctPids(all) {
      KeptIsDistinct(all, Descendants(pid, all));
    }
    var hasClient := exists p :: p in tree && IsTmuxClient(p.argv);
    if hasClient {
      AddedServersExtend(all, |all|, tree);
      AddedServersHold(pid, all, |all|, tree);
      tree := FoldServers(all, tree);
    }
  }

  method FoldServers(all: seq<ProcInfo>, own: seq<ProcInfo>) returns (tree: seq<ProcInfo>)
    ensures tree == AddedServers(all, |all|, own)
  {
    tree := own;
    var seen := PidsOf(tree);
    for n := 0 to |all|
      invariant Seen(tree, seen) && tree == AddedServers(all, n, own)
    {
      if IsTmuxServer(all[n].argv) {
        var under := DescendantsOf(all[n].pid, all);
        tree, seen := Fold(under, tree, seen);
      }
    }
  }

  lemma {:induction false} AddedServersExtend(all: seq<ProcInfo>, n: nat, own: seq<ProcInfo>)
    requires n <= |all|
    ensures own <= AddedServers(all, n, own)
    ensures DistinctPids(own) ==> DistinctPids(AddedServers(all, n, own))
  {
    if n > 0 {
      AddedServersExtend(all, n - 1, own);
      AddedMeaning(AddedServers(all, n - 1, own), KeptOf(all, Descendants(all[n - 1].pid, all)));
    }
  }

  /** Adding the servers' descendants holds the own and theirs, and nothing else. */
  lemma {:induction false} AddedServersHold(pid: nat, all: seq<ProcInfo>, n: nat, own: seq<ProcInfo>)
    requires n <= |all| && Holds(own, all, Descendants(pid, all))
    ensures Holds(AddedServers(all, n, own), all, Descendants(pid, all) + UnderServers(all, n))
  {
    if n == 0 {
      assert Descendants(pid, all) + UnderServers(all, 0) == Descendants(pid, all);
    } else {
      AddedServersHold(pid, all, n - 1, own);
      OneMoreEntry(pid, all, n, AddedServers(all, n - 1, own));
    }
  }

  lemma OneMoreEntry(pid: nat, all: seq<ProcInfo>, n: nat, before: seq<ProcInfo>)
    requires 0 < n <= |all| && Holds(before, all, Descendants(pid, all) + UnderServers(all, n - 1))
    ensures Holds(if IsTmuxServer(all[n - 1].argv) then Added(before, KeptOf(all, Descendants(all[n - 1].pid, all)))
                  else before, all, Descendants(pid, all) + UnderServers(all, n))
  {
    if IsTmuxServer(all[n - 1].argv) {
      AddServer(pid, all, n - 1, before);
    } else {
      NoServer(all, n - 1);
    }
  }

  lemma NoServer(all: seq<ProcInfo>, n: nat)
    requires n < |all| && !IsTmuxServer(all[n].argv)
    ensures UnderServers(all, n + 1) == UnderServers(all, n)
  {
  }

  lemma GrownFrom(before: seq<ProcInfo>, under: seq<ProcInfo>, after: seq<ProcInfo>, all: seq<ProcInfo>,
                                     a: set<nat>, b: set<nat>)
    requires From(before, all, a) && From(under, all, b)
    requires forall p | p in after :: p in before || p in under
    ensures From(after, all, a + b)
  {
    forall p | p in after ensures exists i :: 0 <= i < |all| && i in a + b && all[i] == p {
      if p in before {
        var i :| 0 <= i < |all| && i in a && all[i] == p;
        assert i in a + b;
      } else {
        var i :| 0 <= i < |all| && i in b && all[i] == p;
        assert i in a + b;
      }
    }
  }

  lemma GrownCovers(before: seq<ProcInfo>, under: seq<ProcInfo>, after: seq<ProcInfo>, all: seq<ProcInfo>,
                    a: set<nat>, b: set<nat>)
    requires Covers(before, all, a) && Covers(under, all, b)
    requires forall p | p in before || p in under :: HasPid(after, p.pid)
    ensures Covers(after, all, a + b)
  {
    forall i | 0 <= i < |all| && i in a + b ensures HasPid(after, all[i].pid) {
      if i in a {
        var p :| p in before && p.pid == all[i].pid;
      } else {
        var p :| p in under && p.pid == all[i].pid;
      }
    }
  }

  lemma AddServer(pid: nat, all: seq<ProcInfo>, n: nat, before: seq<ProcInfo>)
    requires n < |all| && IsTmuxServer(all[n].argv)
    requires Holds(before, all, Descendants(pid, all) + UnderServers(all, n))
    ensures var after := Added(before, KeptOf(all, Descendants(all[n].pid, all)));
            Holds(after, all, Descendants(pid, all) + UnderServers(all, n + 1))
  {
    var own, under := Descendants(pid, all) + UnderServers(all, n), Descendants(all[n].pid, all);
    var more := KeptOf(all, under);
    AddedMeaning(before, more);
    KeptFromAll(all, under);
    GrownFrom(before, more, Added(before, more), all, own, under);
    GrownCovers(before, more, Added(before, more), all, own, under);
    OneMoreServer(all, n);
    assert own + under == Descendants(pid, all) + UnderServers(all, n + 1);
  }

  lemma OneMoreServer(all: seq<ProcInfo>, n: nat)
    requires n < |all| && IsTmuxServer(all[n].argv)
    ensures UnderServers(all, n + 1) == UnderServers(all, n) + Descendants(all[n].pid, all)
  {
  }

  /** With distinct pids, a list that holds what is wanted has exactly those entries. */
  lemma HoldsExactly(list: seq<ProcInfo>, all: seq<ProcInfo>, wanted: set<nat>, i: nat)
    requires DistinctPids(all) && Holds(list, all, wanted) && i < |all|
    ensures all[i] in list <==> i in wanted
  {
    if all[i] in list {
      var j :| 0 <= j < |all| && j in wanted && all[j] == all[i];
      assert j == i;
    }
    if i in wanted {
      assert HasPid(list, all[i].pid);
      var p :| p in list && p.pid == all[i].pid;
      var j :| 0 <= j < |all| && j in wanted && all[j] == p;
      assert j == i;
    }
  }

  // ---------------------------------------------------------------- following parent links

  /** The first entry of a pid. */
  function EntryOf(all: seq<ProcInfo>, pid: nat): (r: Option<nat>)
    ensures r.Some? ==> r.value < |all| && all[r.value].pid == pid
    ensures r.None? ==> forall i | 0 <= i < |all| :: all[i].pid != pid
  {
    if all == [] then None
    else if all[0].pid == pid then Some(0)
    else
      var later := EntryOf(all[1..], pid);
      if later.Some? then Some(later.value + 1) else None
  }

  /** The pid reached by following `n` parent links, if there are so many. */
  function Ancestor(all: seq<ProcInfo>, pid: nat, n: nat): Option<nat>
    decreases n
  {
    if n == 0 then Some(pid)
    else
      var entry := EntryOf(all, pid);
      if entry.Some? then Ancestor(all, all[entry.value].ppid, n - 1) else None
  }

  lemma {:induction false} ReachedIffAncestor(root: nat, all: seq<ProcInfo>, i: nat, steps: nat)
    requires DistinctPids(all) && i < |all|
    ensures ReachedIn(root, all, i, steps) <==> Ancestor(all, all[i].pid, steps + 1) == Some(root)
    decreases steps
  {
    var entry := EntryOf(all, all[i].pid);
    assert entry == Some(i);
    assert Ancestor(all, all[i].pid, steps + 1) == Ancestor(all, all[i].ppid, steps);
    if steps > 0 {
      var parent := EntryOf(all, all[i].ppid);
      if parent.Some? {
        ReachedIffAncestor(root, all, parent.value, steps - 1);
        assert forall j | 0 <= j < |all| && all[i].ppid == all[j].pid :: j == parent.value;
      }
    }
  }

  /** With distinct pids an entry is returned if and only if following parent links from it leads to the
      root: for the root's own entry, if and only if they lead back to it. */
  lemma ReturnedIffLinksLeadToRoot(root: nat, all: seq<ProcInfo>, i: nat)
    requires DistinctPids(all) && i < |all|
    ensures i in Descendants(root, all) <==> exists n: nat :: n > 0 && Ancestor(all, all[i].pid, n) == Some(root)
  {
    if i in Descendants(root, all) {
      var steps: nat :| ReachedIn(root, all, i, steps);
      ReachedIffAncestor(root, all, i, steps);
    }
    if n: nat :| n > 0 && Ancestor(all, all[i].pid, n) == Some(root) {
      ReachedIffAncestor(root, all, i, n - 1);
    }
  }

  /** A process that is its own parent, as pid 0 is on some systems, is returned as its own descendant; so
      is each of two processes that are each other's parent. */
  lemma RootIsReturned(argv: seq<string>)
    ensures KeptOf([ProcInfo(0, 0, argv)], Descendants(0, [ProcInfo(0, 0, argv)])) == [ProcInfo(0, 0, argv)]
    ensures var two := [ProcInfo(1, 2, argv), ProcInfo(2, 1, argv)]; KeptOf(two, Descendants(1, two)) == two
  {
    var one, two := [ProcInfo(0, 0, argv)], [ProcInfo(1, 2, argv), ProcInfo(2, 1, argv)];
    assert ReachedIn(0, one, 0, 0) && one[..0] == [];
    assert ReachedIn(1, two, 1, 0);
    assert ReachedIn(1, two, 0, 1);
    assert two[..1] == [two[0]] && two[..1][..0] == [];
    assert KeptOf(two[..1], Descendants(1, two)) == [two[0]];
  }
}
