/** The client's optimistic copy of the workspaces of one host (src/lib/workspace-sync.ts). */
module WorkspaceSyncing {
  import opened Common

  /** What a workspace document holds besides its revision. */
  type Content(==)

  datatype Version = Version(revision: nat, content: Content)

  // ---------------------------------------------------------------- one workspace

  /** What the client keeps for one workspace: whether a queue of mutations exists, the newest
      revision and document remembered, whether a projection waits for the queue to drain, and what
      the view shows (projected, or changed optimistically by the user). */
  datatype Slot = Slot(queued: bool, revision: Option<nat>, document: Option<Version>, deferred: bool,
                       view: Option<Content>)

  /** An older document than the one remembered is refused. */
  predicate Remembers(slot: Slot, version: Version) {
    slot.revision.Some? ==> slot.revision.value <= version.revision
  }

  function Remembered(slot: Slot, version: Version): Slot {
    slot.(revision := Some(version.revision), document := Some(version))
  }

  function Projected(slot: Slot, version: Version): Slot {
    slot.(view := Some(version.content))
  }

  /** A document of a response or an event: remembered unless older, then shown or deferred. */
  function Accepted(slot: Slot, version: Version): Slot {
    if !Remembers(slot, version) then slot
    else if slot.queued then Remembered(slot, version).(deferred := true)
    else Projected(Remembered(slot, version), version)
  }

  function RolledBack(slot: Slot): Slot {
    if slot.document.Some? then Projected(slot, slot.document.value) else slot
  }

  /** The last queued mutation has ended. */
  function Drained(slot: Slot): Slot {
    var idle := slot.(queued := false, deferred := false);
    if slot.deferred && slot.document.Some? then Projected(idle, slot.document.value) else idle
  }

  /** The host says that the workspace is gone. */
  function Removed(slot: Slot): Slot {
    slot.(deferred := false, revision := None, document := None, view := None)
  }

  /** The client's own deletion was accepted. */
  function Deleted(slot: Slot): Slot {
    slot.(revision := None, document := None, view := None)
  }

  /** A list of the host's workspaces replaces the view even where `remember` refused. */
  function Listed(slot: Slot, entry: Option<Version>): Slot {
    match entry
    case None => slot.(view := None)
    case Some(version) =>
      Projected(if Remembers(slot, version) then Remembered(slot, version) else slot, version)
  }

  // ---------------------------------------------------------------- the module's maps

  function Get<K, V>(m: map<K, V>, key: K): Option<V> {
    if key in m then Some(m[key]) else None
  }

  /** The listing's entry for a workspace; the last one if it is listed twice. */
  function EntryOf(entries: seq<(string, Version)>, id: string): Option<Version> {
    if entries == [] then None
    else
      var last := entries[|entries| - 1];
      if last.0 == id then Some(last.1) else EntryOf(entries[..|entries| - 1], id)
  }

  /** `remember` for every entry of a listing in turn. */
  function RememberedAll(slot: Slot, entries: seq<(string, Version)>, id: string): Slot {
    if entries == [] then slot
    else
      var before, last := RememberedAll(slot, entries[..|entries| - 1], id), entries[|entries| - 1];
      if last.0 == id && Remembers(before, last.1) then Remembered(before, last.1) else before
  }

  class WorkspaceSync {
    var queues: map<string, nat> // the ticket of the mutation that was queued last
    var revisions: map<string, nat>
    var documents: map<string, Version>
    var deferredProjections: set<string>
    var view: map<string, Content>

    constructor ()
      ensures forall id :: SlotOf(id) == Slot(false, None, None, false, None)
    {
      queues, revisions, documents, deferredProjections, view := map[], map[], map[], {}, map[];
    }

    ghost function SlotOf(id: string): Slot
      reads this
    {
      Slot(id in queues, Get(revisions, id), Get(documents, id), id in deferredProjections, Get(view, id))
    }

    method Remember(id: string, version: Version) returns (remembered: bool)
      modifies this`revisions, this`documents
      ensures remembered == Remembers(old(SlotOf(id)), version)
      ensures SlotOf(id) == if remembered then Remembered(old(SlotOf(id)), version) else old(SlotOf(id))
      ensures forall other | other != id :: SlotOf(other) == old(SlotOf(other))
    {
      if id in revisions && version.revision < revisions[id] {
        return false;
      }
      revisions := revisions[id := version.revision];
      documents := documents[id := version];
      return true;
    }

    method ProjectOrDefer(id: string, version: Version)
      modifies this`deferredProjections, this`view
      ensures var slot := old(SlotOf(id));
              SlotOf(id) == if slot.queued then slot.(deferred := true) else Projected(slot, version)
      ensures forall other | other != id :: SlotOf(other) == old(SlotOf(other))
    {
      if id in queues {
        deferredProjections := deferredProjections + {id};
        return;
      }
      view := view[id := version.content];
    }

    /** A response to a mutation or a refresh. */
    method AcceptResponse(id: string, version: Version)
      modifies this`revisions, this`documents, this`deferredProjections, this`view
      ensures SlotOf(id) == Accepted(old(SlotOf(id)), version)
      ensures forall other | other != id :: SlotOf(other) == old(SlotOf(other))
    {
      var remembered := Remember(id, version);
      if !remembered {
        return;
      }
      ProjectOrDefer(id, version);
    }

    method OnWorkspaceChanged(id: string, version: Version)
      modifies this`revisions, this`documents, this`deferredProjections, this`view
      ensures SlotOf(id) == Accepted(old(SlotOf(id)), version)
      ensures forall other | other != id :: SlotOf(other) == old(SlotOf(other))
    {
      var remembered := Remember(id, version);
      if !remembered {
        return;
      }
      if id in queues {
        deferredProjections := deferredProjections + {id};
      } else {
        view := view[id := version.content];
      }
    }

    method OnWorkspaceRemoved(id: string)
      modifies this`revisions, this`documents, this`deferredProjections, this`view
      ensures SlotOf(id) == Removed(old(SlotOf(id)))
      ensures forall other | other != id :: SlotOf(other) == old(SlotOf(other))
    {
      deferredProjections := deferredProjections - {id};
      revisions := revisions - {id};
      documents := documents - {id};
      view := view - {id};
    }

    method OnDeleteAccepted(id: string)
      modifies this`revisions, this`documents, this`view
      ensures SlotOf(id) == Deleted(old(SlotOf(id)))
      ensures forall other | other != id :: SlotOf(other) == old(SlotOf(other))
    {
      revisions := revisions - {id};
      documents := documents - {id};
      view := view - {id};
    }

    method RollbackWorkspace(id: string)
      modifies this`view
      ensures SlotOf(id) == RolledBack(old(SlotOf(id)))
      ensures forall other | other != id :: SlotOf(other) == old(SlotOf(other))
    {
      if id in documents {
        view := view[id := documents[id].content];
      }
    }

    /** Queues a mutation the user has already made in the view. */
    method Enqueue(id: string, ticket: nat, shown: Option<Content>)
      modifies this`queues, this`view
      ensures SlotOf(id) == old(SlotOf(id)).(queued := true, view := shown)
      ensures queues == old(queues)[id := ticket]
      ensures forall other | other != id :: SlotOf(other) == old(SlotOf(other))
    {
      view := if shown.Some? then view[id := shown.value] else view - {id};
      queues := queues[id := ticket];
    }

    /** Runs when the mutation with this ticket has ended: only the last one queued drains. */
    method AfterMutation(id: string, ticket: nat)
      modifies this`queues, this`deferredProjections, this`view
      ensures Get(old(queues), id) != Some(ticket) ==>
                queues == old(queues) && forall any :: SlotOf(any) == old(SlotOf(any))
      ensures Get(old(queues), id) == Some(ticket) ==> SlotOf(id) == Drained(old(SlotOf(id)))
      ensures forall other | other != id :: SlotOf(other) == old(SlotOf(other))
    {
      if id !in queues || queues[id] != ticket {
        return;
      }
      queues := queues - {id};
      if id !in deferredProjections {
        return;
      }
      deferredProjections := deferredProjections - {id};
      if id in documents {
        view := view[id := documents[id].content];
      }
    }

    /** After (re)connecting: remembers every listed document, then replaces the whole view. */
    method ReplaceHost(entries: seq<(string, Version)>)
      modifies this`revisions, this`documents, this`view
      ensures forall id :: SlotOf(id) == ListedLast(RememberedAll(old(SlotOf(id)), entries, id), EntryOf(entries, id))
    {
      RememberAll(entries);
      ShowOnly(entries);
    }

    method ShowOnly(entries: seq<(string, Version)>)
      modifies this`view
      ensures forall id :: Get(view, id) == Shown(EntryOf(entries, id))
    {
      view := map[];
      var i := 0;
      while i < |entries|
        invariant 0 <= i <= |entries|
        invariant forall id :: Get(view, id) == Shown(EntryOf(entries[..i], id))
      {
        assert entries[..i + 1][..i] == entries[..i];
        view := view[entries[i].0 := entries[i].1.content];
        i := i + 1;
      }
      assert entries[..|entries|] == entries;
    }

    method RememberAll(entries: seq<(string, Version)>)
      modifies this`revisions, this`documents
      ensures forall id :: SlotOf(id) == RememberedAll(old(SlotOf(id)), entries, id)
    {
      var i := 0;
      while i < |entries|
        invariant 0 <= i <= |entries|
        invariant forall id :: SlotOf(id) == RememberedAll(old(SlotOf(id)), entries[..i], id)
      {
        assert entries[..i + 1][..i] == entries[..i];
        var _ := Remember(entries[i].0, entries[i].1);
        i := i + 1;
      }
      assert entries[..|entries|] == entries;
    }
  }

  function Shown(entry: Option<Version>): Option<Content> {
    if entry.Some? then Some(entry.value.content) else None
  }

  function ListedLast(slot: Slot, entry: Option<Version>): Slot {
    slot.(view := Shown(entry))
  }

  predicate ListedOnce(entries: seq<(string, Version)>) {
    forall i, j | 0 <= i < j < |entries| :: entries[i].0 != entries[j].0
  }

  /** A listing that names every workspace at most once acts on each one by itself. */
  lemma {:induction false} ListingIsPerWorkspace(slot: Slot, entries: seq<(string, Version)>, id: string)
    requires ListedOnce(entries)
    ensures ListedLast(RememberedAll(slot, entries, id), EntryOf(entries, id)) == Listed(slot, EntryOf(entries, id))
    ensures EntryOf(entries, id).None? ==> RememberedAll(slot, entries, id) == slot
    decreases |entries|
  {
    if entries != [] {
      var n := |entries| - 1;
      ListingIsPerWorkspace(slot, entries[..n], id);
      if entries[n].0 == id {
        NotListed(entries[..n], id);
      }
    }
  }

  lemma {:induction false} NotListed(entries: seq<(string, Version)>, id: string)
    requires forall i | 0 <= i < |entries| :: entries[i].0 != id
    ensures EntryOf(entries, id).None?
    decreases |entries|
  {
    if entries != [] {
      NotListed(entries[..|entries| - 1], id);
    }
  }
}
