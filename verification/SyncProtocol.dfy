/** One workspace shared by this client's mutation queue and its agent (src/lib/workspace-sync.ts):
    every interleaving of queued operations, conflicts, errors, remote changes, events and listings. */
module SyncProtocol {
  import opened Common
  import opened WorkspaceSyncing

  // ---------------------------------------------------------------- states

  datatype Kind = Operate | Create | Delete

  datatype Reply = Doc(version: Version) | Conflict | Failure | Ack

  /** What the first mutation of the queue is waiting for. */
  datatype Phase =
    | Waiting
    | Getting(attempt: nat, reply: Option<Reply>)              // get_workspace
    | Leasing(attempt: nat, base: nat)                         // ensureControl
    | Applying(attempt: nat, base: nat, reply: Option<Reply>)  // apply_workspace_op
    | Creating(reply: Option<Reply>)                           // create_workspace
    | Deleting(reply: Option<Reply>)                           // delete_workspace

  /** The agent's document: version `i` has revision `i + 1`; `alive` until the workspace is removed. */
  datatype Agent = Agent(alive: bool, versions: seq<Content>)

  /** A request whose mutation has failed at the client, while the agent may still execute it. */
  datatype Request = Request(n: nat, base: nat)

  /** The agent executed operation `n` at revision `base`; it may have changed nothing. */
  datatype Entry = Entry(n: nat, base: nat, changed: bool, late: bool)

  /** Mutations are numbered in the order they are queued; `sent` lists the numbers of the operation
      requests in the order they were sent. */
  datatype World = World(
    slot: Slot, tasks: seq<Kind>, phase: Phase, next: nat, createQueued: bool,
    agent: Agent, lingering: set<Request>, log: seq<Entry>, sent: seq<nat>)

  datatype Outcome = Rejected | Unchanged | Changed(content: Content)

  datatype Action =
    | Queue(kind: Kind, shown: Option<Content>)
    | Begin
    | Lease
    | Receive
    | Fail
    | Drain
    | Event(version: Version)
    | RemovedEvent
    | Listing(entry: Option<Version>)
    | AgentChanges(content: Content)
    | AgentCreates(content: Content)
    | AgentRemoves
    | AnswerGet
    | AnswerApply(outcome: Outcome, lost: bool)
    | AnswerCreate
    | AnswerDelete
    | Refuse
    | Late(request: Request, outcome: Outcome)

  /** The number of the mutation at the head of the queue. */
  function Current(w: World): int {
    w.next - |w.tasks|
  }

  predicate Published(agent: Agent, version: Version) {
    1 <= version.revision <= |agent.versions| && agent.versions[version.revision - 1] == version.content
  }

  function Newest(agent: Agent): Version
    requires agent.versions != []
  {
    Version(|agent.versions|, agent.versions[|agent.versions| - 1])
  }

  // ---------------------------------------------------------------- steps

  function Ended(w: World, slot: Slot): World
    requires w.tasks != []
  {
    w.(slot := slot, tasks := w.tasks[1..], phase := Waiting)
  }

  /** The head mutation throws: its request may still be with the agent. */
  function Failed(w: World): World
    requires w.tasks != [] && Current(w) >= 0
  {
    var slot := if w.tasks[0].Create? then w.slot.(view := None) else RolledBack(w.slot);
    var still := if w.phase.Applying? && w.phase.reply.None? then {Request(Current(w), w.phase.base)} else {};
    Ended(w, slot).(lingering := w.lingering + still)
  }

  function Begun(w: World): Phase
    requires w.tasks != []
  {
    match w.tasks[0]
    case Create => Creating(None)
    case Delete => Deleting(None)
    case Operate => if w.slot.revision.Some? then Leasing(1, w.slot.revision.value) else Getting(1, None)
  }

  function Received(w: World): World
    requires w.tasks != [] && Current(w) >= 0
    requires !w.phase.Waiting? && !w.phase.Leasing? && w.phase.reply.Some?
  {
    var reply := w.phase.reply.value;
    match w.phase
    case Getting(attempt, _) =>
      if reply.Doc? then
        w.(slot := Accepted(w.slot, reply.version), phase := Leasing(attempt, reply.version.revision))
      else Failed(w)
    case Applying(attempt, _, _) =>
      if reply.Doc? then Ended(w, Accepted(w.slot, reply.version))
      else if reply.Conflict? && attempt == 1 then w.(phase := Getting(2, None))
      else Failed(w)
    case Creating(_) =>
      if reply.Doc? then Ended(w, Accepted(w.slot, reply.version)) else Failed(w)
    case Deleting(_) =>
      if reply.Ack? then Ended(w, Deleted(w.slot)) else Failed(w)
  }

  /** The agent executes operation `n` if its revision is still `base`. */
  function Executed(w: World, n: nat, base: nat, outcome: Outcome, late: bool): World {
    if !w.agent.alive || base != |w.agent.versions| || outcome.Rejected? then w
    else if outcome.Unchanged? then w.(log := w.log + [Entry(n, base, false, late)])
    else
      w.(agent := w.agent.(versions := w.agent.versions + [outcome.content]),
         log := w.log + [Entry(n, base, true, late)])
  }

  function ApplyReply(w: World, base: nat, outcome: Outcome, lost: bool): Reply
    requires w.agent.versions != []
  {
    if !w.agent.alive then Failure
    else if base != |w.agent.versions| then Conflict
    else if outcome.Rejected? || lost then Failure
    else if outcome.Unchanged? then Doc(Newest(w.agent))
    else Doc(Version(|w.agent.versions| + 1, outcome.content))
  }

  predicate Enabled(w: World, a: Action) {
    match a
    case Queue(kind, _) =>
      kind.Create? ==> !w.createQueued && !w.slot.queued && w.slot.document.None? && w.agent.versions == []
    case Begin => w.tasks != [] && w.phase.Waiting?
    case Lease => w.phase.Leasing?
    case Receive => !w.phase.Waiting? && !w.phase.Leasing? && w.phase.reply.Some?
    case Fail => w.tasks != []
    case Drain => w.tasks == [] && w.slot.queued
    case Event(version) => Published(w.agent, version)
    case RemovedEvent => !w.agent.alive && w.agent.versions != []
    case Listing(entry) => entry.Some? ==> Published(w.agent, entry.value)
    case AgentChanges(_) => w.agent.alive
    case AgentCreates(_) => w.createQueued && w.agent.versions == []
    case AgentRemoves => w.agent.alive
    case AnswerGet => w.phase.Getting? && w.phase.reply.None? && w.agent.alive
    case AnswerApply(_, _) => w.phase.Applying? && w.phase.reply.None? && w.agent.versions != []
    case AnswerCreate => w.phase.Creating? && w.phase.reply.None? && w.agent.versions != []
    case AnswerDelete => w.phase.Deleting? && w.phase.reply.None? && !w.agent.alive
    case Refuse => !w.phase.Waiting? && !w.phase.Leasing? && w.phase.reply.None?
    case Late(request, _) => request in w.lingering
  }

  function Next(w: World, a: Action): World
    requires WellFormed(w) && Enabled(w, a)
  {
    match a
    case Queue(kind, shown) =>
      w.(slot := w.slot.(queued := true, view := shown), tasks := w.tasks + [kind], next := w.next + 1,
         createQueued := w.createQueued || kind.Create?)
    case Begin => w.(phase := Begun(w))
    case Lease =>
      w.(phase := Applying(w.phase.attempt, w.phase.base, None), sent := w.sent + [Current(w)])
    case Receive => Received(w)
    case Fail => Failed(w)
    case Drain => w.(slot := Drained(w.slot))
    case Event(version) => w.(slot := Accepted(w.slot, version))
    case RemovedEvent => w.(slot := Removed(w.slot))
    case Listing(entry) => w.(slot := Listed(w.slot, entry))
    case AgentChanges(content) => w.(agent := w.agent.(versions := w.agent.versions + [content]))
    case AgentCreates(content) => w.(agent := Agent(true, [content]))
    case AgentRemoves => w.(agent := w.agent.(alive := false))
    case AnswerGet => w.(phase := w.phase.(reply := Some(Doc(Newest(w.agent)))))
    case AnswerApply(outcome, lost) =>
      Executed(w, Current(w), w.phase.base, outcome, false)
        .(phase := w.phase.(reply := Some(ApplyReply(w, w.phase.base, outcome, lost))))
    case AnswerCreate => w.(phase := Creating(Some(Doc(Version(1, w.agent.versions[0])))))
    case AnswerDelete => w.(phase := Deleting(Some(Ack)))
    case Refuse => w.(phase := w.phase.(reply := Some(Failure)))
    case Late(request, outcome) =>
      Executed(w.(lingering := w.lingering - {request}), request.n, request.base, outcome, true)
  }

  // ---------------------------------------------------------------- shape

  /** The phase fits the head of the queue, and every document in flight is one the agent had. */
  ghost predicate WellFormed(w: World) {
    && |w.tasks| <= w.next
    && (w.tasks == [] ==> w.phase.Waiting?)
    && (w.tasks != [] ==> w.slot.queued)
    && (w.phase.Getting? || w.phase.Leasing? || w.phase.Applying? ==>
          w.tasks[0].Operate? && 1 <= w.phase.attempt <= 2)
    && (w.phase.Creating? ==> w.tasks[0].Create?)
    && (w.phase.Deleting? ==> w.tasks[0].Delete?)
    && (w.agent.alive ==> w.agent.versions != [])
  }

  ghost predicate RepliesFit(w: World) {
    && (w.phase.Leasing? || w.phase.Applying? ==> 1 <= w.phase.base <= |w.agent.versions|)
    && (!w.phase.Waiting? && !w.phase.Leasing? && w.phase.reply.Some? && w.phase.reply.value.Doc? ==>
          Published(w.agent, w.phase.reply.value.version))
    && (w.phase.Applying? && w.phase.reply.Some? && w.phase.reply.value.Doc? ==>
          w.phase.base <= w.phase.reply.value.version.revision)
  }

  /** What is remembered with a revision is a document the agent had; one without is cached, from before. */
  ghost predicate Remembering(w: World) {
    && (w.slot.deferred ==> w.slot.queued)
    && (w.slot.revision.Some? ==>
          && w.slot.document.Some? && w.slot.document.value.revision == w.slot.revision.value
          && Published(w.agent, w.slot.document.value))
    && (w.slot.revision.None? && w.slot.document.Some? ==> w.slot.document.value.revision == 0)
  }

  predicate ByClient(a: Action) {
    a.Queue? || a.Begin? || a.Lease? || a.Drain? || a.Event? || a.RemovedEvent? || a.Listing?
  }

  lemma EndKeepsShape(w: World, a: Action)
    requires WellFormed(w) && Enabled(w, a) && (a.Receive? || a.Fail?)
    ensures WellFormed(Next(w, a))
  {
  }

  lemma ClientKeepsShape(w: World, a: Action)
    requires WellFormed(w) && Enabled(w, a) && ByClient(a)
    ensures WellFormed(Next(w, a))
  {
  }

  lemma AgentKeepsShape(w: World, a: Action)
    requires WellFormed(w) && Enabled(w, a) && !ByClient(a) && !a.Receive? && !a.Fail?
    ensures WellFormed(Next(w, a))
  {
  }

  lemma StepKeepsShape(w: World, a: Action)
    requires WellFormed(w) && Enabled(w, a)
    ensures WellFormed(Next(w, a))
  {
    if ByClient(a) {
      ClientKeepsShape(w, a);
    } else if a.Receive? || a.Fail? {
      EndKeepsShape(w, a);
    } else {
      AgentKeepsShape(w, a);
    }
  }

  lemma ReceiveKeepsReplies(w: World)
    requires WellFormed(w) && RepliesFit(w) && Remembering(w) && Enabled(w, Receive)
    ensures RepliesFit(Received(w))
  {
  }

  lemma AgentKeepsReplies(w: World, a: Action)
    requires WellFormed(w) && RepliesFit(w) && Remembering(w) && Enabled(w, a) && !ByClient(a) && !a.Receive?
    ensures RepliesFit(Next(w, a))
  {
  }

  lemma StepKeepsReplies(w: World, a: Action)
    requires WellFormed(w) && RepliesFit(w) && Remembering(w) && Enabled(w, a)
    ensures RepliesFit(Next(w, a))
  {
    if a.Receive? {
      ReceiveKeepsReplies(w);
    } else if !ByClient(a) {
      AgentKeepsReplies(w, a);
    }
  }

  lemma ReceiveKeepsRemembering(w: World)
    requires WellFormed(w) && RepliesFit(w) && Remembering(w) && Enabled(w, Receive)
    ensures Remembering(Received(w))
  {
  }

  lemma ClientKeepsRemembering(w: World, a: Action)
    requires WellFormed(w) && RepliesFit(w) && Remembering(w) && Enabled(w, a) && ByClient(a)
    ensures Remembering(Next(w, a))
  {
  }

  lemma AgentKeepsRemembering(w: World, a: Action)
    requires WellFormed(w) && RepliesFit(w) && Remembering(w) && Enabled(w, a)
    requires !ByClient(a) && !a.Receive? && !a.Fail?
    ensures Remembering(Next(w, a))
  {
  }

  lemma StepKeepsRemembering(w: World, a: Action)
    requires WellFormed(w) && RepliesFit(w) && Remembering(w) && Enabled(w, a)
    ensures Remembering(Next(w, a))
  {
    if a.Receive? {
      ReceiveKeepsRemembering(w);
    } else if ByClient(a) {
      ClientKeepsRemembering(w, a);
    } else if !a.Fail? {
      AgentKeepsRemembering(w, a);
    }
  }

  ghost predicate Base(w: World) {
    WellFormed(w) && RepliesFit(w) && Remembering(w)
  }

  lemma StepKeepsBase(w: World, a: Action)
    requires Base(w) && Enabled(w, a)
    ensures Base(Next(w, a))
  {
    StepKeepsShape(w, a);
    StepKeepsReplies(w, a);
    StepKeepsRemembering(w, a);
  }

  // ---------------------------------------------------------------- what the view shows

  predicate Creates(tasks: seq<Kind>) {
    tasks != [] && tasks[0].Create?
  }

  /** A newer document has been remembered than the one the mutation's answer can bring; a creation brings
      the first one. */
  predicate Overtaken(w: World) {
    w.slot.revision.Some? &&
    match w.phase
    case Getting(_, reply) => reply.Some? && reply.value.Doc? && reply.value.version.revision < w.slot.revision.value
    case Leasing(_, base) => base < w.slot.revision.value
    case Applying(_, base, _) => base < w.slot.revision.value
    case _ => Creates(w.tasks) && 1 < w.slot.revision.value
  }

  /** The view shows the document remembered, and nothing where none is. */
  predicate ShowsDocument(slot: Slot) {
    slot.view == if slot.document.Some? then Some(slot.document.value.content) else None
  }

  /** No optimistic change outlives its mutations: the newest document is shown, or will be when the
      queue drains, or a mutation is still to end. */
  ghost predicate Settling(w: World) {
    || (w.slot.deferred && w.slot.document.Some?)
    || ShowsDocument(w.slot)
    || |w.tasks| >= 2
    || (|w.tasks| == 1 && !Overtaken(w))
  }

  /** Only the first mutation of all can be the creation, and its answer is the first revision. */
  ghost predicate CreatesFirst(w: World) {
    && (forall i | 0 < i < |w.tasks| :: !w.tasks[i].Create?)
    && (Creates(w.tasks) ==> w.createQueued)
    && (w.phase.Creating? && w.phase.reply.Some? && w.phase.reply.value.Doc? ==>
          w.phase.reply.value.version.revision == 1)
  }

  /** The listing is not older than what is remembered, or says the same. */
  predicate Confirms(slot: Slot, entry: Option<Version>) {
    entry.Some? && slot.document.Some?
    && (Remembers(slot, entry.value) || entry.value.content == slot.document.value.content)
  }

  /** A listing that puts something else than the newest document into view, with nothing queued that
      would show that document anyway. */
  predicate ListsOver(w: World, a: Action) {
    && a.Listing? && w.slot.document.Some? && !Confirms(w.slot, a.entry)
    && !w.slot.deferred && |w.tasks| < 2 && (|w.tasks| == 1 ==> Overtaken(w))
  }

  /** The creation fails as the only mutation, and takes out of view a document that a listing brought
      meanwhile; an event would have deferred it to the drain. */
  predicate CreationTakesAway(w: World, a: Action) {
    && Creates(w.tasks) && |w.tasks| == 1 && w.slot.document.Some? && !w.slot.deferred
    && (a.Fail? || (a.Receive? && Enabled(w, a) && Throws(w.phase)))
  }

  /** An operation or a deletion fails as the only mutation, and there is no document to roll back to. */
  predicate NothingToRollBackTo(w: World, a: Action) {
    && |w.tasks| == 1 && !Creates(w.tasks) && w.slot.document.None? && w.slot.view.Some?
    && (a.Fail? || (a.Receive? && Enabled(w, a) && Throws(w.phase)))
  }

  predicate Unsettles(w: World, a: Action) {
    ListsOver(w, a) || CreationTakesAway(w, a) || NothingToRollBackTo(w, a)
  }

  /** The reply makes the mutation throw. */
  predicate Throws(phase: Phase)
    requires !phase.Waiting? && !phase.Leasing? && phase.reply.Some?
  {
    match phase.reply.value
    case Doc(_) => phase.Deleting?
    case Conflict => !(phase.Applying? && phase.attempt == 1)
    case Ack => !phase.Deleting?
    case Failure => true
  }

  lemma StepKeepsCreation(w: World, a: Action)
    requires Base(w) && CreatesFirst(w) && Enabled(w, a)
    ensures CreatesFirst(Next(w, a))
  {
  }

  lemma ReceiveKeepsSettlingIff(w: World)
    requires Base(w) && CreatesFirst(w) && Settling(w) && Enabled(w, Receive)
    ensures Settling(Received(w)) <==> !Unsettles(w, Receive)
  {
  }

  lemma FailKeepsSettlingIff(w: World)
    requires Base(w) && CreatesFirst(w) && Settling(w) && w.tasks != []
    ensures Settling(Failed(w)) <==> !Unsettles(w, Fail)
  {
  }

  lemma ListingKeepsSettlingIff(w: World, entry: Option<Version>)
    requires Base(w) && Settling(w) && Enabled(w, Listing(entry))
    ensures Settling(Next(w, Listing(entry))) <==> !Unsettles(w, Listing(entry))
  {
  }

  lemma OtherStepKeepsSettling(w: World, a: Action)
    requires Base(w) && CreatesFirst(w) && Settling(w) && Enabled(w, a)
    requires !a.Receive? && !a.Fail? && !a.Listing?
    ensures Settling(Next(w, a))
  {
  }

  /** The newest document stays in view, or on its way there, exactly where no step unsettles it. */
  lemma StepKeepsSettlingIff(w: World, a: Action)
    requires Base(w) && CreatesFirst(w) && Settling(w) && Enabled(w, a)
    ensures Settling(Next(w, a)) <==> !Unsettles(w, a)
  {
    if a.Receive? {
      ReceiveKeepsSettlingIff(w);
    } else if a.Fail? {
      FailKeepsSettlingIff(w);
    } else if a.Listing? {
      ListingKeepsSettlingIff(w, a.entry);
    } else {
      OtherStepKeepsSettling(w, a);
    }
  }

  // ---------------------------------------------------------------- what the agent executes

  /** An operation the agent has executed is never asked for again. */
  ghost predicate LogFits(w: World) {
    && (forall i | 0 <= i < |w.log| :: w.log[i].n <= Current(w))
    && (forall i | 0 <= i < |w.log| && w.log[i].n == Current(w) :: Answered(w.phase))
    && (forall r | r in w.lingering :: r.n < Current(w) && 1 <= r.base <= |w.agent.versions|)
    && (forall r, i | r in w.lingering && 0 <= i < |w.log| :: r.n != w.log[i].n)
    && (forall r, q | r in w.lingering && q in w.lingering && r.n == q.n :: r == q)
  }

  predicate Answered(phase: Phase) {
    phase.Applying? && phase.reply.Some? && !phase.reply.value.Conflict?
  }

  /** Operations are executed at no older revision than requests of earlier mutations ask for; so a change
      leaves every such request without effect. */
  ghost predicate ChangesBlock(w: World) {
    && (forall i | 0 <= i < |w.log| ::
          if w.log[i].changed then w.log[i].base < |w.agent.versions| else w.log[i].base <= |w.agent.versions|)
    && (forall r, i | r in w.lingering && 0 <= i < |w.log| && r.n < w.log[i].n :: r.base <= w.log[i].base)
  }

  /** No operation is executed twice; operations answered in time, and operations that change the
      document, are executed in the order in which they were queued. */
  ghost predicate Executions(log: seq<Entry>) {
    && (forall i, j | 0 <= i < j < |log| :: log[i].n != log[j].n)
    && (forall i, j | 0 <= i < j < |log| && !log[i].late && !log[j].late :: log[i].n < log[j].n)
    && (forall i, j | 0 <= i < j < |log| && log[i].changed && log[j].changed :: log[i].n < log[j].n)
  }

  /** Steps that execute nothing and leave nothing behind. */
  lemma QuietStepKeepsLog(w: World, a: Action)
    requires Base(w) && LogFits(w) && Enabled(w, a)
    requires !a.Receive? && !a.Fail? && !a.AnswerApply? && !a.Late?
    ensures LogFits(Next(w, a))
  {
  }

  lemma FailKeepsLog(w: World)
    requires Base(w) && LogFits(w) && w.tasks != []
    ensures LogFits(Failed(w))
  {
  }

  lemma ReceiveKeepsLog(w: World)
    requires Base(w) && LogFits(w) && Enabled(w, Receive)
    ensures LogFits(Received(w))
  {
    FailKeepsLog(w);
  }

  lemma AnswerKeepsLog(w: World, a: Action)
    requires Base(w) && LogFits(w) && a.AnswerApply? && Enabled(w, a)
    ensures LogFits(Next(w, a))
  {
  }

  lemma LateExecutionKeepsLog(w: World, r: Request, outcome: Outcome)
    requires LogFits(w) && r.n < Current(w) && r !in w.lingering
    requires forall q | q in w.lingering :: q.n != r.n
    ensures LogFits(Executed(w, r.n, r.base, outcome, true))
  {
  }

  lemma LateKeepsLog(w: World, a: Action)
    requires Base(w) && LogFits(w) && a.Late? && Enabled(w, a)
    ensures LogFits(Next(w, a))
  {
    var rest := w.(lingering := w.lingering - {a.request});
    assert LogFits(rest);
    LateExecutionKeepsLog(rest, a.request, a.outcome);
  }

  lemma StepKeepsLog(w: World, a: Action)
    requires Base(w) && LogFits(w) && Enabled(w, a)
    ensures LogFits(Next(w, a))
  {
    match a
    case Receive => ReceiveKeepsLog(w);
    case Fail => FailKeepsLog(w);
    case AnswerApply(_, _) => AnswerKeepsLog(w, a);
    case Late(_, _) => LateKeepsLog(w, a);
    case _ => QuietStepKeepsLog(w, a);
  }

  lemma ExecutedKeepsBlocking(w: World, n: nat, base: nat, outcome: Outcome, late: bool)
    requires LogFits(w) && ChangesBlock(w)
    ensures ChangesBlock(Executed(w, n, base, outcome, late))
  {
  }

  lemma EndKeepsBlocking(w: World, a: Action)
    requires Base(w) && LogFits(w) && ChangesBlock(w) && Enabled(w, a) && (a.Receive? || a.Fail?)
    ensures ChangesBlock(Next(w, a))
  {
  }

  lemma StepKeepsBlocking(w: World, a: Action)
    requires Base(w) && LogFits(w) && ChangesBlock(w) && Enabled(w, a)
    ensures ChangesBlock(Next(w, a))
  {
    match a
    case AnswerApply(outcome, _) =>
      ExecutedKeepsBlocking(w, Current(w), w.phase.base, outcome, false);
    case Late(r, outcome) =>
      ExecutedKeepsBlocking(w.(lingering := w.lingering - {r}), r.n, r.base, outcome, true);
    case Receive => EndKeepsBlocking(w, a);
    case Fail => EndKeepsBlocking(w, a);
    case _ =>
  }

  /** What a step adds to the log. */
  lemma Extends(w: World, n: nat, base: nat, outcome: Outcome, late: bool)
    requires Executions(w.log)
    requires base == |w.agent.versions| ==> forall i | 0 <= i < |w.log| :: w.log[i].n != n
    requires base == |w.agent.versions| && !late ==> forall i | 0 <= i < |w.log| :: w.log[i].n < n
    requires base == |w.agent.versions| ==> forall i | 0 <= i < |w.log| && w.log[i].changed :: w.log[i].n < n
    ensures Executions(Executed(w, n, base, outcome, late).log)
  {
  }

  lemma StepKeepsExecutions(w: World, a: Action)
    requires Base(w) && LogFits(w) && ChangesBlock(w) && Executions(w.log) && Enabled(w, a)
    ensures Executions(Next(w, a).log)
  {
    match a
    case AnswerApply(outcome, _) =>
      Extends(w, Current(w), w.phase.base, outcome, false);
    case Late(r, outcome) =>
      Extends(w, r.n, r.base, outcome, true);
    case _ =>
  }

  /** The whole log follows the order in which the operations were queued. */
  ghost predicate InQueueOrder(log: seq<Entry>) {
    forall i, j | 0 <= i < j < |log| :: log[i].n < log[j].n
  }

  /** A request whose mutation has failed is executed late, after an operation queued later was executed
      at the same revision without changing anything. */
  ghost predicate Overtakes(w: World, a: Action) {
    && a.Late? && w.agent.alive && a.request.base == |w.agent.versions| && !a.outcome.Rejected?
    && exists i :: 0 <= i < |w.log| && w.log[i].n > a.request.n && !w.log[i].changed && w.log[i].base == a.request.base
  }

  lemma LateKeepsOrderIff(w: World, a: Action)
    requires Base(w) && LogFits(w) && ChangesBlock(w) && InQueueOrder(w.log) && a.Late? && Enabled(w, a)
    ensures InQueueOrder(Next(w, a).log) <==> !Overtakes(w, a)
  {
    var r, log := a.request, Next(w, a).log;
    if log != w.log {
      var n := |w.log|;
      if Overtakes(w, a) {
        var i :| 0 <= i < |w.log| && w.log[i].n > r.n;
        assert log[i].n > log[n].n;
      } else {
        forall i | 0 <= i < n ensures log[i].n < log[n].n {
          assert w.log[i].n != r.n;
        }
      }
    }
  }

  lemma StepKeepsOrderIff(w: World, a: Action)
    requires Base(w) && LogFits(w) && ChangesBlock(w) && InQueueOrder(w.log) && Enabled(w, a)
    ensures InQueueOrder(Next(w, a).log) <==> !Overtakes(w, a)
  {
    if a.Late? {
      LateKeepsOrderIff(w, a);
    }
  }

  /** Entries are only added to the log. */
  lemma LogGrows(w: World, a: Action)
    requires WellFormed(w) && Enabled(w, a)
    ensures w.log <= Next(w, a).log
  {
  }

  // ---------------------------------------------------------------- what is sent

  /** How often the head mutation has sent its operation. */
  function Attempts(phase: Phase): nat {
    match phase
    case Getting(attempt, _) => if attempt == 0 then 0 else attempt - 1
    case Leasing(attempt, _) => if attempt == 0 then 0 else attempt - 1
    case Applying(attempt, _, _) => attempt
    case _ => 0
  }

  ghost predicate Sending(w: World) {
    var k := Attempts(w.phase);
    && k <= |w.sent|
    && (forall i | 0 <= i < |w.sent| - k :: w.sent[i] < Current(w))
    && (forall i | |w.sent| - k <= i < |w.sent| :: w.sent[i] == Current(w))
    && AtMostTwice(w.sent)
  }

  /** In the order the mutations were queued, each at most twice. */
  ghost predicate AtMostTwice(sent: seq<nat>) {
    && (forall i, j | 0 <= i < j < |sent| :: sent[i] <= sent[j])
    && (forall i | 0 <= i < |sent| - 2 :: sent[i] < sent[i + 2])
  }

  /** Every step but sending goes on with the same mutation, or on to the next one. */
  lemma UnsentStep(w: World, a: Action)
    requires Base(w) && Enabled(w, a) && !a.Lease?
    ensures var after := Next(w, a);
            && after.sent == w.sent
            && ((Current(after) == Current(w) && Attempts(after.phase) == Attempts(w.phase))
                || (Current(after) > Current(w) && Attempts(after.phase) == 0))
  {
  }

  lemma LeaseKeepsSending(w: World)
    requires Base(w) && Sending(w) && w.phase.Leasing?
    ensures Sending(Next(w, Lease))
  {
    var after := Next(w, Lease);
    assert Attempts(after.phase) == Attempts(w.phase) + 1 <= 2 && Current(after) == Current(w);
  }

  lemma StepKeepsSending(w: World, a: Action)
    requires Base(w) && Sending(w) && Enabled(w, a)
    ensures Sending(Next(w, a))
  {
    if a.Lease? {
      LeaseKeepsSending(w);
    } else {
      UnsentStep(w, a);
    }
  }

  // ---------------------------------------------------------------- runs

  /** Before anything is queued: nothing is known, or a cached document without a revision, which the agent
      need never have had. */
  ghost predicate Init(w: World) {
    && Base(w) && !w.slot.queued && w.slot.revision.None? && ShowsDocument(w.slot)
    && w.tasks == [] && w.next == 0 && !w.createQueued
    && w.lingering == {} && w.log == [] && w.sent == []
  }

  /** The program's own start: a cached workspace is shown, whatever document the agent has. */
  lemma CachedStartIsInit(cached: Content, agent: Agent)
    requires agent.alive ==> agent.versions != []
    ensures Init(World(Slot(false, None, Some(Version(0, cached)), false, Some(cached)), [], Waiting, 0, false, agent,
                       {}, [], []))
  {
  }

  ghost predicate StepAt(states: seq<World>, actions: seq<Action>, i: nat)
    requires i < |actions| && |states| == |actions| + 1
  {
    WellFormed(states[i]) && Enabled(states[i], actions[i]) && states[i + 1] == Next(states[i], actions[i])
  }

  ghost predicate IsRun(states: seq<World>, actions: seq<Action>) {
    && |states| == |actions| + 1
    && Init(states[0])
    && forall i | 0 <= i < |actions| :: StepAt(states, actions, i)
  }

  ghost predicate QueueInv(w: World) {
    Base(w) && LogFits(w) && ChangesBlock(w) && Executions(w.log) && Sending(w)
  }

  lemma {:induction false} RunKeepsQueueInv(states: seq<World>, actions: seq<Action>, i: nat)
    requires IsRun(states, actions) && i < |states|
    ensures QueueInv(states[i])
  {
    if i > 0 {
      RunKeepsQueueInv(states, actions, i - 1);
      assert StepAt(states, actions, i - 1);
      StepKeepsBase(states[i - 1], actions[i - 1]);
      StepKeepsLog(states[i - 1], actions[i - 1]);
      StepKeepsBlocking(states[i - 1], actions[i - 1]);
      StepKeepsExecutions(states[i - 1], actions[i - 1]);
      StepKeepsSending(states[i - 1], actions[i - 1]);
    }
  }

  /** In every run, each operation is executed at most once, and those answered in time or changing
      the document in the order in which they were queued; each is sent at most twice. */
  lemma EveryRunAppliesOnceInOrder(states: seq<World>, actions: seq<Action>, i: nat)
    requires IsRun(states, actions) && i < |states|
    ensures Executions(states[i].log)
    ensures AtMostTwice(states[i].sent)
  {
    RunKeepsQueueInv(states, actions, i);
  }

  /** In every run, the agent's log is a repeat-free part of the order in which the operations were queued
      if and only if no late execution overtakes; in particular when nothing is executed late. */
  lemma {:induction false} LogIsInQueueOrderIff(states: seq<World>, actions: seq<Action>, i: nat)
    requires IsRun(states, actions) && i < |states|
    ensures InQueueOrder(states[i].log) <==> forall k | 0 <= k < i :: !Overtakes(states[k], actions[k])
    ensures (forall k | 0 <= k < i :: !actions[k].Late?) ==> InQueueOrder(states[i].log)
  {
    if i > 0 {
      LogIsInQueueOrderIff(states, actions, i - 1);
      RunKeepsQueueInv(states, actions, i - 1);
      assert StepAt(states, actions, i - 1);
      LogGrows(states[i - 1], actions[i - 1]);
      if InQueueOrder(states[i - 1].log) {
        StepKeepsOrderIff(states[i - 1], actions[i - 1]);
      } else {
        StaysOutOfOrder(states[i - 1].log, states[i].log);
      }
    }
  }

  lemma StaysOutOfOrder(log: seq<Entry>, longer: seq<Entry>)
    requires log <= longer && !InQueueOrder(log)
    ensures !InQueueOrder(longer)
  {
    var i, j :| 0 <= i < j < |log| && log[i].n >= log[j].n;
    assert longer[i] == log[i] && longer[j] == log[j];
  }

  lemma Longer(states: seq<World>, actions: seq<Action>, a: Action)
    requires IsRun(states, actions) && WellFormed(states[|actions|]) && Enabled(states[|actions|], a)
    ensures IsRun(states + [Next(states[|actions|], a)], actions + [a])
  {
    var longer, more := states + [Next(states[|actions|], a)], actions + [a];
    forall i | 0 <= i < |more| ensures StepAt(longer, more, i) {
      if i < |actions| {
        assert StepAt(states, actions, i);
      }
    }
  }

  /** Two mutations are queued; the first fails while its request is on the way, the second is sent. */
  function SecondSent(before: Content): World {
    World(Slot(true, Some(1), Some(Version(1, before)), false, Some(before)), [Operate], Applying(1, 1, None), 2, false,
          Agent(true, [before]), {Request(0, 1)}, [], [0, 1])
  }

  function FirstSent(before: Content): World {
    World(Slot(true, Some(1), Some(Version(1, before)), false, None), [Operate, Operate], Applying(1, 1, None), 2,
          false, Agent(true, [before]), {}, [], [0])
  }

  lemma RunToFirstSent(before: Content) returns (states: seq<World>, actions: seq<Action>)
    ensures IsRun(states, actions) && states[|actions|] == FirstSent(before)
    ensures actions == [Event(Version(1, before)), Queue(Operate, None), Queue(Operate, None), Begin, Lease]
  {
    var s0 := World(Slot(false, None, None, false, None), [], Waiting, 0, false, Agent(true, [before]), {}, [], []);
    actions := [Event(Version(1, before)), Queue(Operate, None), Queue(Operate, None), Begin, Lease];
    var s1 := Next(s0, actions[0]);
    var s2 := Next(s1, actions[1]);
    var s3 := Next(s2, actions[2]);
    var s4 := Next(s3, actions[3]);
    states := [s0, s1, s2, s3, s4, Next(s4, actions[4])];
  }

  lemma RunToSecondSent(before: Content) returns (states: seq<World>, actions: seq<Action>)
    ensures IsRun(states, actions) && states[|actions|] == SecondSent(before)
    ensures actions == [Event(Version(1, before)), Queue(Operate, None), Queue(Operate, None), Begin, Lease]
                       + [Fail] + [Begin] + [Lease]
  {
    states, actions := RunToFirstSent(before);
    var failed := Next(FirstSent(before), Fail);
    assert [Operate, Operate][1..] == [Operate];
    assert failed == SecondSent(before).(phase := Waiting, sent := [0]);
    Longer(states, actions, Fail);
    states, actions := states + [failed], actions + [Fail];
    var begun := Next(failed, Begin);
    Longer(states, actions, Begin);
    states, actions := states + [begun], actions + [Begin];
    Longer(states, actions, Lease);
    states, actions := states + [Next(begun, Lease)], actions + [Lease];
  }

  /** The second changes nothing; then the request of the first arrives and does. */
  lemma LateExecutionOvertakes(before: Content, after: Content) returns (states: seq<World>, actions: seq<Action>)
    ensures IsRun(states, actions) && |actions| == 10
    ensures Overtakes(states[9], actions[9])
    ensures states[10].log == [Entry(1, 1, false, false), Entry(0, 1, true, true)]
    ensures states[10].agent.versions == [before, after]
  {
    states, actions := RunToSecondSent(before);
    var answered := Next(SecondSent(before), AnswerApply(Unchanged, false));
    assert answered.log == [Entry(1, 1, false, false)];
    Longer(states, actions, AnswerApply(Unchanged, false));
    states, actions := states + [answered], actions + [AnswerApply(Unchanged, false)];
    var late := Late(Request(0, 1), Changed(after));
    assert answered.log[0].n == 1;
    Longer(states, actions, late);
    states, actions := states + [Next(answered, late)], actions + [late];
  }

  lemma {:induction false} RunKeepsCreation(states: seq<World>, actions: seq<Action>, i: nat)
    requires IsRun(states, actions) && i < |states|
    ensures Base(states[i]) && CreatesFirst(states[i])
  {
    if i > 0 {
      RunKeepsCreation(states, actions, i - 1);
      assert StepAt(states, actions, i - 1);
      StepKeepsBase(states[i - 1], actions[i - 1]);
      StepKeepsCreation(states[i - 1], actions[i - 1]);
    }
  }

  /** In every run, from its start or any later state in which the newest document is in view, or waiting
      for the drain, or owed by a mutation still to end: that is so in every state if and only if no step
      unsettles it. */
  lemma {:induction false} SettlesThroughoutIff(states: seq<World>, actions: seq<Action>, i: nat, j: nat)
    requires IsRun(states, actions) && i <= j < |states| && (i == 0 || Settling(states[i]))
    ensures (forall k | i <= k <= j :: Settling(states[k]))
            <==> (forall k | i <= k < j :: !Unsettles(states[k], actions[k]))
    decreases j
  {
    if i < j {
      SettlesThroughoutIff(states, actions, i, j - 1);
      if forall k | i <= k < j :: Settling(states[k]) {
        RunKeepsCreation(states, actions, j - 1);
        assert StepAt(states, actions, j - 1);
        StepKeepsSettlingIff(states[j - 1], actions[j - 1]);
      }
    }
  }

  /** Once the queue has drained, what settles is in view. */
  lemma DrainedShowsIffSettling(w: World)
    requires Base(w) && !w.slot.queued
    ensures ShowsDocument(w.slot) <==> Settling(w)
  {
  }

  /** In every run, from its start or any later settled state: a projection is deferred only while the queue
      exists; and as long as no step unsettles the view, once the queue has drained it shows the newest
      document remembered: the agent's own, if its newest version has arrived. */
  lemma NoOptimisticStateLeaks(states: seq<World>, actions: seq<Action>, i: nat, j: nat)
    requires IsRun(states, actions) && i <= j < |states| && (i == 0 || Settling(states[i]))
    ensures states[j].slot.deferred ==> states[j].slot.queued
    ensures (forall k | i <= k < j :: !Unsettles(states[k], actions[k])) && !states[j].slot.queued ==>
              && ShowsDocument(states[j].slot)
              && (states[j].agent.versions != [] && states[j].slot.revision == Some(|states[j].agent.versions|) ==>
                    states[j].slot.view == Some(Newest(states[j].agent).content))
  {
    RunKeepsCreation(states, actions, j);
    SettlesThroughoutIff(states, actions, i, j);
    if forall k | i <= k < j :: !Unsettles(states[k], actions[k]) {
      assert Settling(states[j]);
      if !states[j].slot.queued {
        DrainedShowsIffSettling(states[j]);
      }
    }
  }

  /** Without a document, what the user made of a workspace stays in view after the operation has failed. */
  lemma FailedOperationStays(shown: Content) returns (states: seq<World>, actions: seq<Action>)
    ensures IsRun(states, actions) && actions == [Queue(Operate, Some(shown)), Begin, Fail, Drain]
    ensures NothingToRollBackTo(states[2], actions[2])
    ensures !states[4].slot.queued && states[4].slot.document.None? && states[4].slot.view == Some(shown)
  {
    var s0 := World(Slot(false, None, None, false, None), [], Waiting, 0, false, Agent(false, []), {}, [], []);
    actions := [Queue(Operate, Some(shown)), Begin, Fail, Drain];
    var s1 := Next(s0, actions[0]);
    var s2 := Next(s1, actions[1]);
    var s3 := Next(s2, actions[2]);
    states := [s0, s1, s2, s3, Next(s3, actions[3])];
  }

  /** With a cached document, a failed operation is rolled back to it. */
  lemma OfflineOperationRollsBack(cached: Content, shown: Content, agent: Agent)
    returns (states: seq<World>, actions: seq<Action>)
    requires agent.alive ==> agent.versions != []
    ensures IsRun(states, actions) && actions == [Queue(Operate, Some(shown)), Begin, Fail, Drain]
    ensures states[1].slot.view == Some(shown) && !states[4].slot.queued && states[4].slot.view == Some(cached)
  {
    var cache := Slot(false, None, Some(Version(0, cached)), false, Some(cached));
    var s0 := World(cache, [], Waiting, 0, false, agent, {}, [], []);
    actions := [Queue(Operate, Some(shown)), Begin, Fail, Drain];
    var s1 := Next(s0, actions[0]);
    var s2 := Next(s1, actions[1]);
    var s3 := Next(s2, actions[2]);
    states := [s0, s1, s2, s3, Next(s3, actions[3])];
  }

  /** The agent creates a workspace, and a listing brings its document before the answer. */
  lemma CreationIsListed(shown: Content, c: Content) returns (states: seq<World>, actions: seq<Action>)
    ensures IsRun(states, actions)
    ensures actions == [Queue(Create, Some(shown)), Begin, AgentCreates(c), Listing(Some(Version(1, c)))]
    ensures forall k | 0 <= k < 4 :: !Unsettles(states[k], actions[k])
    ensures states[4] == World(Slot(true, Some(1), Some(Version(1, c)), false, Some(c)), [Create],
                               Creating(None), 1, true, Agent(true, [c]), {}, [], [])
  {
    var s0 := World(Slot(false, None, None, false, None), [], Waiting, 0, false, Agent(false, []), {}, [], []);
    actions := [Queue(Create, Some(shown)), Begin, AgentCreates(c), Listing(Some(Version(1, c)))];
    var s1 := Next(s0, actions[0]);
    var s2 := Next(s1, actions[1]);
    var s3 := Next(s2, actions[2]);
    states := [s0, s1, s2, s3, Next(s3, actions[3])];
  }

  /** The creation fails at the client although the agent has carried it out: the queue drains, and the
      document remembered is out of view. */
  lemma FailedCreationTakesAway(shown: Content, c: Content) returns (states: seq<World>, actions: seq<Action>)
    ensures IsRun(states, actions)
    ensures actions == [Queue(Create, Some(shown)), Begin, AgentCreates(c), Listing(Some(Version(1, c)))]
                       + [Fail] + [Drain]
    ensures (forall k | 0 <= k < 4 :: !Unsettles(states[k], actions[k])) && CreationTakesAway(states[4], actions[4])
    ensures !states[6].slot.queued && states[6].slot.document == Some(Version(1, c)) && states[6].slot.view.None?
  {
    states, actions := CreationIsListed(shown, c);
    var failed := Next(states[4], Fail);
    Longer(states, actions, Fail);
    states, actions := states + [failed], actions + [Fail];
    Longer(states, actions, Drain);
    states, actions := states + [Next(failed, Drain)], actions + [Drain];
  }

  // ---------------------------------------------------------------- revisions

  /** The steps after which nothing is remembered: the removal was announced, or asked for and done. */
  predicate Forgets(w: World, a: Action) {
    a.RemovedEvent? || (a.Receive? && w.phase == Deleting(Some(Ack)))
  }

  lemma StepRaisesRevision(w: World, a: Action)
    requires Base(w) && Enabled(w, a) && !Forgets(w, a) && w.slot.revision.Some?
    ensures Next(w, a).slot.revision.Some?
    ensures w.slot.revision.value <= Next(w, a).slot.revision.value
  {
  }

  /** Between removals, the remembered revision never decreases. */
  lemma {:induction false} RevisionsNeverDecrease(states: seq<World>, actions: seq<Action>, i: nat, j: nat)
    requires IsRun(states, actions) && i <= j < |states|
    requires forall k | i <= k < j :: !Forgets(states[k], actions[k])
    requires states[i].slot.revision.Some?
    ensures states[j].slot.revision.Some?
    ensures states[i].slot.revision.value <= states[j].slot.revision.value
    decreases j - i
  {
    if i < j {
      RevisionsNeverDecrease(states, actions, i, j - 1);
      RunKeepsQueueInv(states, actions, j - 1);
      assert StepAt(states, actions, j - 1);
      StepRaisesRevision(states[j - 1], actions[j - 1]);
    }
  }

  /** What a step hands to the view as an agent document, listings aside. */
  function Upserted(w: World, a: Action): Option<Version> {
    match a
    case Event(version) => if Remembers(w.slot, version) && !w.slot.queued then Some(version) else None
    case Drain => if w.slot.deferred then w.slot.document else None
    case Fail => if Creates(w.tasks) then None else w.slot.document
    case Receive => if Enabled(w, a) && Throws(w.phase) && !Creates(w.tasks) then w.slot.document else None
    case _ => None
  }

  /** The document handed to the view is the newest one remembered, and what the view then shows. */
  lemma UpsertsTheNewest(w: World, a: Action)
    requires Base(w) && Enabled(w, a) && Upserted(w, a).Some?
    ensures Next(w, a).slot.document == Upserted(w, a)
    ensures Next(w, a).slot.view == Some(Upserted(w, a).value.content)
    ensures !Forgets(w, a)
  {
  }

  lemma UpsertedRevision(w: World, a: Action)
    requires Base(w) && Enabled(w, a) && Upserted(w, a).Some?
    ensures var after := Next(w, a).slot.revision;
            Upserted(w, a).value.revision == if after.Some? then after.value else 0
  {
    UpsertsTheNewest(w, a);
    StepKeepsBase(w, a);
  }

  /** Between removals, a document handed to the view is never older than one handed to it before. */
  lemma UpsertsNeverGoBack(states: seq<World>, actions: seq<Action>, i: nat, j: nat)
    requires IsRun(states, actions) && i < j < |actions|
    requires forall k | i < k < j :: !Forgets(states[k], actions[k])
    requires Upserted(states[i], actions[i]).Some? && Upserted(states[j], actions[j]).Some?
    ensures Upserted(states[i], actions[i]).value.revision <= Upserted(states[j], actions[j]).value.revision
  {
    UpsertAt(states, actions, i);
    if states[i + 1].slot.revision.Some? {
      UpsertAt(states, actions, j);
      RevisionsNeverDecrease(states, actions, i + 1, j + 1);
    }
  }

  lemma UpsertAt(states: seq<World>, actions: seq<Action>, i: nat)
    requires IsRun(states, actions) && i < |actions| && Upserted(states[i], actions[i]).Some?
    ensures !Forgets(states[i], actions[i])
    ensures var after := states[i + 1].slot.revision;
            Upserted(states[i], actions[i]).value.revision == if after.Some? then after.value else 0
  {
    RunKeepsQueueInv(states, actions, i);
    assert StepAt(states, actions, i);
    UpsertsTheNewest(states[i], actions[i]);
    UpsertedRevision(states[i], actions[i]);
  }

  // ---------------------------------------------------------------- listings ignore what was remembered

  /** With or without a queue, a listing leaves the newest document in view exactly when it confirms it. */
  lemma ListingKeepsViewIff(w: World, entry: Option<Version>)
    requires Base(w) && w.slot.document.Some? && Enabled(w, Listing(entry))
    ensures ShowsDocument(Next(w, Listing(entry)).slot) <==> Confirms(w.slot, entry)
  {
  }

  /** A listing answered before a change, arriving after the change's event, puts the old document back
      into view. */
  lemma StaleListingRegresses(older: Content, newer: Content) returns (states: seq<World>, actions: seq<Action>)
    requires older != newer
    ensures IsRun(states, actions) && |actions| == 3
    ensures Unsettles(states[2], actions[2]) && !states[3].slot.queued && !ShowsDocument(states[3].slot)
  {
    var agent := Agent(true, [older]);
    var s0 := World(Slot(false, None, None, false, None), [], Waiting, 0, false, agent, {}, [], []);
    var a0, a1, a2 := AgentChanges(newer), Event(Version(2, newer)), Listing(Some(Version(1, older)));
    var s1 := Next(s0, a0);
    var s2 := Next(s1, a1);
    var s3 := Next(s2, a2);
    states, actions := [s0, s1, s2, s3], [a0, a1, a2];
  }
}
