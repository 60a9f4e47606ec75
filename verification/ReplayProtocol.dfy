/** The endpoint against its agent (src/lib/pty.ts, src-tauri/src/agent/session_manager.rs). */
module ReplayProtocol {
  import opened Common
  import opened RemoteSequence
  import opened OutputStream

  // Attach, replay, live output, lost output, gap recovery and reconnects over ordered connections.
  // `journal` is everything the session prints during the run; the agent has written its first `head`
  // bytes so far.

  // ---------------------------------------------------------------- the agent's replay

  datatype ReplayPlan = ReplayPlan(reset: bool, baseSeq: nat, includeCheckpoint: bool, truncated: bool)

  function PlanReplay(afterSeq: Option<nat>, journalStart: nat, headSeq: nat, checkpointSeq: Option<nat>): ReplayPlan {
    if afterSeq.Some? && journalStart <= afterSeq.value <= headSeq then
      ReplayPlan(false, afterSeq.value, false, false)
    else if checkpointSeq.Some? && checkpointSeq.value >= journalStart then
      ReplayPlan(true, checkpointSeq.value, true, false)
    else if journalStart > 0 then
      ReplayPlan(true, journalStart, false, true)
    else
      ReplayPlan(true, 0, false, false)
  }

  datatype Snapshot = Snapshot(throughSeq: nat, ansi: seq<Byte>)

  datatype Agent = Agent(head: nat, journalStart: nat, checkpoint: Option<Snapshot>, live: bool)

  function PlanFor(a: Agent, afterSeq: Option<nat>): ReplayPlan {
    PlanReplay(afterSeq, a.journalStart, a.head,
               if a.checkpoint.Some? then Some(a.checkpoint.value.throughSeq) else None)
  }

  ghost predicate AgentValid(journal: seq<Byte>, a: Agent) {
    && a.journalStart <= a.head <= |journal|
    && (a.checkpoint.Some? ==> a.checkpoint.value.throughSeq <= a.head)
  }

  function Concat(parts: seq<seq<Byte>>): seq<Byte> {
    if parts == [] then [] else parts[0] + Concat(parts[1..])
  }

  function SnapshotEvents(parts: seq<seq<Byte>>): seq<Event> {
    if parts == [] then [] else [CheckpointChunk(parts[0])] + SnapshotEvents(parts[1..])
  }

  /** Journal chunks of the given sizes starting at `from`. */
  function OutputEvents(journal: seq<Byte>, from: nat, sizes: seq<nat>): (events: seq<Event>)
    requires from + Sum(sizes) <= |journal|
    decreases |sizes|
  {
    if sizes == [] then []
    else [Output(from, journal[from..from + sizes[0]])]
         + OutputEvents(journal, from + sizes[0], sizes[1..])
  }

  function AnswerEvents(journal: seq<Byte>, plan: ReplayPlan, parts: seq<seq<Byte>>, sizes: seq<nat>, head: nat)
    : seq<Event>
    requires plan.baseSeq + Sum(sizes) <= |journal|
  {
    [ReplayBegin(plan.reset, plan.baseSeq)]
    + (SnapshotEvents(parts) + OutputEvents(journal, plan.baseSeq, sizes) + [ReplayEnd(head)])
  }

  function Sum(sizes: seq<nat>): nat {
    if sizes == [] then 0 else sizes[0] + Sum(sizes[1..])
  }

  // ---------------------------------------------------------------- the system

  /** An answer on the wire: whether it resets xterm, the sequence it begins at, the checkpoint text it
      carries, and whether history is missing before it. */
  datatype Replay = Replay(reset: bool, base: nat, text: seq<Byte>, truncated: bool)

  /** `recoverFromGap`: not running, started, unsubscribed and waiting for the parser, attach sent. */
  datatype Recovery = NotRecovering | Started | Waiting | Attached

  /** `connecting` until the connection's own `connect` has sent its attach; `subscribed` while the
      endpoint holds a subscription, `orphans` the live ones whose handle was overwritten.  `requests` are
      the attach requests the agent has not answered, `replays` the answers that have not ended.
      `screen` is the text of the checkpoint to which xterm was last reset, `truncated` whether that reset
      lacked history, and `cut` whether the connection was then lost before the whole text had arrived. */
  datatype World = World(
    client: Client,
    wire: seq<Event>,
    agent: Agent,
    connected: bool,
    connecting: bool,
    subscribed: bool,
    orphans: nat,
    requests: seq<Option<nat>>,
    replays: seq<Replay>,
    recovery: Recovery,
    screen: seq<Byte>,
    truncated: bool,
    cut: bool)

  datatype Action =
    | Produce(size: nat, lost: bool)                // the session prints; the chunk may be dropped
    | TrimJournal(start: nat)
    | SaveCheckpoint(snapshot: Snapshot)
    | Answer(parts: seq<seq<Byte>>, sizes: seq<nat>) // the agent replays, in chunks of its choice
    | Deliver                                       // the oldest event on the wire arrives
    | ParseOne                                      // xterm parses its oldest array
    | RequestAttach(resuming: bool)                 // connect: subscribe and send attach_session
    | Unsubscribe                                   // recoverFromGap stops the old live stream
    | Reattach                                      // recoverFromGap: parser idle, attach again
    | GiveUp                                        // recoverFromGap: parser idle, but no host
    | RecoveryDone                                  // its attach request is answered
    | ConnectionLost
    | Reconnected

  /** The next event on the wire is a checkpoint array. */
  predicate MidCheckpoint(w: World) {
    w.wire != [] && w.wire[0].CheckpointChunk?
  }

  function Listeners(w: World): nat {
    w.orphans + (if w.subscribed then 1 else 0)
  }

  /** Every listener hands the event to the endpoint. */
  function Heard(c: Client, e: Event, times: nat): (d: Client)
    requires c.term.parsed <= |c.term.log|
    ensures d.term.parsed <= |d.term.log|
    ensures times == 1 ==> d == Receive(c, e)
    decreases times
  {
    if times == 0 then c else Heard(Step(c, Arrives(e)), e, times - 1)
  }

  ghost predicate Enabled(journal: seq<Byte>, w: World, a: Action) {
    match a
    case Produce(size, _) => size > 0 && w.agent.head + size <= |journal|
    case TrimJournal(start) => w.agent.journalStart <= start <= w.agent.head
    case SaveCheckpoint(s) =>
      && s.throughSeq <= w.agent.head
      && (w.agent.checkpoint.Some? ==> w.agent.checkpoint.value.throughSeq <= s.throughSeq)
    case Answer(parts, sizes) =>
      && w.requests != []
      && var plan := PlanFor(w.agent, w.requests[0]);
         && (if plan.includeCheckpoint then
               Concat(parts) == w.agent.checkpoint.value.ansi && (forall i | 0 <= i < |parts| :: parts[i] != [])
             else parts == [])
         && plan.baseSeq + Sum(sizes) == w.agent.head
    case Deliver => w.wire != []
    case ParseOne => true
    case RequestAttach(resuming) =>
      && w.connected && w.connecting
      && if resuming then ParserIdle(w.client.pty) else w.client == FRESH_CLIENT
    case Unsubscribe => w.recovery == Started
    case Reattach => w.recovery == Waiting && ParserIdle(w.client.pty) && w.connected
    case GiveUp => w.recovery == Waiting && ParserIdle(w.client.pty) && !w.connected
    case RecoveryDone => w.recovery == Attached && w.requests == [] && w.replays == []
    case ConnectionLost => w.connected
    case Reconnected => !w.connected
  }

  /** `attach`: subscribe, whatever subscription there is, and send the request. */
  function AttachSent(w: World, after: Option<nat>): World {
    w.(orphans := Listeners(w), subscribed := true, requests := w.requests + [after])
  }

  function Delivered(w: World): World
    requires w.wire != [] && w.client.term.parsed <= |w.client.term.log|
  {
    var e := w.wire[0];
    var v := w.(wire := w.wire[1..],
                replays := if e.ReplayEnd? && w.replays != [] then w.replays[1..] else w.replays);
    if Listeners(w) == 0 then v
    else
      var heard := v.(client := Heard(w.client, e, Listeners(w)),
                      recovery := if Handle(w.client.pty, e).1 == GapDetected && w.recovery == NotRecovering
                                  then Started else w.recovery);
      if e.ReplayBegin? && e.reset && w.replays != [] then
        heard.(screen := w.replays[0].text, truncated := w.replays[0].truncated, cut := false)
      else heard
  }

  ghost predicate CanStep(journal: seq<Byte>, w: World, a: Action) {
    AgentValid(journal, w.agent) && w.client.term.parsed <= |w.client.term.log| && Enabled(journal, w, a)
  }

  ghost function Next(journal: seq<Byte>, w: World, a: Action): World
    requires Enabled(journal, w, a) && AgentValid(journal, w.agent)
    requires w.client.term.parsed <= |w.client.term.log|
  {
    match a
    case Produce(size, lost) =>
      var chunk := Output(w.agent.head, journal[w.agent.head..w.agent.head + size]);
      w.(agent := w.agent.(head := w.agent.head + size),
         wire := if w.agent.live && !lost then w.wire + [chunk] else w.wire)
    case TrimJournal(start) => w.(agent := w.agent.(journalStart := start))
    case SaveCheckpoint(s) => w.(agent := w.agent.(checkpoint := Some(s)))
    case Answer(parts, sizes) =>
      var plan := PlanFor(w.agent, w.requests[0]);
      w.(agent := w.agent.(live := true),
         wire := w.wire + AnswerEvents(journal, plan, parts, sizes, w.agent.head),
         requests := w.requests[1..],
         replays := w.replays + [Replay(plan.reset, plan.baseSeq, Concat(parts), plan.truncated)])
    case Deliver => Delivered(w)
    case ParseOne => w.(client := Parse(w.client))
    case RequestAttach(resuming) =>
      AttachSent(w, if resuming then Some(w.client.pty.parsedSeq) else None).(connecting := false)
    case Unsubscribe => w.(subscribed := false, recovery := Waiting)
    case Reattach => AttachSent(w, Some(w.client.pty.parsedSeq)).(recovery := Attached)
    case GiveUp => w.(recovery := NotRecovering)
    case RecoveryDone => w.(recovery := NotRecovering)
    case ConnectionLost =>
      // A recovery that waits for the parser goes on waiting; the requests of this connection fail, and
      // with them what waits for them.  A connect that waits for the parser is taken as failed too.
      w.(connected := false, connecting := false, subscribed := false, orphans := 0,
         wire := [], agent := w.agent.(live := false), requests := [], replays := [],
         recovery := if w.recovery == Waiting then Waiting else NotRecovering,
         cut := w.cut || MidCheckpoint(w))
    case Reconnected => w.(connected := true, connecting := true)
  }

  /** An attach is sent only while nothing is subscribed and no other attach is outstanding. */
  predicate AttachesAlone(w: World, a: Action) {
    a.RequestAttach? || a.Reattach? ==> Listeners(w) == 0 && w.requests == [] && w.replays == []
  }

  // ---------------------------------------------------------------- what may be on the wire

  /** Only outputs beyond byte `n`: none of them will be accepted by a client expecting `n`. */
  ghost predicate Ahead(journal: seq<Byte>, wire: seq<Event>, n: nat, head: nat) {
    forall i | 0 <= i < |wire| ::
      wire[i].Output? && n < wire[i].startSeq && SliceOf(journal, wire[i].startSeq, wire[i].bytes)
      && wire[i].startSeq + |wire[i].bytes| <= head
  }

  /** Live output in journal order from `n` on, with holes where chunks were lost. */
  ghost predicate InOrder(journal: seq<Byte>, wire: seq<Event>, n: nat, head: nat) {
    if wire == [] then n <= head else
    && wire[0].Output? && n <= wire[0].startSeq && wire[0].bytes != []
    && SliceOf(journal, wire[0].startSeq, wire[0].bytes)
    && InOrder(journal, wire[1..], wire[0].startSeq + |wire[0].bytes|, head)
  }

  /** The outputs of a replay for a client expecting `n`, its end, and then live output. */
  ghost predicate Replaying(journal: seq<Byte>, wire: seq<Event>, n: nat, head: nat) {
    && wire != []
    && match wire[0]
       case Output(start, bytes) =>
         start == n && SliceOf(journal, start, bytes) && Replaying(journal, wire[1..], n + |bytes|, head)
       case ReplayEnd(next) => next == n && InOrder(journal, wire[1..], n, head)
       case _ => false
  }

  /** First the rest of a checkpoint `text` of which `got` has arrived. */
  ghost predicate Restoring(journal: seq<Byte>, wire: seq<Event>, n: nat, head: nat, got: seq<Byte>, text: seq<Byte>) {
    if wire != [] && wire[0].CheckpointChunk? then
      wire[0].bytes != [] && Restoring(journal, wire[1..], n, head, got + wire[0].bytes, text)
    else
      got == text && Replaying(journal, wire, n, head)
  }

  /** Stale outputs beyond `n` and then the replay `r`, fit for a client expecting `n`. */
  ghost predicate Awaiting(journal: seq<Byte>, wire: seq<Event>, n: nat, head: nat, r: Replay) {
    && wire != []
    && match wire[0]
       case ReplayBegin(reset, base) =>
         && reset == r.reset && base == r.base <= |journal|
         && if reset then Restoring(journal, wire[1..], base, head, [], r.text)
            else base == n && Replaying(journal, wire[1..], n, head)
       case Output(start, bytes) =>
         n < start && SliceOf(journal, start, bytes) && Awaiting(journal, wire[1..], n, head, r)
       case _ => false
  }

  /** What is still on the wire of replay `r` fits the client, before, in and after the checkpoint. */
  ghost predicate ReplayFits(journal: seq<Byte>, w: World, wire: seq<Event>, head: nat, r: Replay) {
    var n, got := w.client.pty.nextSeq, SnapshotBytes(w.client.term.log);
    || (ParserIdle(w.client.pty) && Awaiting(journal, wire, n, head, r)
        && (w.recovery == NotRecovering ==> wire[0].ReplayBegin?))
    || (w.client.term.base == n && !w.cut && w.screen == r.text && Restoring(journal, wire, n, head, got, r.text))
    || Replaying(journal, wire, n, head)
  }

  /** What is on the wire fits what the client expects next, in every phase. */
  ghost predicate WireFits(journal: seq<Byte>, w: World) {
    var n, head := w.client.pty.nextSeq, w.agent.head;
    if w.requests != [] then
      && ParserIdle(w.client.pty)
      && (w.requests[0].Some? ==> w.requests[0].value == n)
      && Ahead(journal, w.wire, n, head)
      && (w.agent.live ==> n < head)
      && (w.recovery == NotRecovering ==> w.wire == [] && !w.agent.live)
    else if w.replays != [] then
      w.agent.live && ReplayFits(journal, w, w.wire, head, w.replays[0])
    else if w.subscribed then
      && w.agent.live && InOrder(journal, w.wire, n, head)
      && (w.recovery == Started ==> Ahead(journal, w.wire, n, head) && n < head)
    else if w.recovery == Waiting then
      Ahead(journal, w.wire, n, head) && (w.agent.live ==> n < head)
    else
      w.wire == [] && !w.agent.live
  }

  ghost predicate Consistent(journal: seq<Byte>, w: World) {
    && AgentValid(journal, w.agent) && w.client.term.stale == []
    && w.client.pty.nextSeq <= w.agent.head
    && w.orphans == 0 && |w.requests| + |w.replays| <= 1
    && (w.subscribed ==> w.connected)
    && (!w.connected ==> w.wire == [] && !w.agent.live)
    && (w.requests != [] || w.replays != [] ==> w.subscribed && w.recovery != Started)
    && (w.recovery in {Started, Attached} ==> w.subscribed)
  }

  ghost predicate WorldInv(journal: seq<Byte>, w: World) {
    Inv(journal, w.client) && Consistent(journal, w) && WireFits(journal, w)
  }

  ghost predicate Initial(w: World) {
    && w.client == FRESH_CLIENT && w.wire == [] && w.connected && w.connecting && !w.agent.live
    && !w.subscribed && w.orphans == 0 && w.requests == [] && w.replays == []
    && w.recovery == NotRecovering && w.screen == [] && !w.truncated && !w.cut
  }

  lemma InitiallySound(journal: seq<Byte>, w: World)
    requires Initial(w) && AgentValid(journal, w.agent)
    ensures WorldInv(journal, w)
  {
    FreshClientIsExact(journal);
  }

  // ---------------------------------------------------------------- facts about the wire

  /** The wire after the session printed `size` more bytes. */
  function Extended(journal: seq<Byte>, wire: seq<Event>, head: nat, size: nat, lost: bool): seq<Event>
    requires head + size <= |journal|
  {
    if lost then wire else wire + [Output(head, journal[head..head + size])]
  }

  lemma {:induction false} InOrderExtends(journal: seq<Byte>, wire: seq<Event>, n: nat, head: nat,
                                          size: nat, lost: bool)
    requires InOrder(journal, wire, n, head) && size > 0 && head + size <= |journal|
    ensures n <= head && InOrder(journal, Extended(journal, wire, head, size, lost), n, head + size)
  {
    var ext := Extended(journal, wire, head, size, lost);
    if wire != [] {
      InOrderExtends(journal, wire[1..], wire[0].startSeq + |wire[0].bytes|, head, size, lost);
      assert ext[1..] == Extended(journal, wire[1..], head, size, lost);
    } else if !lost {
      assert ext[1..] == [];
    }
  }

  lemma {:induction false} InOrderIsAhead(journal: seq<Byte>, wire: seq<Event>, m: nat, n: nat, head: nat)
    requires InOrder(journal, wire, m, head) && n < m
    ensures Ahead(journal, wire, n, head) && m <= head
  {
    if wire != [] {
      InOrderIsAhead(journal, wire[1..], wire[0].startSeq + |wire[0].bytes|, n, head);
      forall i | 0 <= i < |wire|
        ensures wire[i].Output? && n < wire[i].startSeq && SliceOf(journal, wire[i].startSeq, wire[i].bytes)
                && wire[i].startSeq + |wire[i].bytes| <= head
      {
        assert i > 0 ==> wire[i] == wire[1..][i - 1];
      }
    }
  }

  lemma {:induction false} ReplayingExtends(journal: seq<Byte>, wire: seq<Event>, n: nat, head: nat,
                                            size: nat, lost: bool)
    requires Replaying(journal, wire, n, head) && size > 0 && head + size <= |journal|
    ensures Replaying(journal, Extended(journal, wire, head, size, lost), n, head + size)
  {
    var ext := Extended(journal, wire, head, size, lost);
    assert ext[0] == wire[0] && ext[1..] == Extended(journal, wire[1..], head, size, lost);
    match wire[0] {
      case Output(_, bytes) => ReplayingExtends(journal, wire[1..], n + |bytes|, head, size, lost);
      case ReplayEnd(_) => InOrderExtends(journal, wire[1..], n, head, size, lost);
    }
  }

  lemma {:induction false} RestoringExtends(journal: seq<Byte>, wire: seq<Event>, n: nat, head: nat,
                                            got: seq<Byte>, text: seq<Byte>, size: nat, lost: bool)
    requires Restoring(journal, wire, n, head, got, text) && size > 0 && head + size <= |journal|
    ensures Restoring(journal, Extended(journal, wire, head, size, lost), n, head + size, got, text)
  {
    var ext := Extended(journal, wire, head, size, lost);
    assert wire != [];
    assert ext[0] == wire[0] && ext[1..] == Extended(journal, wire[1..], head, size, lost);
    if wire[0].CheckpointChunk? {
      RestoringExtends(journal, wire[1..], n, head, got + wire[0].bytes, text, size, lost);
    } else {
      ReplayingExtends(journal, wire, n, head, size, lost);
    }
  }

  lemma {:induction false} AwaitingExtends(journal: seq<Byte>, wire: seq<Event>, n: nat, head: nat, r: Replay,
                                           size: nat, lost: bool)
    requires Awaiting(journal, wire, n, head, r) && size > 0 && head + size <= |journal|
    ensures Awaiting(journal, Extended(journal, wire, head, size, lost), n, head + size, r)
  {
    var ext := Extended(journal, wire, head, size, lost);
    assert ext[0] == wire[0] && ext[1..] == Extended(journal, wire[1..], head, size, lost);
    match wire[0] {
      case ReplayBegin(reset, base) =>
        if reset {
          RestoringExtends(journal, wire[1..], base, head, [], r.text, size, lost);
        } else {
          ReplayingExtends(journal, wire[1..], n, head, size, lost);
        }
      case Output(_, _) => AwaitingExtends(journal, wire[1..], n, head, r, size, lost);
    }
  }

  lemma {:induction false} InOrderBound(journal: seq<Byte>, wire: seq<Event>, n: nat, head: nat)
    requires InOrder(journal, wire, n, head)
    ensures n <= head
  {
    if wire != [] {
      InOrderBound(journal, wire[1..], wire[0].startSeq + |wire[0].bytes|, head);
    }
  }

  lemma {:induction false} ReplayingBound(journal: seq<Byte>, wire: seq<Event>, n: nat, head: nat)
    requires Replaying(journal, wire, n, head)
    ensures n <= head
  {
    match wire[0] {
      case Output(_, bytes) => ReplayingBound(journal, wire[1..], n + |bytes|, head);
      case ReplayEnd(_) => InOrderBound(journal, wire[1..], n, head);
    }
  }

  /** Exactly while checkpoint arrays are still to come, part of the text is missing. */
  lemma {:induction false} RestoringBound(journal: seq<Byte>, wire: seq<Event>, n: nat, head: nat,
                                          got: seq<Byte>, text: seq<Byte>)
    requires Restoring(journal, wire, n, head, got, text)
    ensures n <= head && wire != [] && |got| <= |text|
    ensures got == text <==> !wire[0].CheckpointChunk?
  {
    if wire != [] && wire[0].CheckpointChunk? {
      RestoringBound(journal, wire[1..], n, head, got + wire[0].bytes, text);
    } else {
      ReplayingBound(journal, wire, n, head);
    }
  }

  /** The journal part of an answer replays from `from` to the head. */
  lemma {:induction false} OutputsReplay(journal: seq<Byte>, from: nat, sizes: seq<nat>, head: nat)
    requires from + Sum(sizes) == head <= |journal|
    ensures Replaying(journal, OutputEvents(journal, from, sizes) + [ReplayEnd(head)], from, head)
    decreases |sizes|
  {
    var wire := OutputEvents(journal, from, sizes) + [ReplayEnd(head)];
    if sizes == [] {
      assert wire[1..] == [];
    } else {
      OutputsReplay(journal, from + sizes[0], sizes[1..], head);
      assert wire[1..] == OutputEvents(journal, from + sizes[0], sizes[1..]) + [ReplayEnd(head)];
    }
  }

  /** A whole answer after its replay_begin. */
  lemma {:induction false} AnswerRestores(journal: seq<Byte>, parts: seq<seq<Byte>>, from: nat, sizes: seq<nat>,
                                          head: nat, got: seq<Byte>)
    requires from + Sum(sizes) == head <= |journal| && forall i | 0 <= i < |parts| :: parts[i] != []
    ensures Restoring(journal, SnapshotEvents(parts) + OutputEvents(journal, from, sizes) + [ReplayEnd(head)],
                      from, head, got, got + Concat(parts))
  {
    var wire := SnapshotEvents(parts) + OutputEvents(journal, from, sizes) + [ReplayEnd(head)];
    if parts == [] {
      OutputsReplay(journal, from, sizes, head);
      assert wire == OutputEvents(journal, from, sizes) + [ReplayEnd(head)];
      assert got + Concat(parts) == got;
      assert Replaying(journal, wire, from, head);
    } else {
      assert got + Concat(parts) == (got + parts[0]) + Concat(parts[1..]);
      AnswerRestores(journal, parts[1..], from, sizes, head, got + parts[0]);
      assert wire[0] == CheckpointChunk(parts[0]);
      assert wire[1..] == SnapshotEvents(parts[1..]) + OutputEvents(journal, from, sizes) + [ReplayEnd(head)];
    }
  }

  /** Stale outputs beyond `n`, then the answer. */
  lemma {:induction false} AnswerAwaited(journal: seq<Byte>, stale: seq<Event>, answer: seq<Event>, n: nat, head: nat,
                                         r: Replay)
    requires Ahead(journal, stale, n, head) && Awaiting(journal, answer, n, head, r)
    ensures Awaiting(journal, stale + answer, n, head, r)
  {
    if stale == [] {
      assert stale + answer == answer;
    } else {
      AnswerAwaited(journal, stale[1..], answer, n, head, r);
      assert (stale + answer)[1..] == stale[1..] + answer;
    }
  }

  // ---------------------------------------------------------------- every step keeps the invariant

  lemma ProduceWhileReplaying(journal: seq<Byte>, w: World, head: nat, r: Replay, size: nat, lost: bool)
    requires ReplayFits(journal, w, w.wire, head, r) && size > 0 && head + size <= |journal|
    ensures ReplayFits(journal, w, Extended(journal, w.wire, head, size, lost), head + size, r)
  {
    var n, got := w.client.pty.nextSeq, SnapshotBytes(w.client.term.log);
    if Replaying(journal, w.wire, n, head) {
      ReplayingExtends(journal, w.wire, n, head, size, lost);
    } else if Awaiting(journal, w.wire, n, head, r) {
      AwaitingExtends(journal, w.wire, n, head, r, size, lost);
      assert Extended(journal, w.wire, head, size, lost)[0] == w.wire[0];
    }
    if Restoring(journal, w.wire, n, head, got, r.text) {
      RestoringExtends(journal, w.wire, n, head, got, r.text, size, lost);
    }
  }

  lemma ProduceKeepsWire(journal: seq<Byte>, w: World, size: nat, lost: bool)
    requires WorldInv(journal, w) && Enabled(journal, w, Produce(size, lost))
    ensures WireFits(journal, Next(journal, w, Produce(size, lost)))
  {
    var v := Next(journal, w, Produce(size, lost));
    if w.requests == [] && w.agent.live {
      assert v.wire == Extended(journal, w.wire, w.agent.head, size, lost);
      if w.replays != [] {
        ProduceWhileReplaying(journal, w, w.agent.head, w.replays[0], size, lost);
        assert ReplayFits(journal, v, v.wire, v.agent.head, w.replays[0]);
      } else if w.subscribed {
        InOrderExtends(journal, w.wire, w.client.pty.nextSeq, w.agent.head, size, lost);
      }
    }
  }

  /** What history the agent could let a client start from: what the client has, a checkpoint, or nothing. */
  function Starts(a: Agent, after: Option<nat>): set<nat> {
    {0} + (if after.Some? then {after.value} else {})
    + (if a.checkpoint.Some? then {a.checkpoint.value.throughSeq} else {})
  }

  /** The journal goes on from there. */
  predicate Covers(a: Agent, start: nat) {
    a.journalStart <= start <= a.head
  }

  /** An answer lacks history if and only if the journal goes on from nothing that the client could start
      from; otherwise it begins at one of these, what the client has before all others, and a checkpoint
      before the beginning. */
  lemma TruncatedIffNothingConnects(journal: seq<Byte>, a: Agent, after: Option<nat>)
    requires AgentValid(journal, a)
    ensures var plan := PlanFor(a, after);
            && (plan.truncated <==> forall start | start in Starts(a, after) :: !Covers(a, start))
            && Covers(a, plan.baseSeq) && (!plan.truncated ==> plan.baseSeq in Starts(a, after))
            && (!plan.reset <==> after.Some? && Covers(a, after.value))
            && (!plan.reset ==> plan.baseSeq == after.value)
            && (plan.includeCheckpoint <==>
                  plan.reset && a.checkpoint.Some? && Covers(a, a.checkpoint.value.throughSeq))
            && (plan.includeCheckpoint ==> plan.baseSeq == a.checkpoint.value.throughSeq)
            && (plan.reset && !plan.includeCheckpoint ==> plan.baseSeq == a.journalStart)
  {
    assert 0 in Starts(a, after);
    assert after.Some? ==> after.value in Starts(a, after);
    assert a.checkpoint.Some? ==> a.checkpoint.value.throughSeq in Starts(a, after);
  }

  /** The agent's answer fits the client that asked. */
  lemma AnswerFits(journal: seq<Byte>, a: Agent, after: Option<nat>, n: nat, parts: seq<seq<Byte>>, sizes: seq<nat>)
    requires AgentValid(journal, a) && (after.Some? ==> after.value == n)
    requires var plan := PlanFor(a, after);
             && (!plan.includeCheckpoint ==> parts == []) && (forall i | 0 <= i < |parts| :: parts[i] != [])
             && plan.baseSeq + Sum(sizes) == a.head
    ensures var plan := PlanFor(a, after);
            Awaiting(journal, AnswerEvents(journal, plan, parts, sizes, a.head), n, a.head,
                     Replay(plan.reset, plan.baseSeq, Concat(parts), plan.truncated))
  {
    var plan := PlanFor(a, after);
    var replay := SnapshotEvents(parts) + OutputEvents(journal, plan.baseSeq, sizes) + [ReplayEnd(a.head)];
    assert AnswerEvents(journal, plan, parts, sizes, a.head)[1..] == replay;
    if plan.reset {
      AnswerRestores(journal, parts, plan.baseSeq, sizes, a.head, []);
      assert [] + Concat(parts) == Concat(parts);
    } else {
      OutputsReplay(journal, plan.baseSeq, sizes, a.head);
      assert replay == OutputEvents(journal, plan.baseSeq, sizes) + [ReplayEnd(a.head)];
    }
  }

  lemma AnswerKeepsInv(journal: seq<Byte>, w: World, parts: seq<seq<Byte>>, sizes: seq<nat>)
    requires WorldInv(journal, w) && Enabled(journal, w, Answer(parts, sizes))
    ensures WorldInv(journal, Next(journal, w, Answer(parts, sizes)))
  {
    var v := Next(journal, w, Answer(parts, sizes));
    var n, head := w.client.pty.nextSeq, w.agent.head;
    var answer := AnswerEvents(journal, PlanFor(w.agent, w.requests[0]), parts, sizes, head);
    AnswerFits(journal, w.agent, w.requests[0], n, parts, sizes);
    AnswerAwaited(journal, w.wire, answer, n, head, v.replays[0]);
    assert w.recovery == NotRecovering ==> v.wire[0] == answer[0];
  }

  /** An output that starts beyond the next expected byte changes nothing but starts a recovery. */
  lemma GapChangesNothing(c: Client, start: nat, bytes: seq<Byte>)
    requires c.term.parsed <= |c.term.log| && start > c.pty.nextSeq
    ensures Receive(c, Output(start, bytes)) == c
    ensures Handle(c.pty, Output(start, bytes)).1 == GapDetected
  {
  }

  /** An output that starts at the next expected byte, or a checkpoint array, is written whole. */
  lemma ExpectedArrayIsWritten(c: Client, e: Event)
    requires c.term.parsed <= |c.term.log|
    requires e.CheckpointChunk? || (e.Output? && e.startSeq == c.pty.nextSeq)
    ensures Handle(c.pty, e).1.Write?
    ensures var d := Receive(c, e);
            && d.pty.nextSeq == c.pty.nextSeq + (if e.Output? then |e.bytes| else 0)
            && d.term.stale == c.term.stale && d.term.base == c.term.base
            && SnapshotBytes(d.term.log) == (if e.Output? then SnapshotBytes(c.term.log)
                                             else SnapshotBytes(c.term.log) + e.bytes)
  {
    var d := Receive(c, e);
    assert d.term.log[..|c.term.log|] == c.term.log;
  }

  /** What delivery does to a client with its one subscription. */
  lemma DeliveredOnce(journal: seq<Byte>, w: World)
    requires WorldInv(journal, w) && w.wire != [] && w.subscribed
    ensures Delivered(w).client == Receive(w.client, w.wire[0])
  {
  }

  lemma DeliverRequested(journal: seq<Byte>, w: World)
    requires WorldInv(journal, w) && w.wire != [] && w.requests != []
    ensures Admissible(journal, w.client, w.wire[0])
    ensures WorldInv(journal, Delivered(w))
  {
    var e := w.wire[0];
    GapChangesNothing(w.client, e.startSeq, e.bytes);
    DeliveredOnce(journal, w);
  }

  /** The next checkpoint array is written. */
  lemma DeliverRestoring(journal: seq<Byte>, w: World)
    requires WorldInv(journal, w) && w.replays != [] && MidCheckpoint(w)
    ensures Admissible(journal, w.client, w.wire[0])
    ensures WorldInv(journal, Delivered(w))
  {
    var e, v := w.wire[0], Delivered(w);
    ReceiveKeepsInvIff(journal, w.client, e);
    DeliveredOnce(journal, w);
    ExpectedArrayIsWritten(w.client, e);
    assert Restoring(journal, v.wire, v.client.pty.nextSeq, v.agent.head, SnapshotBytes(v.client.term.log),
                     w.replays[0].text);
  }

  lemma DeliverReplaying(journal: seq<Byte>, w: World)
    requires WorldInv(journal, w) && w.replays != []
    requires Replaying(journal, w.wire, w.client.pty.nextSeq, w.agent.head)
    ensures Admissible(journal, w.client, w.wire[0])
    ensures WorldInv(journal, Delivered(w))
  {
    if w.wire[0].Output? {
      DeliverReplayed(journal, w);
    } else {
      ReceiveKeepsInvIff(journal, w.client, w.wire[0]);
      DeliveredOnce(journal, w);
    }
  }

  lemma DeliverReplayed(journal: seq<Byte>, w: World)
    requires WorldInv(journal, w) && w.replays != []
    requires Replaying(journal, w.wire, w.client.pty.nextSeq, w.agent.head) && w.wire[0].Output?
    ensures Admissible(journal, w.client, w.wire[0])
    ensures WorldInv(journal, Delivered(w))
  {
    var e, v := w.wire[0], Delivered(w);
    ReceiveKeepsInvIff(journal, w.client, e);
    DeliveredOnce(journal, w);
    ExpectedArrayIsWritten(w.client, e);
    ReplayingBound(journal, w.wire[1..], v.client.pty.nextSeq, w.agent.head);
    assert Replaying(journal, v.wire, v.client.pty.nextSeq, v.agent.head);
  }

  lemma DeliverAwaiting(journal: seq<Byte>, w: World)
    requires WorldInv(journal, w) && w.replays != [] && ParserIdle(w.client.pty)
    requires Awaiting(journal, w.wire, w.client.pty.nextSeq, w.agent.head, w.replays[0])
    requires w.recovery == NotRecovering ==> w.wire[0].ReplayBegin?
    ensures Admissible(journal, w.client, w.wire[0])
    ensures WorldInv(journal, Delivered(w))
  {
    var e, v := w.wire[0], Delivered(w);
    ReceiveKeepsInvIff(journal, w.client, e);
    DeliveredOnce(journal, w);
    if e.Output? {
      GapChangesNothing(w.client, e.startSeq, e.bytes);
    } else if e.reset {
      IdleMeansAllParsed(journal, w.client);
      RestoringBound(journal, w.wire[1..], e.baseSeq, w.agent.head, [], w.replays[0].text);
    }
  }

  lemma DeliverExpected(journal: seq<Byte>, w: World)
    requires WorldInv(journal, w) && w.requests == [] && w.replays == [] && w.subscribed && w.wire != []
    requires w.wire[0].startSeq == w.client.pty.nextSeq
    ensures Admissible(journal, w.client, w.wire[0])
    ensures WorldInv(journal, Delivered(w))
  {
    var e, v := w.wire[0], Delivered(w);
    ReceiveKeepsInvIff(journal, w.client, e);
    DeliveredOnce(journal, w);
    ExpectedArrayIsWritten(w.client, e);
    InOrderBound(journal, w.wire[1..], v.client.pty.nextSeq, w.agent.head);
  }

  lemma DeliverBeyondGap(journal: seq<Byte>, w: World)
    requires WorldInv(journal, w) && w.requests == [] && w.replays == [] && w.subscribed && w.wire != []
    requires w.wire[0].startSeq != w.client.pty.nextSeq
    ensures Admissible(journal, w.client, w.wire[0])
    ensures WorldInv(journal, Delivered(w))
  {
    var e, n, head := w.wire[0], w.client.pty.nextSeq, w.agent.head;
    DeliveredOnce(journal, w);
    GapChangesNothing(w.client, e.startSeq, e.bytes);
    InOrderIsAhead(journal, w.wire[1..], e.startSeq + |e.bytes|, n, head);
    InOrderFromEarlier(journal, w.wire[1..], e.startSeq + |e.bytes|, n, head);
  }

  lemma InOrderFromEarlier(journal: seq<Byte>, wire: seq<Event>, m: nat, n: nat, head: nat)
    requires InOrder(journal, wire, m, head) && n <= m
    ensures InOrder(journal, wire, n, head)
  {
  }

  /** Whatever is delivered fits the client, and delivery keeps the invariant. */
  lemma DeliverKeepsInv(journal: seq<Byte>, w: World)
    requires WorldInv(journal, w) && w.wire != []
    ensures w.subscribed ==> Admissible(journal, w.client, w.wire[0])
    ensures WorldInv(journal, Delivered(w))
  {
    if w.requests != [] {
      DeliverRequested(journal, w);
    } else if w.replays != [] {
      if MidCheckpoint(w) {
        DeliverRestoring(journal, w);
      } else if Replaying(journal, w.wire, w.client.pty.nextSeq, w.agent.head) {
        DeliverReplaying(journal, w);
      } else {
        DeliverAwaiting(journal, w);
      }
    } else if w.subscribed {
      if w.wire[0].startSeq == w.client.pty.nextSeq {
        DeliverExpected(journal, w);
      } else {
        DeliverBeyondGap(journal, w);
      }
    }
  }

  lemma ParseOneKeepsInv(journal: seq<Byte>, w: World)
    requires WorldInv(journal, w)
    ensures WorldInv(journal, Next(journal, w, ParseOne))
  {
    ParseKeepsInv(journal, w.client);
    IdleMeansAllParsed(journal, w.client);
    var c := w.client;
    assert Parse(c).term.log == c.term.log && Parse(c).pty.nextSeq == c.pty.nextSeq;
    assert ParserIdle(c.pty) ==> Parse(c) == c;
  }

  lemma AttachKeepsInv(journal: seq<Byte>, w: World, a: Action)
    requires WorldInv(journal, w) && Enabled(journal, w, a) && AttachesAlone(w, a)
    requires a.RequestAttach? || a.Reattach?
    ensures WorldInv(journal, Next(journal, w, a))
  {
    IdleMeansAllParsed(journal, w.client);
  }

  lemma RecoveryKeepsInv(journal: seq<Byte>, w: World, a: Action)
    requires WorldInv(journal, w) && Enabled(journal, w, a) && (a.Unsubscribe? || a.GiveUp? || a.RecoveryDone?)
    ensures WorldInv(journal, Next(journal, w, a))
  {
  }

  lemma OutsideKeepsInv(journal: seq<Byte>, w: World, a: Action)
    requires WorldInv(journal, w) && Enabled(journal, w, a)
    requires a.TrimJournal? || a.SaveCheckpoint? || a.ConnectionLost? || a.Reconnected?
    ensures WorldInv(journal, Next(journal, w, a))
  {
  }

  lemma SessionKeepsInv(journal: seq<Byte>, w: World, a: Action)
    requires WorldInv(journal, w) && Enabled(journal, w, a) && (a.Produce? || a.Answer?)
    ensures WorldInv(journal, Next(journal, w, a))
  {
    if a.Produce? {
      ProduceKeepsWire(journal, w, a.size, a.lost);
    } else {
      AnswerKeepsInv(journal, w, a.parts, a.sizes);
    }
  }

  lemma ClientKeepsInv(journal: seq<Byte>, w: World, a: Action)
    requires WorldInv(journal, w) && Enabled(journal, w, a) && (a.Deliver? || a.ParseOne?)
    ensures WorldInv(journal, Next(journal, w, a))
  {
    if a.Deliver? {
      DeliverKeepsInv(journal, w);
    } else {
      ParseOneKeepsInv(journal, w);
    }
  }

  lemma StepKeepsInv(journal: seq<Byte>, w: World, a: Action)
    requires WorldInv(journal, w) && Enabled(journal, w, a) && AttachesAlone(w, a)
    ensures WorldInv(journal, Next(journal, w, a))
  {
    if a.Produce? || a.Answer? {
      SessionKeepsInv(journal, w, a);
    } else if a.Deliver? || a.ParseOne? {
      ClientKeepsInv(journal, w, a);
    } else if a.RequestAttach? || a.Reattach? {
      AttachKeepsInv(journal, w, a);
    } else if a.Unsubscribe? || a.GiveUp? || a.RecoveryDone? {
      RecoveryKeepsInv(journal, w, a);
    } else {
      OutsideKeepsInv(journal, w, a);
    }
  }

  // ---------------------------------------------------------------- what xterm shows

  /** Everything written to xterm since its last reset. */
  function Written(log: seq<Chunk>): seq<Byte> {
    if log == [] then [] else Written(log[..|log| - 1]) + log[|log| - 1].bytes
  }

  /** The checkpoint comes first, and it is whole if and only if no connection was lost before all of it
      had arrived and none of it is still to come. */
  ghost predicate ScreenFits(w: World) {
    var log := w.client.term.log;
    && Written(log) == SnapshotBytes(log) + OutputBytes(log)
    && (SnapshotBytes(log) == w.screen <==> !w.cut && !MidCheckpoint(w))
  }

  /** Outside replays, and before a replay begins, only output is on the wire. */
  lemma OutputsOnly(journal: seq<Byte>, w: World)
    requires WireFits(journal, w) && w.replays == []
    ensures !MidCheckpoint(w)
  {
  }

  lemma OneMoreChunk(log: seq<Chunk>, chunk: Chunk)
    ensures Written(log + [chunk]) == Written(log) + chunk.bytes
    ensures SnapshotBytes(log + [chunk]) == SnapshotBytes(log) + if chunk.snapshot then chunk.bytes else []
    ensures OutputBytes(log + [chunk]) == OutputBytes(log) + if chunk.snapshot then [] else chunk.bytes
  {
    assert (log + [chunk])[..|log|] == log;
  }

  lemma WrittenOneMore(log: seq<Chunk>, chunk: Chunk)
    requires Written(log) == SnapshotBytes(log) + OutputBytes(log) && (chunk.snapshot ==> OutputBytes(log) == [])
    ensures var longer := log + [chunk]; Written(longer) == SnapshotBytes(longer) + OutputBytes(longer)
  {
    OneMoreChunk(log, chunk);
    if !chunk.snapshot {
      Associative(SnapshotBytes(log), OutputBytes(log), chunk.bytes);
    }
  }

  lemma ChunkIsWritten(c: Client, e: Event)
    requires c.term.parsed <= |c.term.log|
    requires Written(c.term.log) == SnapshotBytes(c.term.log) + OutputBytes(c.term.log)
    requires (e.CheckpointChunk? && OutputBytes(c.term.log) == []) || (e.Output? && e.startSeq == c.pty.nextSeq)
    ensures var log := Receive(c, e).term.log; Written(log) == SnapshotBytes(log) + OutputBytes(log)
  {
    var n := c.pty.nextSeq + if e.Output? then |e.bytes| else 0;
    var chunk := Chunk(c.pty.created, e.bytes, e.CheckpointChunk?, n);
    ChunkIsAppended(c, e, chunk);
    WrittenOneMore(c.term.log, chunk);
  }

  lemma ChunkIsAppended(c: Client, e: Event, chunk: Chunk)
    requires c.term.parsed <= |c.term.log|
    requires e.CheckpointChunk? || (e.Output? && e.startSeq == c.pty.nextSeq)
    requires chunk == Chunk(c.pty.created, e.bytes, e.CheckpointChunk?,
                            c.pty.nextSeq + if e.Output? then |e.bytes| else 0)
    ensures Receive(c, e).term.log == c.term.log + [chunk]
  {
  }

  lemma RestoringKeepsScreen(journal: seq<Byte>, w: World)
    requires WorldInv(journal, w) && ScreenFits(w) && w.replays != [] && MidCheckpoint(w)
    ensures ScreenFits(Delivered(w))
  {
    var e, v := w.wire[0], Delivered(w);
    DeliveredOnce(journal, w);
    DeliveredExactlyOnce(journal, w.client);
    ExpectedArrayIsWritten(w.client, e);
    ChunkIsWritten(w.client, e);
    RestoringBound(journal, v.wire, w.client.pty.nextSeq, w.agent.head, SnapshotBytes(v.client.term.log),
                   w.replays[0].text);
  }

  lemma BeginKeepsScreen(journal: seq<Byte>, w: World)
    requires WorldInv(journal, w) && ScreenFits(w) && w.replays != [] && w.wire[0].ReplayBegin?
    ensures ScreenFits(Delivered(w))
  {
    DeliveredOnce(journal, w);
    if w.wire[0].reset {
      RestoringBound(journal, w.wire[1..], w.wire[0].baseSeq, w.agent.head, [], w.replays[0].text);
    }
  }

  /** After an output or the end of a replay no checkpoint array is next. */
  lemma NoChunkFollows(journal: seq<Byte>, w: World)
    requires WireFits(journal, w) && w.wire != [] && (w.wire[0].Output? || w.wire[0].ReplayEnd?)
    ensures |w.wire| > 1 ==> !w.wire[1].CheckpointChunk?
  {
    var e, rest, n, head := w.wire[0], w.wire[1..], w.client.pty.nextSeq, w.agent.head;
    if w.requests == [] && w.replays != [] {
      if Awaiting(journal, w.wire, n, head, w.replays[0]) {
        assert e.Output? ==> Awaiting(journal, rest, n, head, w.replays[0]);
      } else {
        assert Replaying(journal, w.wire, n, head);
        assert e.Output? ==> Replaying(journal, rest, n + |e.bytes|, head);
        assert e.ReplayEnd? ==> InOrder(journal, rest, n, head);
      }
    } else if w.requests == [] && w.subscribed {
      assert InOrder(journal, rest, e.startSeq + |e.bytes|, head);
    }
  }

  lemma OutputKeepsScreen(journal: seq<Byte>, w: World)
    requires WorldInv(journal, w) && ScreenFits(w) && w.wire != [] && w.subscribed
    requires w.wire[0].Output? || w.wire[0].ReplayEnd?
    ensures ScreenFits(Delivered(w))
  {
    var e := w.wire[0];
    DeliveredOnce(journal, w);
    if e.Output? {
      if e.startSeq == w.client.pty.nextSeq {
        ExpectedArrayIsWritten(w.client, e);
        ChunkIsWritten(w.client, e);
      } else {
        GapChangesNothing(w.client, e.startSeq, e.bytes);
      }
    }
    NoChunkFollows(journal, w);
  }

  lemma DeliverKeepsScreen(journal: seq<Byte>, w: World)
    requires WorldInv(journal, w) && ScreenFits(w) && w.wire != []
    ensures ScreenFits(Delivered(w))
  {
    if w.subscribed {
      if w.replays == [] {
        OutputsOnly(journal, w);
      }
      if MidCheckpoint(w) {
        RestoringKeepsScreen(journal, w);
      } else if w.wire[0].ReplayBegin? {
        BeginKeepsScreen(journal, w);
      } else {
        OutputKeepsScreen(journal, w);
      }
    }
  }

  lemma AnswerKeepsScreen(journal: seq<Byte>, w: World, parts: seq<seq<Byte>>, sizes: seq<nat>)
    requires WorldInv(journal, w) && ScreenFits(w) && Enabled(journal, w, Answer(parts, sizes))
    ensures ScreenFits(Next(journal, w, Answer(parts, sizes)))
  {
    OutputsOnly(journal, w);
  }

  lemma ProduceKeepsScreen(journal: seq<Byte>, w: World, size: nat, lost: bool)
    requires CanStep(journal, w, Produce(size, lost)) && ScreenFits(w)
    ensures ScreenFits(Next(journal, w, Produce(size, lost)))
  {
    SameScreenFits(w, Next(journal, w, Produce(size, lost)));
  }

  lemma LossKeepsScreen(journal: seq<Byte>, w: World)
    requires CanStep(journal, w, ConnectionLost) && ScreenFits(w)
    ensures ScreenFits(Next(journal, w, ConnectionLost))
  {
    SameScreenFits(w, Next(journal, w, ConnectionLost));
  }

  lemma ParseKeepsScreen(journal: seq<Byte>, w: World)
    requires CanStep(journal, w, ParseOne) && ScreenFits(w)
    ensures ScreenFits(Next(journal, w, ParseOne))
  {
    SameScreenFits(w, Next(journal, w, ParseOne));
  }

  /** The other steps touch neither the client nor the wire. */
  lemma QuietStep(journal: seq<Byte>, w: World, a: Action)
    requires CanStep(journal, w, a)
    requires !a.Answer? && !a.Deliver? && !a.Produce? && !a.ConnectionLost? && !a.ParseOne?
    ensures var v := Next(journal, w, a);
            v.client == w.client && v.wire == w.wire && v.screen == w.screen && v.cut == w.cut
  {
    match a {
      case RequestAttach(resuming) =>
        var after := if resuming then Some(w.client.pty.parsedSeq) else None;
        assert Next(journal, w, a) == AttachSent(w, after).(connecting := false);
      case Reattach =>
        assert Next(journal, w, a) == AttachSent(w, Some(w.client.pty.parsedSeq)).(recovery := Attached);
      case _ =>
    }
  }

  lemma QuietStepKeepsScreen(journal: seq<Byte>, w: World, a: Action)
    requires CanStep(journal, w, a) && ScreenFits(w)
    requires !a.Answer? && !a.Deliver? && !a.Produce? && !a.ConnectionLost? && !a.ParseOne?
    ensures ScreenFits(Next(journal, w, a))
  {
    QuietStep(journal, w, a);
    SameScreenFits(w, Next(journal, w, a));
  }

  lemma SameScreenFits(w: World, v: World)
    requires ScreenFits(w) && v.client.term.log == w.client.term.log && v.screen == w.screen
    requires v.cut || MidCheckpoint(v) <==> w.cut || MidCheckpoint(w)
    ensures ScreenFits(v)
  {
  }

  lemma StepKeepsScreen(journal: seq<Byte>, w: World, a: Action)
    requires WorldInv(journal, w) && ScreenFits(w) && Enabled(journal, w, a)
    ensures ScreenFits(Next(journal, w, a))
  {
    if a.Answer? {
      AnswerKeepsScreen(journal, w, a.parts, a.sizes);
    } else if a.Deliver? {
      DeliverKeepsScreen(journal, w);
    } else if a.Produce? {
      ProduceKeepsScreen(journal, w, a.size, a.lost);
    } else if a.ConnectionLost? {
      LossKeepsScreen(journal, w);
    } else if a.ParseOne? {
      ParseKeepsScreen(journal, w);
    } else {
      QuietStepKeepsScreen(journal, w, a);
    }
  }

  // ---------------------------------------------------------------- checkpoints

  /** Two texts after which xterm shows the same, whatever is written next.  `shows` is what xterm shows
      after a reset and the given bytes. */
  ghost predicate SameScreen<D>(shows: seq<Byte> -> D, a: seq<Byte>, b: seq<Byte>) {
    forall rest: seq<Byte> :: shows(a + rest) == shows(b + rest)
  }

  /** The text stands for everything the session printed up to its label. */
  ghost predicate Faithful<D>(shows: seq<Byte> -> D, journal: seq<Byte>, s: Snapshot) {
    s.throughSeq <= |journal| && SameScreen(shows, s.ansi, journal[..s.throughSeq])
  }

  ghost predicate FaithfulInv<D>(shows: seq<Byte> -> D, journal: seq<Byte>, w: World) {
    && (w.agent.checkpoint.Some? ==> Faithful(shows, journal, w.agent.checkpoint.value))
    && (forall r | r in w.replays && r.reset && !r.truncated :: Faithful(shows, journal, Snapshot(r.base, r.text)))
    && (!w.truncated ==> Faithful(shows, journal, Snapshot(w.client.term.base, w.screen)))
  }

  lemma DeliverKeepsFaith<D>(shows: seq<Byte> -> D, journal: seq<Byte>, w: World)
    requires WorldInv(journal, w) && FaithfulInv(shows, journal, w) && w.wire != []
    ensures FaithfulInv(shows, journal, Delivered(w))
  {
    if w.subscribed {
      DeliveredOnce(journal, w);
      if w.wire[0].ReplayBegin? {
        assert w.wire[0].reset ==> w.wire[0].baseSeq == w.replays[0].base;
      } else {
        SameBase(w.client, w.wire[0]);
      }
    }
  }

  lemma SameBase(c: Client, e: Event)
    requires c.term.parsed <= |c.term.log| && !e.ReplayBegin?
    ensures Receive(c, e).term.base == c.term.base
  {
  }

  lemma AnswerKeepsFaith<D>(shows: seq<Byte> -> D, journal: seq<Byte>, w: World, parts: seq<seq<Byte>>,
                            sizes: seq<nat>)
    requires WorldInv(journal, w) && FaithfulInv(shows, journal, w) && Enabled(journal, w, Answer(parts, sizes))
    ensures FaithfulInv(shows, journal, Next(journal, w, Answer(parts, sizes)))
  {
    assert journal[..0] == [];
  }

  lemma StepKeepsFaith<D>(shows: seq<Byte> -> D, journal: seq<Byte>, w: World, a: Action)
    requires WorldInv(journal, w) && FaithfulInv(shows, journal, w) && Enabled(journal, w, a)
    requires a.SaveCheckpoint? ==> Faithful(shows, journal, a.snapshot)
    ensures FaithfulInv(shows, journal, Next(journal, w, a))
  {
    match a {
      case Answer(parts, sizes) => AnswerKeepsFaith(shows, journal, w, parts, sizes);
      case Deliver => DeliverKeepsFaith(shows, journal, w);
      case _ =>
    }
  }

  // ---------------------------------------------------------------- every run

  /** The system can go from `w` to `v` by these actions. */
  ghost predicate IsRun(journal: seq<Byte>, w: World, actions: seq<Action>, v: World)
    decreases |actions|
  {
    if actions == [] then v == w
    else CanStep(journal, w, actions[0]) && IsRun(journal, Next(journal, w, actions[0]), actions[1..], v)
  }

  /** No attach is sent while the endpoint is subscribed or another attach is outstanding. */
  ghost predicate Orderly(journal: seq<Byte>, w: World, actions: seq<Action>)
    decreases |actions|
  {
    actions == [] || !CanStep(journal, w, actions[0])
    || (AttachesAlone(w, actions[0]) && Orderly(journal, Next(journal, w, actions[0]), actions[1..]))
  }

  // ---------------------------------------------------------------- exactly once, in all runs

  /** What the stream promises: the output written since the last reset is journal[base..nextSeq), the
      parsed part is journal[base..parsedSeq), and an idle parser has parsed everything. */
  ghost predicate ExactlyOnce(journal: seq<Byte>, c: Client) {
    && c.term.base <= c.pty.parsedSeq <= c.pty.nextSeq <= |journal| && c.term.parsed <= |c.term.log|
    && OutputBytes(c.term.log) == journal[c.term.base..c.pty.nextSeq]
    && OutputBytes(c.term.log[..c.term.parsed]) == journal[c.term.base..c.pty.parsedSeq]
    && (ParserIdle(c.pty) <==> c.term.parsed == |c.term.log|)
    && (ParserIdle(c.pty) ==> c.pty.parsedSeq == c.pty.nextSeq)
  }

  lemma InvIsExactlyOnce(journal: seq<Byte>, c: Client)
    requires Inv(journal, c)
    ensures ExactlyOnce(journal, c)
  {
    DeliveredExactlyOnce(journal, c);
    IdleMeansAllParsed(journal, c);
    ParsedNotBeyondNext(journal, c, c.term.parsed);
  }

  /** The event follows on what the client has: a replay without a reset begins, and every replay ends, at
      the next expected byte. */
  predicate Follows(c: Client, e: Event) {
    match e
    case ReplayBegin(reset, base) => reset || base == c.pty.nextSeq
    case ReplayEnd(next) => next == c.pty.nextSeq
    case _ => true
  }

  /** Whatever the agent sends is about the journal. */
  ghost predicate AboutJournal(journal: seq<Byte>, e: Event) {
    match e
    case ReplayBegin(_, base) => base <= |journal|
    case Output(start, bytes) => SliceOf(journal, start, bytes)
    case _ => true
  }

  ghost predicate WireAboutJournal(journal: seq<Byte>, wire: seq<Event>) {
    forall i | 0 <= i < |wire| :: AboutJournal(journal, wire[i])
  }

  /** However many listeners hear an event that follows, the client stays exact. */
  lemma {:induction false} HeardKeepsInv(journal: seq<Byte>, c: Client, e: Event, times: nat)
    requires Inv(journal, c) && AboutJournal(journal, e) && Follows(c, e)
    ensures Inv(journal, Heard(c, e, times))
    decreases times
  {
    if times > 0 {
      ReceiveKeepsInvIff(journal, c, e);
      FollowsAgain(c, e);
      HeardKeepsInv(journal, Step(c, Arrives(e)), e, times - 1);
    }
  }

  lemma FollowsAgain(c: Client, e: Event)
    requires c.term.parsed <= |c.term.log| && Follows(c, e)
    ensures Follows(Receive(c, e), e)
  {
  }

  /** An event that does not follow moves the next expected byte and writes nothing. */
  lemma {:induction false} StrayMovesNext(c: Client, e: Event, times: nat)
    requires c.term.parsed <= |c.term.log| && times > 0
    requires (e.ReplayBegin? && !e.reset) || e.ReplayEnd?
    ensures var d := Heard(c, e, times);
            && d.term == c.term
            && d.pty.nextSeq == (if e.ReplayBegin? then e.baseSeq else e.nextSeq)
    decreases times
  {
    var once := Step(c, Arrives(e));
    assert once.term == c.term && once.pty.nextSeq == (if e.ReplayBegin? then e.baseSeq else e.nextSeq);
    if times > 1 {
      StrayMovesNext(once, e, times - 1);
    } else {
      assert Heard(once, e, 0) == once;
    }
  }

  lemma StrayBreaks(journal: seq<Byte>, c: Client, e: Event, times: nat)
    requires Inv(journal, c) && AboutJournal(journal, e) && !Follows(c, e) && times > 0
    ensures !ExactlyOnce(journal, Heard(c, e, times))
  {
    StrayMovesNext(c, e, times);
    DeliveredExactlyOnce(journal, c);
    assert |OutputBytes(c.term.log)| == c.pty.nextSeq - c.term.base;
  }

  lemma {:induction false} OutputsAboutJournal(journal: seq<Byte>, from: nat, sizes: seq<nat>)
    requires from + Sum(sizes) <= |journal|
    ensures WireAboutJournal(journal, OutputEvents(journal, from, sizes))
    decreases |sizes|
  {
    if sizes != [] {
      OutputsAboutJournal(journal, from + sizes[0], sizes[1..]);
    }
  }

  lemma {:induction false} SnapshotsAboutJournal(journal: seq<Byte>, parts: seq<seq<Byte>>)
    ensures WireAboutJournal(journal, SnapshotEvents(parts))
  {
    if parts != [] {
      SnapshotsAboutJournal(journal, parts[1..]);
    }
  }

  lemma AnswerAboutJournal(journal: seq<Byte>, plan: ReplayPlan, parts: seq<seq<Byte>>, sizes: seq<nat>, head: nat)
    requires plan.baseSeq + Sum(sizes) <= |journal|
    ensures WireAboutJournal(journal, AnswerEvents(journal, plan, parts, sizes, head))
  {
    SnapshotsAboutJournal(journal, parts);
    OutputsAboutJournal(journal, plan.baseSeq, sizes);
  }

  /** Agent and wire keep their contract in every step, whatever attaches overlap. */
  lemma StepKeepsContract(journal: seq<Byte>, w: World, a: Action)
    requires CanStep(journal, w, a) && WireAboutJournal(journal, w.wire)
    ensures AgentValid(journal, Next(journal, w, a).agent)
    ensures WireAboutJournal(journal, Next(journal, w, a).wire)
  {
    if a.Answer? {
      AnswerAboutJournal(journal, PlanFor(w.agent, w.requests[0]), a.parts, a.sizes, w.agent.head);
    }
  }

  /** Only delivery and parsing change the client. */
  lemma StepChangesClient(journal: seq<Byte>, w: World, a: Action)
    requires CanStep(journal, w, a)
    ensures Next(journal, w, a).client
            == if a.Deliver? then Heard(w.client, w.wire[0], Listeners(w))
               else if a.ParseOne? then Parse(w.client) else w.client
  {
    if !a.Answer? && !a.Deliver? && !a.Produce? && !a.ConnectionLost? && !a.ParseOne? {
      QuietStep(journal, w, a);
    } else if a.Deliver? && Listeners(w) == 0 {
      assert Heard(w.client, w.wire[0], 0) == w.client;
    }
  }

  /** What the listeners hear in this step follows. */
  predicate HearsFollowing(w: World, a: Action) {
    a.Deliver? && w.wire != [] && Listeners(w) > 0 ==> Follows(w.client, w.wire[0])
  }

  lemma StepIsExactIff(journal: seq<Byte>, w: World, a: Action)
    requires CanStep(journal, w, a) && WireAboutJournal(journal, w.wire) && Inv(journal, w.client)
    ensures HearsFollowing(w, a) ==> Inv(journal, Next(journal, w, a).client)
    ensures !HearsFollowing(w, a) ==> !ExactlyOnce(journal, Next(journal, w, a).client)
  {
    StepChangesClient(journal, w, a);
    if a.Deliver? {
      assert AboutJournal(journal, w.wire[0]);
      if Listeners(w) > 0 && !Follows(w.client, w.wire[0]) {
        StrayBreaks(journal, w.client, w.wire[0], Listeners(w));
      } else if Listeners(w) > 0 {
        HeardKeepsInv(journal, w.client, w.wire[0], Listeners(w));
      }
    } else if a.ParseOne? {
      ParseKeepsInv(journal, w.client);
    }
  }

  ghost predicate AlwaysFollows(journal: seq<Byte>, w: World, actions: seq<Action>)
    decreases |actions|
  {
    actions == [] || !CanStep(journal, w, actions[0])
    || (HearsFollowing(w, actions[0]) && AlwaysFollows(journal, Next(journal, w, actions[0]), actions[1..]))
  }

  ghost predicate AlwaysExactlyOnce(journal: seq<Byte>, w: World, actions: seq<Action>)
    decreases |actions|
  {
    ExactlyOnce(journal, w.client)
    && (actions == [] || !CanStep(journal, w, actions[0])
        || AlwaysExactlyOnce(journal, Next(journal, w, actions[0]), actions[1..]))
  }

  lemma {:induction false} ExactlyOnceFromIff(journal: seq<Byte>, w: World, actions: seq<Action>, v: World)
    requires AgentValid(journal, w.agent) && WireAboutJournal(journal, w.wire) && Inv(journal, w.client)
    requires IsRun(journal, w, actions, v)
    ensures AlwaysExactlyOnce(journal, w, actions) <==> AlwaysFollows(journal, w, actions)
    decreases |actions|
  {
    InvIsExactlyOnce(journal, w.client);
    if actions != [] {
      var next := Next(journal, w, actions[0]);
      StepKeepsContract(journal, w, actions[0]);
      StepIsExactIff(journal, w, actions[0]);
      if HearsFollowing(w, actions[0]) {
        ExactlyOnceFromIff(journal, next, actions[1..], v);
      } else {
        assert !AlwaysExactlyOnce(journal, next, actions[1..]);
      }
    }
  }

  /** In every run, whatever is lost, however often the stream is re-attached and however attaches overlap:
      nothing is lost, repeated or reordered in any state if and only if every replay that is heard without
      a reset begins, and every replay that is heard ends, at the next expected byte. */
  lemma EveryRunIsExactlyOnceIff(journal: seq<Byte>, w: World, actions: seq<Action>, v: World)
    requires Initial(w) && AgentValid(journal, w.agent) && IsRun(journal, w, actions, v)
    ensures AlwaysExactlyOnce(journal, w, actions) <==> AlwaysFollows(journal, w, actions)
  {
    FreshClientIsExact(journal);
    ExactlyOnceFromIff(journal, w, actions, v);
  }

  lemma {:induction false} EndIsExactlyOnce(journal: seq<Byte>, w: World, actions: seq<Action>, v: World)
    requires IsRun(journal, w, actions, v) && AlwaysExactlyOnce(journal, w, actions)
    ensures ExactlyOnce(journal, v.client)
    decreases |actions|
  {
    if actions != [] {
      EndIsExactlyOnce(journal, Next(journal, w, actions[0]), actions[1..], v);
    }
  }

  lemma AdmissibleFollows(journal: seq<Byte>, c: Client, e: Event)
    requires Admissible(journal, c, e)
    ensures Follows(c, e)
  {
  }

  /** Where attaches do not overlap, that is always so. */
  lemma {:induction false} OrderlyAlwaysFollows(journal: seq<Byte>, w: World, actions: seq<Action>)
    requires WorldInv(journal, w) && Orderly(journal, w, actions)
    ensures AlwaysFollows(journal, w, actions)
    decreases |actions|
  {
    if actions != [] && CanStep(journal, w, actions[0]) {
      if actions[0].Deliver? && Listeners(w) > 0 {
        DeliverKeepsInv(journal, w);
        AdmissibleFollows(journal, w.client, w.wire[0]);
      }
      StepKeepsInv(journal, w, actions[0]);
      OrderlyAlwaysFollows(journal, Next(journal, w, actions[0]), actions[1..]);
    }
  }

  // ---------------------------------------------------------------- runs in which attaches do not overlap

  lemma {:induction false} RunKeepsInv(journal: seq<Byte>, w: World, actions: seq<Action>, v: World)
    requires WorldInv(journal, w) && ScreenFits(w)
    requires IsRun(journal, w, actions, v) && Orderly(journal, w, actions)
    ensures WorldInv(journal, v) && ScreenFits(v)
    decreases |actions|
  {
    if actions != [] {
      StepKeepsInv(journal, w, actions[0]);
      StepKeepsScreen(journal, w, actions[0]);
      RunKeepsInv(journal, Next(journal, w, actions[0]), actions[1..], v);
    }
  }

  lemma RunFromStart(journal: seq<Byte>, w: World, actions: seq<Action>, v: World)
    requires Initial(w) && AgentValid(journal, w.agent)
    requires IsRun(journal, w, actions, v) && Orderly(journal, w, actions)
    ensures WorldInv(journal, v) && ScreenFits(v)
  {
    InitiallySound(journal, w);
    RunKeepsInv(journal, w, actions, v);
  }

  /** In every orderly run, whatever is lost and however often the stream is re-attached: in every state the
      output written to xterm since its last reset is journal[base..nextSeq), the parsed part is
      journal[base..parsedSeq), and a reset never meets bytes xterm has not parsed yet. */
  lemma EveryRunDeliversExactlyOnce(journal: seq<Byte>, w: World, actions: seq<Action>, v: World)
    requires Initial(w) && AgentValid(journal, w.agent)
    requires IsRun(journal, w, actions, v) && Orderly(journal, w, actions)
    ensures AlwaysExactlyOnce(journal, w, actions) && ExactlyOnce(journal, v.client)
    ensures v.client.pty.nextSeq <= v.agent.head <= |journal| && v.client.term.stale == []
  {
    InitiallySound(journal, w);
    OrderlyAlwaysFollows(journal, w, actions);
    EveryRunIsExactlyOnceIff(journal, w, actions, v);
    EndIsExactlyOnce(journal, w, actions, v);
    RunFromStart(journal, w, actions, v);
  }

  lemma {:induction false} ParsedNotBeyondNext(journal: seq<Byte>, c: Client, n: nat)
    requires Chained(journal, c) && n <= |c.term.log|
    ensures SeqAfter(c.term, n) <= c.pty.nextSeq
    decreases |c.term.log| - n
  {
    if n < |c.term.log| {
      SeqAfterGrows(journal, c, n);
      ParsedNotBeyondNext(journal, c, n + 1);
    }
  }

  /** In every orderly run, while the parser is idle the sequence used to resume, to recover and to label
      a checkpoint is exact, and xterm has been given the checkpoint followed by journal[base..parsedSeq).
      That checkpoint is incomplete if and only if the connection was lost after the reset had begun and
      before its last array arrived, or that array is still to come. */
  lemma EveryIdleStateIsResumable(journal: seq<Byte>, w: World, actions: seq<Action>, v: World)
    requires Initial(w) && AgentValid(journal, w.agent)
    requires IsRun(journal, w, actions, v) && Orderly(journal, w, actions)
    requires ParserIdle(v.client.pty)
    ensures var c := v.client;
            && c.pty.parsedSeq == c.pty.nextSeq && c.term.parsed == |c.term.log|
            && c.term.base <= c.pty.parsedSeq <= |journal|
            && Written(c.term.log) == SnapshotBytes(c.term.log) + journal[c.term.base..c.pty.parsedSeq]
            && (SnapshotBytes(c.term.log) != v.screen <==> v.cut || MidCheckpoint(v))
  {
    RunFromStart(journal, w, actions, v);
    DeliveredExactlyOnce(journal, v.client);
    IdleMeansAllParsed(journal, v.client);
  }

  /** All checkpoints saved during the run stand for what their labels say. */
  ghost predicate SavesFaithfully<D>(shows: seq<Byte> -> D, journal: seq<Byte>, actions: seq<Action>) {
    forall i | 0 <= i < |actions| && actions[i].SaveCheckpoint? :: Faithful(shows, journal, actions[i].snapshot)
  }

  lemma {:induction false} RunKeepsFaith<D>(shows: seq<Byte> -> D, journal: seq<Byte>, w: World,
                                            actions: seq<Action>, v: World)
    requires WorldInv(journal, w) && FaithfulInv(shows, journal, w) && SavesFaithfully(shows, journal, actions)
    requires IsRun(journal, w, actions, v) && Orderly(journal, w, actions)
    ensures FaithfulInv(shows, journal, v)
    decreases |actions|
  {
    if actions != [] {
      StepKeepsInv(journal, w, actions[0]);
      StepKeepsFaith(shows, journal, w, actions[0]);
      forall i | 0 <= i < |actions[1..]| && actions[1..][i].SaveCheckpoint?
        ensures Faithful(shows, journal, actions[1..][i].snapshot)
      {
        assert actions[1..][i] == actions[i + 1];
      }
      RunKeepsFaith(shows, journal, Next(journal, w, actions[0]), actions[1..], v);
    }
  }

  lemma ContinuesTheSame<D>(shows: seq<Byte> -> D, journal: seq<Byte>, text: seq<Byte>, base: nat, end: nat)
    requires base <= end <= |journal| && SameScreen(shows, text, journal[..base])
    ensures SameScreen(shows, text + journal[base..end], journal[..end])
  {
    forall rest: seq<Byte> ensures shows(text + journal[base..end] + rest) == shows(journal[..end] + rest) {
      Associative(text, journal[base..end], rest);
      assert journal[..base] + (journal[base..end] + rest) == journal[..end] + rest;
    }
  }

  /** End to end: if every checkpoint saved was faithful, then an idle client whose checkpoint is whole
      and not truncated shows what the whole journal up to `parsedSeq` would show, as if nothing had ever
      been lost; and whatever text it saves for that screen is a faithful checkpoint again. */
  lemma EveryScreenShowsTheJournal<D>(shows: seq<Byte> -> D, journal: seq<Byte>, w: World, actions: seq<Action>,
                                      v: World)
    requires Initial(w) && AgentValid(journal, w.agent)
    requires w.agent.checkpoint.Some? ==> Faithful(shows, journal, w.agent.checkpoint.value)
    requires IsRun(journal, w, actions, v) && Orderly(journal, w, actions) && SavesFaithfully(shows, journal, actions)
    requires ParserIdle(v.client.pty) && !v.truncated && !v.cut && !MidCheckpoint(v)
    ensures v.client.pty.parsedSeq <= |journal|
    ensures SameScreen(shows, Written(v.client.term.log), journal[..v.client.pty.parsedSeq])
    ensures forall ansi | SameScreen(shows, ansi, Written(v.client.term.log)) ::
              Faithful(shows, journal, Snapshot(v.client.pty.parsedSeq, ansi))
  {
    EveryIdleStateIsResumable(journal, w, actions, v);
    InitiallySound(journal, w);
    assert journal[..0] == [];
    RunKeepsFaith(shows, journal, w, actions, v);
    ContinuesTheSame(shows, journal, v.screen, v.client.term.base, v.client.pty.parsedSeq);
  }

  // ---------------------------------------------------------------- where the guarantees end

  lemma RunPrepend(journal: seq<Byte>, w: World, a: Action, actions: seq<Action>, v: World)
    requires CanStep(journal, w, a) && IsRun(journal, Next(journal, w, a), actions, v)
    ensures IsRun(journal, w, [a] + actions, v)
    ensures AttachesAlone(w, a) && Orderly(journal, Next(journal, w, a), actions) ==> Orderly(journal, w, [a] + actions)
  {
    assert ([a] + actions)[1..] == actions;
  }

  /** The client that received one checkpoint array `[a]` of a replay from sequence 1. */
  function CutClient(a: Byte, parsed: bool): Client {
    Client(Pty(1, 1, if parsed then map[] else map[0 := 1], if parsed then {} else {0}, true, false, 1),
           Terminal(1, 0, [], [Chunk(0, [a], true, 1)], if parsed then 1 else 0), Ledger(true, {0}, 0, 0))
  }

  function CutAgent(a: Byte, b: Byte, live: bool): Agent {
    Agent(1, 0, Some(Snapshot(1, [a, b])), live)
  }

  /** A client that has just started. */
  function JustStarted(agent: Agent): World {
    World(FRESH_CLIENT, [], agent, true, true, false, 0, [], [], NotRecovering, [], false, false)
  }

  /** It has asked for everything and been answered with a checkpoint of two arrays. */
  function Answered(a: Byte, b: Byte): World {
    World(FRESH_CLIENT, [ReplayBegin(true, 1), CheckpointChunk([a]), CheckpointChunk([b]), ReplayEnd(1)],
          CutAgent(a, b, true), true, false, true, 0, [], [Replay(true, 1, [a, b], false)], NotRecovering,
          [], false, false)
  }

  /** One array has arrived, and the connection is lost. */
  function Cut(a: Byte, b: Byte): World {
    World(CutClient(a, false), [], CutAgent(a, b, false), false, false, false, 0, [], [], NotRecovering,
          [a, b], false, true)
  }

  lemma TwoArrays(a: Byte, b: Byte)
    ensures Concat([[a], [b]]) == [a, b]
    ensures SnapshotEvents([[a], [b]]) == [CheckpointChunk([a]), CheckpointChunk([b])]
    ensures OutputEvents([0], 1, []) == [] && Sum([]) == 0
  {
    assert [[a], [b]][1..] == [[b]] && [[b]][1..] == [];
    assert Concat([[b]]) == [b] + Concat([]);
    assert SnapshotEvents([[b]]) == [CheckpointChunk([b])] + SnapshotEvents([]);
  }

  lemma AnswerArrives(a: Byte, b: Byte, rest: seq<Action>, v: World)
    requires IsRun([0], Answered(a, b), rest, v) && Orderly([0], Answered(a, b), rest)
    ensures var start := JustStarted(CutAgent(a, b, false));
            var actions := [RequestAttach(false)] + ([Answer([[a], [b]], [])] + rest);
            IsRun([0], start, actions, v) && Orderly([0], start, actions)
  {
    var journal: seq<Byte> := [0];
    TwoArrays(a, b);
    var w0 := JustStarted(CutAgent(a, b, false));
    var w1 := Next(journal, w0, RequestAttach(false));
    var w2 := Next(journal, w1, Answer([[a], [b]], []));
    assert w2.wire == Answered(a, b).wire;
    assert w2 == Answered(a, b);
    RunPrepend(journal, w1, Answer([[a], [b]], []), rest, v);
    RunPrepend(journal, w0, RequestAttach(false), [Answer([[a], [b]], [])] + rest, v);
  }

  /** The reset has begun. */
  function Begun(a: Byte, b: Byte): World {
    Answered(a, b).(client := Client(Pty(1, 1, map[], {}, true, false, 0), Terminal(1, 0, [], [], 0),
                                     Ledger(true, {}, 0, 0)),
                    wire := [CheckpointChunk([a]), CheckpointChunk([b]), ReplayEnd(1)], screen := [a, b])
  }

  lemma ResetArrives(a: Byte, b: Byte)
    ensures Delivered(Answered(a, b)) == Begun(a, b)
  {
    assert Answered(a, b).wire[1..] == Begun(a, b).wire;
  }

  lemma FirstArrayArrives(a: Byte, b: Byte)
    ensures Delivered(Begun(a, b))
            == Begun(a, b).(client := CutClient(a, false), wire := [CheckpointChunk([b]), ReplayEnd(1)])
  {
    assert Begun(a, b).wire[1..] == [CheckpointChunk([b]), ReplayEnd(1)];
  }

  lemma ConnectionIsCut(a: Byte, b: Byte, w4: World, rest: seq<Action>, v: World)
    requires w4 == Begun(a, b).(client := CutClient(a, false), wire := [CheckpointChunk([b]), ReplayEnd(1)])
    requires IsRun([0], Cut(a, b), rest, v) && Orderly([0], Cut(a, b), rest)
    ensures IsRun([0], w4, [ConnectionLost] + rest, v) && Orderly([0], w4, [ConnectionLost] + rest)
  {
    assert Next([0], w4, ConnectionLost) == Cut(a, b);
    RunPrepend([0], w4, ConnectionLost, rest, v);
  }

  lemma DeliverFirst(journal: seq<Byte>, w: World, actions: seq<Action>, v: World)
    requires w.wire != [] && AgentValid(journal, w.agent) && w.client.term.parsed <= |w.client.term.log|
    requires IsRun(journal, Delivered(w), actions, v)
    ensures IsRun(journal, w, [Deliver] + actions, v)
    ensures Orderly(journal, Delivered(w), actions) ==> Orderly(journal, w, [Deliver] + actions)
  {
    RunPrepend(journal, w, Deliver, actions, v);
  }

  lemma ArrayArrives(a: Byte, b: Byte, rest: seq<Action>, v: World)
    requires IsRun([0], Cut(a, b), rest, v) && Orderly([0], Cut(a, b), rest)
    ensures var actions := [Deliver] + ([Deliver] + ([ConnectionLost] + rest));
            IsRun([0], Answered(a, b), actions, v) && Orderly([0], Answered(a, b), actions)
  {
    ResetArrives(a, b);
    FirstArrayArrives(a, b);
    ConnectionIsCut(a, b, Delivered(Begun(a, b)), rest, v);
    DeliverFirst([0], Begun(a, b), [ConnectionLost] + rest, v);
    DeliverFirst([0], Answered(a, b), [Deliver] + ([ConnectionLost] + rest), v);
  }

  /** A client that holds one parsed array asks to resume and is answered by an empty replay. */
  lemma EmptyReplay(a: Byte, b: Byte, w8: World) returns (actions: seq<Action>, v: World)
    requires w8 == World(CutClient(a, true), [], CutAgent(a, b, false), true, false, true, 0, [Some(1)], [],
                         NotRecovering, [a, b], false, true)
    ensures IsRun([0], w8, actions, v) && Orderly([0], w8, actions)
    ensures v == w8.(requests := [], client := v.client, agent := v.agent)
    ensures v.client.pty.parsedSeq == 1 && ParserIdle(v.client.pty) && v.client.term == CutClient(a, true).term
  {
    var journal: seq<Byte> := [0];
    var answer := Answer([], []);
    var w9 := Next(journal, w8, answer);
    assert w9.wire == [ReplayBegin(false, 1), ReplayEnd(1)];
    var w10 := Next(journal, w9, Deliver);
    assert w10.wire == [ReplayEnd(1)];
    v := Next(journal, w10, Deliver);
    RunPrepend(journal, w10, Deliver, [], v);
    RunPrepend(journal, w9, Deliver, [Deliver] + [], v);
    actions := [answer] + ([Deliver] + ([Deliver] + []));
    RunPrepend(journal, w8, answer, [Deliver] + ([Deliver] + []), v);
  }

  /** Second half: the array is parsed, the client reconnects and the agent replays nothing. */
  lemma ResumeAfterCut(a: Byte, b: Byte) returns (actions: seq<Action>, v: World)
    ensures IsRun([0], Cut(a, b), actions, v) && Orderly([0], Cut(a, b), actions)
    ensures v.cut && v.screen == [a, b] && v.wire == [] && v.subscribed && v.requests == [] && v.replays == []
    ensures v.client.pty.parsedSeq == 1 && ParserIdle(v.client.pty) && v.client.term == CutClient(a, true).term
  {
    var journal: seq<Byte> := [0];
    var w6 := Next(journal, Cut(a, b), ParseOne);
    assert w6.client == CutClient(a, true);
    var w7 := Next(journal, w6, Reconnected);
    var rest;
    rest, v := EmptyReplay(a, b, Next(journal, w7, RequestAttach(true)));
    RunPrepend(journal, w7, RequestAttach(true), rest, v);
    RunPrepend(journal, w6, Reconnected, [RequestAttach(true)] + rest, v);
    actions := [ParseOne] + ([Reconnected] + ([RequestAttach(true)] + rest));
    RunPrepend(journal, Cut(a, b), ParseOne, [Reconnected] + ([RequestAttach(true)] + rest), v);
  }

  /** A connection cut in the middle of a checkpoint leaves an idle parser whose `parsedSeq` the
      agent accepts for an incremental replay, although the checkpoint is incomplete. */
  lemma CutCheckpointIsNeverCompleted(a: Byte, b: Byte) returns (w: World, actions: seq<Action>, v: World)
    ensures Initial(w) && AgentValid([0], w.agent) && IsRun([0], w, actions, v) && Orderly([0], w, actions)
    ensures w.agent.checkpoint == Some(Snapshot(1, [a, b]))
    ensures v.subscribed && v.requests == [] && v.replays == [] && v.wire == [] && ParserIdle(v.client.pty)
    ensures v.client.pty.parsedSeq == v.client.term.base == 1
    ensures v.cut && SnapshotBytes(v.client.term.log) == [a] && v.screen == [a, b]
  {
    w := JustStarted(CutAgent(a, b, false));
    var rest;
    rest, v := ResumeAfterCut(a, b);
    ArrayArrives(a, b, rest, v);
    var later := [Deliver] + ([Deliver] + ([ConnectionLost] + rest));
    AnswerArrives(a, b, later, v);
    actions := [RequestAttach(false)] + ([Answer([[a], [b]], [])] + later);
    assert v.client.term.log[..0] == [];
  }

  // A recovery that goes on waiting while the connection is lost, and the connect after it, wait for the
  // same parser and then both attach.

  /** The client after a first, empty replay. */
  function EmptyClient(): Client {
    Client(FRESH_PTY, Terminal(0, 0, [], [], 0), Ledger(false, {}, 1, 1))
  }

  /** Two bytes are printed and the first is lost: a recovery waits for the parser. */
  function Recovering(): World {
    World(EmptyClient(), [], Agent(2, 0, None, true), true, false, false, 0, [], [], Waiting, [], false, false)
  }

  /** It survives the connection: it attaches, and so does the new connection's connect. */
  function BothAttached(): World {
    World(EmptyClient(), [], Agent(2, 0, None, false), true, false, true, 1, [Some(0), Some(0)], [], Attached,
          [], false, false)
  }

  function ReplayOf(x: Byte, y: Byte): seq<Event> {
    [ReplayBegin(false, 0), Output(0, [x, y]), ReplayEnd(2)]
  }

  function BothAnswered(x: Byte, y: Byte): World {
    var r := Replay(false, 0, [], false);
    World(EmptyClient(), ReplayOf(x, y) + ReplayOf(x, y), Agent(2, 0, None, true), true, false, true, 1, [], [r, r],
          Attached, [], false, false)
  }

  /** The first attach is answered by an empty replay. */
  function EmptyAnswer(): World {
    JustStarted(Agent(0, 0, None, true))
      .(connecting := false, subscribed := true, wire := [ReplayBegin(true, 0), ReplayEnd(0)],
        replays := [Replay(true, 0, [], false)])
  }

  /** It has arrived, and nothing is outstanding. */
  function Attended(): World {
    Recovering().(agent := Agent(0, 0, None, true), subscribed := true, recovery := NotRecovering)
  }

  lemma EmptyAnswerArrives()
    ensures Delivered(Delivered(EmptyAnswer())) == Attended()
  {
    assert EmptyAnswer().wire[1..] == [ReplayEnd(0)];
    var begun := EmptyAnswer().(wire := [ReplayEnd(0)], client := Client(FRESH_PTY.(replayActive := true),
                                  Terminal(0, 0, [], [], 0), Ledger(true, {}, 0, 0)));
    assert Delivered(EmptyAnswer()) == begun;
    assert [ReplayEnd(0)][1..] == [];
    assert Delivered(begun).client == EmptyClient();
  }

  lemma FirstReplayIsEmpty(x: Byte, y: Byte, rest: seq<Action>, v: World)
    requires IsRun([x, y], Attended(), rest, v)
    ensures IsRun([x, y], JustStarted(Agent(0, 0, None, false)),
                  [RequestAttach(false)] + ([Answer([], [])] + ([Deliver] + ([Deliver] + rest))), v)
  {
    var journal: seq<Byte> := [x, y];
    var w0 := JustStarted(Agent(0, 0, None, false));
    var w1 := Next(journal, w0, RequestAttach(false));
    var w2 := Next(journal, w1, Answer([], []));
    assert w2.wire == [ReplayBegin(true, 0), ReplayEnd(0)];
    assert w2 == EmptyAnswer();
    EmptyAnswerArrives();
    RunPrepend(journal, Delivered(w2), Deliver, rest, v);
    RunPrepend(journal, w2, Deliver, [Deliver] + rest, v);
    RunPrepend(journal, w1, Answer([], []), [Deliver] + ([Deliver] + rest), v);
    RunPrepend(journal, w0, RequestAttach(false), [Answer([], [])] + ([Deliver] + ([Deliver] + rest)), v);
  }

  lemma GapIsNoticed(x: Byte, y: Byte, rest: seq<Action>, v: World)
    requires IsRun([x, y], Recovering(), rest, v)
    ensures IsRun([x, y], Attended(),
                  [Produce(1, true)] + ([Produce(1, false)] + ([Deliver] + ([Unsubscribe] + rest))), v)
  {
    var journal: seq<Byte> := [x, y];
    var w5 := Next(journal, Attended(), Produce(1, true));
    var w6 := Next(journal, w5, Produce(1, false));
    assert journal[1..2] == [y];
    assert w6.wire == [Output(1, [y])] && w6.wire[1..] == [];
    GapChangesNothing(w6.client, 1, [y]);
    var w7 := Next(journal, w6, Deliver);
    assert Next(journal, w7, Unsubscribe) == Recovering();
    RunPrepend(journal, w7, Unsubscribe, rest, v);
    RunPrepend(journal, w6, Deliver, [Unsubscribe] + rest, v);
    RunPrepend(journal, w5, Produce(1, false), [Deliver] + ([Unsubscribe] + rest), v);
    RunPrepend(journal, Attended(), Produce(1, true), [Produce(1, false)] + ([Deliver] + ([Unsubscribe] + rest)), v);
  }

  lemma BothAttach(x: Byte, y: Byte, rest: seq<Action>, v: World)
    requires IsRun([x, y], BothAttached(), rest, v)
    ensures IsRun([x, y], Recovering(),
                  [ConnectionLost] + ([Reconnected] + ([Reattach] + ([RequestAttach(true)] + rest))), v)
  {
    var journal: seq<Byte> := [x, y];
    var w9 := Next(journal, Recovering(), ConnectionLost);
    var w10 := Next(journal, w9, Reconnected);
    var w11 := Next(journal, w10, Reattach);
    assert w11.requests == [Some(0)];
    assert Next(journal, w11, RequestAttach(true)) == BothAttached();
    RunPrepend(journal, w11, RequestAttach(true), rest, v);
    RunPrepend(journal, w10, Reattach, [RequestAttach(true)] + rest, v);
    RunPrepend(journal, w9, Reconnected, [Reattach] + ([RequestAttach(true)] + rest), v);
    RunPrepend(journal, Recovering(), ConnectionLost, [Reconnected] + ([Reattach] + ([RequestAttach(true)] + rest)), v);
  }

  lemma AnswersFromZero(x: Byte, y: Byte)
    ensures Sum([2]) == 2
    ensures AnswerEvents([x, y], ReplayPlan(false, 0, false, false), [], [2], 2) == ReplayOf(x, y)
  {
    assert [2][1..] == [] && Sum([2]) == 2 + Sum([]);
    var journal: seq<Byte> := [x, y];
    assert journal[0..2] == journal && [2][1..] == [];
    assert OutputEvents(journal, 0, [2]) == [Output(0, journal[0..2])] + OutputEvents(journal, 2, [2][1..]);
    assert OutputEvents(journal, 2, []) == [];
    assert AnswerEvents(journal, ReplayPlan(false, 0, false, false), [], [2], 2) == ReplayOf(x, y);
  }

  lemma BothAreAnswered(x: Byte, y: Byte, rest: seq<Action>, v: World)
    requires IsRun([x, y], BothAnswered(x, y), rest, v)
    ensures IsRun([x, y], BothAttached(), [Answer([], [2])] + ([Answer([], [2])] + rest), v)
  {
    var journal: seq<Byte> := [x, y];
    AnswersFromZero(x, y);
    var w13 := Next(journal, BothAttached(), Answer([], [2]));
    assert w13.requests == [Some(0)] && w13.wire == ReplayOf(x, y);
    var w14 := Next(journal, w13, Answer([], [2]));
    assert w14 == BothAnswered(x, y);
    RunPrepend(journal, w13, Answer([], [2]), rest, v);
    RunPrepend(journal, BothAttached(), Answer([], [2]), [Answer([], [2])] + rest, v);
  }

  /** The first replay has been heard twice, and its output accepted once. */
  function ReplayedOnce(x: Byte, y: Byte): World {
    BothAnswered(x, y).(
      client := Client(Pty(2, 0, map[0 := 2], {0}, false, true, 1),
                       Terminal(0, 0, [], [Chunk(0, [x, y], false, 2)], 0), Ledger(false, {0}, 3, 1)),
      wire := ReplayOf(x, y), replays := [Replay(false, 0, [], false)])
  }

  /** The second one is accepted again. */
  function ReplayedTwice(x: Byte, y: Byte): World {
    ReplayedOnce(x, y).(
      client := Client(Pty(2, 0, map[0 := 2, 1 := 2], {1}, true, false, 2),
                       Terminal(0, 0, [], [Chunk(0, [x, y], false, 2), Chunk(1, [x, y], false, 2)], 0),
                       Ledger(true, {1}, 3, 1)),
      wire := [ReplayEnd(2)])
  }

  lemma HeardTwice(c: Client, e: Event)
    requires c.term.parsed <= |c.term.log|
    ensures Heard(c, e, 2) == Receive(Step(c, Arrives(e)), e)
  {
    assert Heard(c, e, 2) == Heard(Step(c, Arrives(e)), e, 1);
  }

  lemma BeginHeard(w: World, rest: seq<Event>)
    requires w.wire == [ReplayBegin(false, 0)] + rest && Listeners(w) == 2
    requires w.client.term.parsed <= |w.client.term.log|
    ensures Delivered(w) == w.(wire := rest, client := Receive(w.client, ReplayBegin(false, 0)))
  {
    HeardTwice(w.client, w.wire[0]);
    assert w.wire[1..] == rest;
  }

  lemma OutputHeard(w: World, bytes: seq<Byte>, rest: seq<Event>)
    requires w.wire == [Output(0, bytes)] + rest && Listeners(w) == 2 && bytes != []
    requires w.client.term.parsed <= |w.client.term.log| && w.client.pty.nextSeq == 0
    ensures Delivered(w) == w.(wire := rest, client := Receive(w.client, Output(0, bytes)))
  {
    HeardTwice(w.client, w.wire[0]);
    assert w.wire[1..] == rest;
  }

  lemma FirstReplayHeard(x: Byte, y: Byte)
    ensures Delivered(Delivered(Delivered(BothAnswered(x, y)))) == ReplayedOnce(x, y)
  {
    var w := BothAnswered(x, y);
    assert w.wire == [ReplayBegin(false, 0)] + ([Output(0, [x, y])] + ([ReplayEnd(2)] + ReplayOf(x, y)));
    BeginHeard(w, [Output(0, [x, y])] + ([ReplayEnd(2)] + ReplayOf(x, y)));
    OutputHeard(Delivered(w), [x, y], [ReplayEnd(2)] + ReplayOf(x, y));
    var ended := Delivered(Delivered(w));
    HeardTwice(ended.client, ended.wire[0]);
    assert ended.wire[1..] == ReplayOf(x, y);
    assert Delivered(ended).client == ReplayedOnce(x, y).client;
  }

  lemma SecondReplayHeard(x: Byte, y: Byte)
    ensures Delivered(Delivered(ReplayedOnce(x, y))) == ReplayedTwice(x, y)
  {
    var w := ReplayedOnce(x, y);
    assert w.wire == [ReplayBegin(false, 0)] + ([Output(0, [x, y])] + [ReplayEnd(2)]);
    BeginHeard(w, [Output(0, [x, y])] + [ReplayEnd(2)]);
    OutputHeard(Delivered(w), [x, y], [ReplayEnd(2)]);
  }

  lemma TwiceWritten(first: Chunk, second: Chunk, bytes: seq<Byte>)
    requires !first.snapshot && !second.snapshot && first.bytes == second.bytes == bytes
    ensures OutputBytes([first, second]) == bytes + bytes
  {
    assert [first, second][..1] == [first] && [first][..0] == [];
    assert OutputBytes([first]) == OutputBytes([]) + bytes;
    assert OutputBytes([first, second]) == OutputBytes([first]) + bytes;
  }

  function HeardFive(): seq<Action> {
    [Deliver] + ([Deliver] + ([Deliver] + ([Deliver] + ([Deliver] + []))))
  }

  lemma AllIsHeard(x: Byte, y: Byte)
    ensures IsRun([x, y], BothAnswered(x, y), HeardFive(), ReplayedTwice(x, y))
  {
    FirstReplayHeard(x, y);
    SecondReplayHeard(x, y);
    var journal: seq<Byte> := [x, y];
    var w0, w3 := BothAnswered(x, y), ReplayedOnce(x, y);
    var w1, v := Delivered(w0), ReplayedTwice(x, y);
    DeliverFirst(journal, Delivered(w3), [], v);
    DeliverFirst(journal, w3, [Deliver] + [], v);
    DeliverFirst(journal, Delivered(w1), [Deliver] + ([Deliver] + []), v);
    DeliverFirst(journal, w1, [Deliver] + ([Deliver] + ([Deliver] + [])), v);
    DeliverFirst(journal, w0, [Deliver] + ([Deliver] + ([Deliver] + ([Deliver] + []))), v);
  }

  function AnsweredTwice(): seq<Action> {
    [Answer([], [2])] + ([Answer([], [2])] + HeardFive())
  }

  function AttachedTwice(): seq<Action> {
    [ConnectionLost] + ([Reconnected] + ([Reattach] + ([RequestAttach(true)] + AnsweredTwice())))
  }

  function GapNoticed(): seq<Action> {
    [Produce(1, true)] + ([Produce(1, false)] + ([Deliver] + ([Unsubscribe] + AttachedTwice())))
  }

  function OverlappingRun(): seq<Action> {
    [RequestAttach(false)] + ([Answer([], [])] + ([Deliver] + ([Deliver] + GapNoticed())))
  }

  /** A run in which recovery and reconnect both attach: what the session printed is written twice, and
      nothing fails. */
  lemma OverlappingAttachesRepeatOutput(x: Byte, y: Byte) returns (w: World, actions: seq<Action>, v: World)
    ensures Initial(w) && AgentValid([x, y], w.agent) && IsRun([x, y], w, actions, v)
    ensures actions == OverlappingRun()
    ensures OutputBytes(v.client.term.log) == [x, y] + [x, y] && v.client.pty.nextSeq == 2
    ensures !AlwaysFollows([x, y], w, actions)
  {
    w, v, actions := JustStarted(Agent(0, 0, None, false)), ReplayedTwice(x, y), OverlappingRun();
    AllIsHeard(x, y);
    BothAreAnswered(x, y, HeardFive(), v);
    BothAttach(x, y, AnsweredTwice(), v);
    GapIsNoticed(x, y, AttachedTwice(), v);
    FirstReplayIsEmpty(x, y, GapNoticed(), v);
    TwiceWritten(Chunk(0, [x, y], false, 2), Chunk(1, [x, y], false, 2), [x, y]);
    RepeatedIsNotExact(x, y, w, actions, v);
  }

  lemma RepeatedIsNotExact(x: Byte, y: Byte, w: World, actions: seq<Action>, v: World)
    requires Initial(w) && AgentValid([x, y], w.agent) && IsRun([x, y], w, actions, v)
    requires |OutputBytes(v.client.term.log)| == 4
    ensures !AlwaysFollows([x, y], w, actions)
  {
    EveryRunIsExactlyOnceIff([x, y], w, actions, v);
    if AlwaysExactlyOnce([x, y], w, actions) {
      EndIsExactlyOnce([x, y], w, actions, v);
    }
  }
}
