/** What is missed can be caught up with (src/lib/pty.ts): from every state after a gap was heard, and from
    every new connection, the endpoint's own steps lead to a client that has parsed all there is. */
module ReplayRecovery {
  import opened Common
  import opened RemoteSequence
  import opened OutputStream
  import opened ReplayProtocol

  /** The client has been given everything the agent has, and has parsed it; no attach is outstanding. */
  predicate CaughtUp(w: World) {
    && ParserIdle(w.client.pty) && w.client.pty.parsedSeq == w.client.pty.nextSeq == w.agent.head
    && w.subscribed && w.wire == [] && w.requests == [] && w.replays == [] && w.recovery == NotRecovering
  }

  /** The same system but for the client and the wire, and what they note about the replays. */
  predicate SameSystem(w: World, v: World) {
    && v.agent == w.agent && v.connected == w.connected && v.connecting == w.connecting
    && v.subscribed == w.subscribed && v.orphans == w.orphans && v.requests == w.requests
    && (v.recovery == w.recovery || (w.recovery == NotRecovering && v.recovery == Started))
  }

  // ---------------------------------------------------------------- letting things go on

  lemma ParseGoesOn(journal: seq<Byte>, w: World)
    requires WorldInv(journal, w) && !ParserIdle(w.client.pty)
    ensures var c, d := w.client, Parse(w.client);
            && c.term.parsed < |c.term.log| && d.term.parsed == c.term.parsed + 1 && d.term.log == c.term.log
            && d.pty.nextSeq == c.pty.nextSeq
  {
    IdleMeansAllParsed(journal, w.client);
  }

  /** xterm parses all it has been given. */
  lemma {:induction false} ParsesAll(journal: seq<Byte>, w: World) returns (actions: seq<Action>, v: World)
    requires WorldInv(journal, w)
    ensures IsRun(journal, w, actions, v) && Orderly(journal, w, actions) && WorldInv(journal, v)
    ensures ParserIdle(v.client.pty) && v.client.pty.nextSeq == w.client.pty.nextSeq && v == w.(client := v.client)
    decreases |w.client.term.log| - w.client.term.parsed
  {
    actions, v := [], w;
    if !ParserIdle(w.client.pty) {
      ParseGoesOn(journal, w);
      StepKeepsInv(journal, w, ParseOne);
      actions, v := ParsesAll(journal, Next(journal, w, ParseOne));
      RunPrepend(journal, w, ParseOne, actions, v);
      actions := [ParseOne] + actions;
    }
  }

  /** Everything on the wire of `w` has arrived at `v`. */
  predicate Arrived(w: World, v: World) {
    && SameSystem(w, v) && v.wire == [] && (!w.subscribed ==> v.client == w.client)
    && (w.wire == [] ==> v == w)
    && (w.subscribed && w.wire != [] && w.wire[|w.wire| - 1].ReplayEnd? ==>
          v.client.pty.nextSeq == w.wire[|w.wire| - 1].nextSeq)
  }

  /** The next event on the wire of `w` has arrived at `v`. */
  predicate OneArrived(w: World, v: World)
    requires w.wire != []
  {
    && SameSystem(w, v) && v.wire == w.wire[1..] && (!w.subscribed ==> v.client == w.client)
    && (w.subscribed && w.wire[0].ReplayEnd? ==> v.client.pty.nextSeq == w.wire[0].nextSeq)
  }

  lemma DeliverHeard(journal: seq<Byte>, w: World)
    requires WorldInv(journal, w) && w.wire != [] && w.subscribed
    ensures OneArrived(w, Delivered(w))
  {
    DeliveredOnce(journal, w);
  }

  lemma DeliverUnheard(journal: seq<Byte>, w: World)
    requires WorldInv(journal, w) && w.wire != [] && !w.subscribed
    ensures OneArrived(w, Delivered(w))
  {
  }

  lemma ArrivedLater(w: World, u: World, v: World)
    requires w.wire != [] && OneArrived(w, u) && Arrived(u, v)
    ensures Arrived(w, v)
  {
    if |w.wire| > 1 {
      assert u.wire[|u.wire| - 1] == w.wire[|w.wire| - 1];
    }
  }

  /** Everything on the wire arrives. */
  lemma {:induction false} DeliversAll(journal: seq<Byte>, w: World) returns (actions: seq<Action>, v: World)
    requires WorldInv(journal, w)
    ensures IsRun(journal, w, actions, v) && Orderly(journal, w, actions) && WorldInv(journal, v)
    ensures Arrived(w, v)
    decreases |w.wire|
  {
    actions, v := [], w;
    if w.wire != [] {
      if w.subscribed {
        DeliverHeard(journal, w);
      } else {
        DeliverUnheard(journal, w);
      }
      StepKeepsInv(journal, w, Deliver);
      var u := Next(journal, w, Deliver);
      actions, v := DeliversAll(journal, u);
      ArrivedLater(w, u, v);
      RunPrepend(journal, w, Deliver, actions, v);
      actions := [Deliver] + actions;
    }
  }

  /** The agent answers a request in one piece. */
  function WholeAnswer(a: Agent, after: Option<nat>): Action
    requires PlanFor(a, after).includeCheckpoint ==> a.checkpoint.Some?
    requires PlanFor(a, after).baseSeq <= a.head
  {
    var plan := PlanFor(a, after);
    Answer(if plan.includeCheckpoint && a.checkpoint.value.ansi != [] then [a.checkpoint.value.ansi] else [],
           [a.head - plan.baseSeq])
  }

  lemma AnswerIsPossible(journal: seq<Byte>, w: World)
    requires WorldInv(journal, w) && w.requests != []
    ensures var plan := PlanFor(w.agent, w.requests[0]);
            (plan.includeCheckpoint ==> w.agent.checkpoint.Some?) && plan.baseSeq <= w.agent.head
    ensures Enabled(journal, w, WholeAnswer(w.agent, w.requests[0]))
    ensures var v := Next(journal, w, WholeAnswer(w.agent, w.requests[0]));
            && v.wire[|v.wire| - 1] == ReplayEnd(w.agent.head) && v.requests == w.requests[1..]
            && v.agent == w.agent.(live := true) && v.client == w.client && v.subscribed && v.recovery == w.recovery
  {
    var plan := PlanFor(w.agent, w.requests[0]);
    TruncatedIffNothingConnects(journal, w.agent, w.requests[0]);
    var sizes := [w.agent.head - plan.baseSeq];
    assert sizes[1..] == [] && Sum(sizes) == sizes[0] + Sum(sizes[1..]);
    if plan.includeCheckpoint {
      var ansi := w.agent.checkpoint.value.ansi;
      var parts: seq<seq<Byte>> := [ansi];
      assert parts[1..] == [] && Concat(parts) == ansi + Concat(parts[1..]);
    }
  }

  lemma {:induction false} RunsJoin(journal: seq<Byte>, w: World, first: seq<Action>, u: World, second: seq<Action>,
                                    v: World)
    requires IsRun(journal, w, first, u) && IsRun(journal, u, second, v)
    ensures IsRun(journal, w, first + second, v)
    decreases |first|
  {
    if first == [] {
      assert first + second == second;
    } else {
      RunsJoin(journal, Next(journal, w, first[0]), first[1..], u, second, v);
      assert (first + second)[0] == first[0] && (first + second)[1..] == first[1..] + second;
    }
  }

  lemma {:induction false} OrderlyRunsJoin(journal: seq<Byte>, w: World, first: seq<Action>, u: World,
                                           second: seq<Action>)
    requires IsRun(journal, w, first, u) && Orderly(journal, w, first) && Orderly(journal, u, second)
    ensures Orderly(journal, w, first + second)
    decreases |first|
  {
    if first == [] {
      assert first + second == second;
    } else {
      OrderlyRunsJoin(journal, Next(journal, w, first[0]), first[1..], u, second);
      assert (first + second)[0] == first[0] && (first + second)[1..] == first[1..] + second;
    }
  }

  lemma RunJoin(journal: seq<Byte>, w: World, first: seq<Action>, u: World, second: seq<Action>, v: World)
    requires IsRun(journal, w, first, u) && Orderly(journal, w, first)
    requires IsRun(journal, u, second, v) && Orderly(journal, u, second)
    ensures IsRun(journal, w, first + second, v) && Orderly(journal, w, first + second)
  {
    RunsJoin(journal, w, first, u, second, v);
    OrderlyRunsJoin(journal, w, first, u, second);
  }

  /** From a request on: the agent answers, the answer arrives and is parsed, and nothing is missing. */
  lemma RequestCatchesUp(journal: seq<Byte>, w: World) returns (actions: seq<Action>, v: World)
    requires WorldInv(journal, w) && w.requests != [] && w.recovery in {NotRecovering, Attached}
    ensures IsRun(journal, w, actions, v) && Orderly(journal, w, actions) && WorldInv(journal, v)
    ensures CaughtUp(v) && v.agent == w.agent.(live := true)
  {
    AnswerIsPossible(journal, w);
    var answer := WholeAnswer(w.agent, w.requests[0]);
    var u := Next(journal, w, answer);
    StepKeepsInv(journal, w, answer);
    actions, v := AnswerCatchesUp(journal, u);
    RunPrepend(journal, w, answer, actions, v);
    actions := [answer] + actions;
  }

  lemma AnswerCatchesUp(journal: seq<Byte>, w: World) returns (actions: seq<Action>, v: World)
    requires WorldInv(journal, w) && w.requests == [] && w.subscribed && w.recovery in {NotRecovering, Attached}
    requires w.wire != [] && w.wire[|w.wire| - 1] == ReplayEnd(w.agent.head)
    ensures IsRun(journal, w, actions, v) && Orderly(journal, w, actions) && WorldInv(journal, v)
    ensures CaughtUp(v) && v.agent == w.agent
  {
    var deliver, u := DeliversAll(journal, w);
    AllHasArrived(journal, w, u);
    var parse, parsed := ParsesAll(journal, u);
    IdleMeansAllParsed(journal, parsed.client);
    var done;
    done, v := RecoveryEnds(journal, parsed);
    RunJoin(journal, u, parse, parsed, done, v);
    RunJoin(journal, w, deliver, u, parse + done, v);
    actions := deliver + (parse + done);
  }

  lemma RecoveryEnds(journal: seq<Byte>, w: World) returns (actions: seq<Action>, v: World)
    requires WorldInv(journal, w) && w.requests == [] && w.replays == [] && w.recovery in {NotRecovering, Attached}
    ensures IsRun(journal, w, actions, v) && Orderly(journal, w, actions) && WorldInv(journal, v)
    ensures v == w.(recovery := NotRecovering)
  {
    actions, v := [], w;
    if w.recovery == Attached {
      StepKeepsInv(journal, w, RecoveryDone);
      v := Next(journal, w, RecoveryDone);
      assert IsRun(journal, v, [], v);
      RunPrepend(journal, w, RecoveryDone, [], v);
      actions := [RecoveryDone] + [];
    }
  }

  /** Once the whole answer has arrived, no replay is outstanding and no gap is left. */
  lemma AllHasArrived(journal: seq<Byte>, w: World, v: World)
    requires WorldInv(journal, v) && SameSystem(w, v) && v.wire == [] && v.subscribed && v.requests == []
    requires v.client.pty.nextSeq == v.agent.head && w.recovery in {NotRecovering, Attached}
    ensures v.replays == [] && v.recovery == w.recovery
  {
  }

  // ---------------------------------------------------------------- gaps and new connections

  /** A gap that is heard starts a recovery, if none is running. */
  lemma GapStartsRecovery(w: World)
    requires w.wire != [] && w.client.term.parsed <= |w.client.term.log| && Listeners(w) > 0
    requires w.wire[0].Output? && w.wire[0].startSeq > w.client.pty.nextSeq
    ensures Delivered(w).recovery != NotRecovering
    ensures w.recovery == NotRecovering ==> Delivered(w).recovery == Started
  {
  }

  /** Wherever an orderly run has heard a gap, it can go on to a state in which nothing is missing. */
  lemma GapIsRecovered(journal: seq<Byte>, start: World, past: seq<Action>, w: World)
    returns (actions: seq<Action>, v: World)
    requires Initial(start) && AgentValid(journal, start.agent)
    requires IsRun(journal, start, past, w) && Orderly(journal, start, past) && w.recovery == Started
    ensures IsRun(journal, w, actions, v) && Orderly(journal, w, actions)
    ensures CaughtUp(v) && v.agent.head == w.agent.head
  {
    RunFromStart(journal, start, past, w);
    StepKeepsInv(journal, w, Unsubscribe);
    var w1 := Next(journal, w, Unsubscribe);
    var deliver, w2 := DeliversAll(journal, w1);
    actions, v := WaitingCatchesUp(journal, w2);
    RunJoin(journal, w1, deliver, w2, actions, v);
    actions := deliver + actions;
    RunPrepend(journal, w, Unsubscribe, actions, v);
    actions := [Unsubscribe] + actions;
  }

  /** A recovery that waits, with a connection and nothing subscribed: the parser ends, and it attaches. */
  lemma WaitingCatchesUp(journal: seq<Byte>, w: World) returns (actions: seq<Action>, v: World)
    requires WorldInv(journal, w) && w.recovery == Waiting && w.connected && !w.subscribed
    ensures IsRun(journal, w, actions, v) && Orderly(journal, w, actions)
    ensures CaughtUp(v) && v.agent.head == w.agent.head
  {
    var parse, u := ParsesAll(journal, w);
    assert Enabled(journal, u, Reattach) && AttachesAlone(u, Reattach);
    StepKeepsInv(journal, u, Reattach);
    actions, v := RequestCatchesUp(journal, Next(journal, u, Reattach));
    RunPrepend(journal, u, Reattach, actions, v);
    RunJoin(journal, w, parse, u, [Reattach] + actions, v);
    actions := parse + ([Reattach] + actions);
  }

  /** Wherever an orderly run has a new connection, with no recovery under way, the connect that resumes can
      go on to a state in which nothing is missing. */
  lemma ConnectionCatchesUp(journal: seq<Byte>, start: World, past: seq<Action>, w: World)
    returns (actions: seq<Action>, v: World)
    requires Initial(start) && AgentValid(journal, start.agent)
    requires IsRun(journal, start, past, w) && Orderly(journal, start, past)
    requires w.connected && w.connecting && !w.subscribed && w.recovery == NotRecovering
    ensures IsRun(journal, w, actions, v) && Orderly(journal, w, actions)
    ensures CaughtUp(v) && v.agent.head == w.agent.head
  {
    RunFromStart(journal, start, past, w);
    var parse, w1 := ParsesAll(journal, w);
    assert Enabled(journal, w1, RequestAttach(true)) && AttachesAlone(w1, RequestAttach(true));
    StepKeepsInv(journal, w1, RequestAttach(true));
    actions, v := RequestCatchesUp(journal, Next(journal, w1, RequestAttach(true)));
    RunPrepend(journal, w1, RequestAttach(true), actions, v);
    RunJoin(journal, w, parse, w1, [RequestAttach(true)] + actions, v);
    actions := parse + ([RequestAttach(true)] + actions);
  }

  /** However an orderly run has gone so far, it can go on to a state in which nothing is missing: at worst
      the connection is lost, a recovery that waits finds no host, and the next connection resumes. */
  lemma EveryStateCanCatchUp(journal: seq<Byte>, start: World, past: seq<Action>, w: World)
    returns (actions: seq<Action>, v: World)
    requires Initial(start) && AgentValid(journal, start.agent)
    requires IsRun(journal, start, past, w) && Orderly(journal, start, past)
    ensures IsRun(journal, w, actions, v) && Orderly(journal, w, actions)
    ensures CaughtUp(v) && v.agent.head == w.agent.head
  {
    RunFromStart(journal, start, past, w);
    var offline, w1 := GoesOffline(journal, w);
    var reconnect := Reconnected;
    StepKeepsInv(journal, w1, reconnect);
    var w2 := Next(journal, w1, reconnect);
    assert IsRun(journal, w2, [], w2);
    RunPrepend(journal, w1, reconnect, [], w2);
    RunJoin(journal, w, offline, w1, [reconnect] + [], w2);
    RunJoin(journal, start, past, w, offline + ([reconnect] + []), w2);
    actions, v := ConnectionCatchesUp(journal, start, past + (offline + ([reconnect] + [])), w2);
    RunJoin(journal, w, offline + ([reconnect] + []), w2, actions, v);
    actions := offline + ([reconnect] + []) + actions;
  }

  /** The connection is lost, and whatever waits for the parser ends. */
  lemma GoesOffline(journal: seq<Byte>, w: World) returns (actions: seq<Action>, v: World)
    requires WorldInv(journal, w)
    ensures IsRun(journal, w, actions, v) && Orderly(journal, w, actions) && WorldInv(journal, v)
    ensures !v.connected && !v.subscribed && v.recovery == NotRecovering && v.agent.head == w.agent.head
  {
    actions, v := [], w;
    if w.connected {
      StepKeepsInv(journal, w, ConnectionLost);
      v := Next(journal, w, ConnectionLost);
      assert IsRun(journal, v, [], v);
      RunPrepend(journal, w, ConnectionLost, [], v);
      actions := [ConnectionLost] + [];
    }
    if v.recovery == Waiting {
      var give, idle := GivesUp(journal, v);
      RunJoin(journal, w, actions, v, give, idle);
      actions, v := actions + give, idle;
    }
  }

  lemma GivesUp(journal: seq<Byte>, w: World) returns (actions: seq<Action>, v: World)
    requires WorldInv(journal, w) && w.recovery == Waiting && !w.connected
    ensures IsRun(journal, w, actions, v) && Orderly(journal, w, actions) && WorldInv(journal, v)
    ensures !v.connected && !v.subscribed && v.recovery == NotRecovering && v.agent.head == w.agent.head
  {
    var parse, u := ParsesAll(journal, w);
    StepKeepsInv(journal, u, GiveUp);
    v := Next(journal, u, GiveUp);
    assert IsRun(journal, v, [], v);
    RunPrepend(journal, u, GiveUp, [], v);
    RunJoin(journal, w, parse, u, [GiveUp] + [], v);
    actions := parse + ([GiveUp] + []);
  }
}
