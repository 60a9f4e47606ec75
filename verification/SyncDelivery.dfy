/** What becomes of each queued mutation (src/lib/workspace-sync.ts): it is not dropped before its end, a
    conflict is retried once, and what was answered has been executed. */
module SyncDelivery {
  import opened Common
  import opened WorkspaceSyncing
  import opened SyncProtocol

  // ---------------------------------------------------------------- how mutations leave the queue

  /** The head mutation hears that its request came with an old revision. */
  predicate Conflicts(w: World, a: Action) {
    a.Receive? && w.phase.Applying? && w.phase.reply.Some? && w.phase.reply.value.Conflict?
  }

  /** The document that the head mutation asked for arrives. */
  predicate Fetches(w: World, a: Action) {
    a.Receive? && w.phase.Getting? && w.phase.reply.Some? && w.phase.reply.value.Doc?
  }

  function Attempt(phase: Phase): nat {
    if phase.Getting? || phase.Leasing? || phase.Applying? then phase.attempt else 1
  }

  /** The mutation at the head, or the next one to be queued, has had a conflict before. */
  ghost predicate ConflictBefore(states: seq<World>, actions: seq<Action>, i: nat)
    requires i < |states| == |actions| + 1
  {
    exists k | 0 <= k < i :: Conflicts(states[k], actions[k]) && Current(states[k]) == Current(states[i])
  }

  /** A step ends the head mutation, or goes on with it. */
  lemma StepEndsOrGoesOn(w: World, a: Action)
    requires Base(w) && Enabled(w, a)
    ensures var v := Next(w, a);
            if a.Fail? || (a.Receive? && !Fetches(w, a) && !(Conflicts(w, a) && w.phase.attempt == 1)) then
              Current(v) == Current(w) + 1 && v.tasks == w.tasks[1..] && v.phase.Waiting?
            else
              && Current(v) == Current(w) && w.tasks <= v.tasks
              && Attempt(v.phase) == if Conflicts(w, a) then 2 else Attempt(w.phase)
  {
  }

  lemma {:induction false} CurrentGrows(states: seq<World>, actions: seq<Action>, i: nat, j: nat)
    requires IsRun(states, actions) && i <= j < |states|
    ensures Current(states[i]) <= Current(states[j])
    decreases j
  {
    if i < j {
      CurrentGrows(states, actions, i, j - 1);
      RunKeepsQueueInv(states, actions, j - 1);
      assert StepAt(states, actions, j - 1);
      StepEndsOrGoesOn(states[j - 1], actions[j - 1]);
    }
  }

  lemma ConflictBeforeNext(states: seq<World>, actions: seq<Action>, i: nat)
    requires IsRun(states, actions) && i < |actions|
    ensures ConflictBefore(states, actions, i + 1)
            <==> Current(states[i + 1]) == Current(states[i])
                 && (ConflictBefore(states, actions, i) || Conflicts(states[i], actions[i]))
  {
    if ConflictBefore(states, actions, i + 1) {
      var k :| 0 <= k < i + 1 && Conflicts(states[k], actions[k]) && Current(states[k]) == Current(states[i + 1]);
      CurrentGrows(states, actions, k, i);
      CurrentGrows(states, actions, i, i + 1);
    }
  }

  /** In every run, a mutation is in its second try exactly if it has had a conflict. */
  lemma {:induction false} SecondTryIffConflict(states: seq<World>, actions: seq<Action>, i: nat)
    requires IsRun(states, actions) && i < |states|
    ensures Attempt(states[i].phase) == if ConflictBefore(states, actions, i) then 2 else 1
  {
    if i > 0 {
      SecondTryIffConflict(states, actions, i - 1);
      ConflictBeforeNext(states, actions, i - 1);
      TryGoesOn(states, actions, i - 1);
    }
  }

  lemma TryGoesOn(states: seq<World>, actions: seq<Action>, i: nat)
    requires IsRun(states, actions) && i < |actions|
    ensures Attempt(states[i + 1].phase)
            == if Current(states[i + 1]) != Current(states[i]) then 1
               else if Conflicts(states[i], actions[i]) then 2
               else Attempt(states[i].phase)
  {
    RunKeepsQueueInv(states, actions, i);
    assert StepAt(states, actions, i);
    StepEndsOrGoesOn(states[i], actions[i]);
  }

  /** In every run, the head mutation leaves the queue if and only if it fails, or hears anything but the
      document it asked for or its first conflict.  After that conflict it is still the head, and its
      document is fetched again. */
  lemma HeadLeavesIff(states: seq<World>, actions: seq<Action>, i: nat)
    requires IsRun(states, actions) && i < |actions|
    ensures var w, a, v := states[i], actions[i], states[i + 1];
            && (Current(v) != Current(w) <==>
                  || a.Fail?
                  || (a.Receive? && !Fetches(w, a) && !(Conflicts(w, a) && !ConflictBefore(states, actions, i))))
            && (Current(v) != Current(w) ==> Current(v) == Current(w) + 1 && w.tasks != [] && v.tasks == w.tasks[1..])
            && (Current(v) == Current(w) ==> w.tasks <= v.tasks)
            && (Conflicts(w, a) && !ConflictBefore(states, actions, i) ==>
                  v.tasks == w.tasks && v.phase == Getting(2, None))
  {
    RunKeepsQueueInv(states, actions, i);
    assert StepAt(states, actions, i);
    StepEndsOrGoesOn(states[i], actions[i]);
    SecondTryIffConflict(states, actions, i);
  }

  // ---------------------------------------------------------------- at which revision it is sent

  /** The head mutation is about to send its operation at this revision, or has sent it. */
  predicate AtRevision(phase: Phase, base: nat) {
    (phase.Leasing? || phase.Applying?) && phase.base == base
  }

  /** Its document has been fetched at this revision, or it sends the operation at it. */
  predicate FetchedAt(phase: Phase, version: Version) {
    phase == Getting(Attempt(phase), Some(Doc(version))) || AtRevision(phase, version.revision)
  }

  lemma StepKeepsRevision(w: World, a: Action, version: Version)
    requires Base(w) && Enabled(w, a) && FetchedAt(w.phase, version) && !Conflicts(w, a)
    requires Current(Next(w, a)) == Current(w)
    ensures FetchedAt(Next(w, a).phase, version)
    ensures AtRevision(w.phase, version.revision) ==> AtRevision(Next(w, a).phase, version.revision)
  {
    StepEndsOrGoesOn(w, a);
  }

  lemma {:induction false} RevisionStays(states: seq<World>, actions: seq<Action>, i: nat, j: nat, version: Version)
    requires IsRun(states, actions) && i <= j < |states| && FetchedAt(states[i].phase, version)
    requires Current(states[i]) == Current(states[j]) && forall k | i <= k < j :: !Conflicts(states[k], actions[k])
    ensures FetchedAt(states[j].phase, version)
    ensures AtRevision(states[i].phase, version.revision) ==> AtRevision(states[j].phase, version.revision)
    decreases j
  {
    if i < j {
      CurrentGrows(states, actions, i, j - 1);
      CurrentGrows(states, actions, j - 1, j);
      RevisionStays(states, actions, i, j - 1, version);
      RunKeepsQueueInv(states, actions, j - 1);
      assert StepAt(states, actions, j - 1);
      StepKeepsRevision(states[j - 1], actions[j - 1], version);
    }
  }

  /** An operation is sent at the revision of the document fetched for it, or, before any conflict, at the
      one remembered when it began. */
  lemma SentAtKnownRevision(states: seq<World>, actions: seq<Action>, i: nat, j: nat)
    requires IsRun(states, actions) && i < j < |states| && states[j].phase.Applying?
    requires Current(states[i]) == Current(states[j]) && forall k | i < k < j :: !Conflicts(states[k], actions[k])
    ensures actions[i].AnswerGet? ==> states[j].phase.base == |states[i].agent.versions|
    ensures actions[i].Begin? && states[i].slot.revision.Some? ==>
              states[j].phase.base == states[i].slot.revision.value
  {
    RunKeepsQueueInv(states, actions, i);
    assert StepAt(states, actions, i);
    StepEndsOrGoesOn(states[i], actions[i]);
    CurrentGrows(states, actions, i + 1, j);
    if actions[i].AnswerGet? {
      RevisionStays(states, actions, i + 1, j, Newest(states[i].agent));
    } else if actions[i].Begin? && states[i].slot.revision.Some? {
      BeginsAsItEnds(states, actions, i, j);
      RevisionStays(states, actions, i + 1, j, states[i].slot.document.value);
    }
  }

  /** A mutation that sends an operation is one. */
  lemma {:induction false} BeginsAsItEnds(states: seq<World>, actions: seq<Action>, i: nat, j: nat)
    requires IsRun(states, actions) && i < j < |states| && Current(states[i]) == Current(states[j])
    requires states[i].tasks != [] && states[j].phase.Applying?
    ensures states[i].tasks[0].Operate?
    decreases j
  {
    RunKeepsQueueInv(states, actions, j);
    HeadStays(states, actions, i, j);
  }

  lemma {:induction false} HeadStays(states: seq<World>, actions: seq<Action>, i: nat, j: nat)
    requires IsRun(states, actions) && i <= j < |states| && Current(states[i]) == Current(states[j])
    ensures states[i].tasks <= states[j].tasks
    decreases j
  {
    if i < j {
      CurrentGrows(states, actions, i, j - 1);
      CurrentGrows(states, actions, j - 1, j);
      HeadStays(states, actions, i, j - 1);
      HeadLeavesIff(states, actions, j - 1);
    }
  }

  /** If the agent has not changed since it gave the document, it executes an operation that it does not
      reject, once the request arrives; and if the answer arrives too, it is the new document. */
  lemma FetchedOperationIsExecuted(states: seq<World>, actions: seq<Action>, i: nat, j: nat)
    requires IsRun(states, actions) && i < j < |actions| && actions[i].AnswerGet? && actions[j].AnswerApply?
    requires Current(states[i]) == Current(states[j]) && forall k | i < k < j :: !Conflicts(states[k], actions[k])
    requires states[i].agent == states[j].agent && !actions[j].outcome.Rejected?
    ensures var w, v := states[j], states[j + 1];
            && Current(w) >= 0 && v.agent.versions != []
            && v.log == w.log + [Entry(Current(w), |w.agent.versions|, actions[j].outcome.Changed?, false)]
            && v.agent.versions == w.agent.versions + (if actions[j].outcome.Changed? then [actions[j].outcome.content]
                                                       else [])
            && (!actions[j].lost ==> v.phase.Applying? && v.phase.reply == Some(Doc(Newest(v.agent))))
  {
    assert StepAt(states, actions, i) && StepAt(states, actions, j);
    RunKeepsQueueInv(states, actions, j);
    SentAtKnownRevision(states, actions, i, j);
  }

  lemma {:induction false} VersionsGrow(states: seq<World>, actions: seq<Action>, i: nat, j: nat)
    requires IsRun(states, actions) && i <= j < |states| && states[i].agent.versions != []
    ensures states[i].agent.versions <= states[j].agent.versions
    decreases j
  {
    if i < j {
      VersionsGrow(states, actions, i, j - 1);
      RunKeepsQueueInv(states, actions, j - 1);
      assert StepAt(states, actions, j - 1);
      StepKeepsVersions(states[j - 1], actions[j - 1]);
    }
  }

  lemma StepKeepsVersions(w: World, a: Action)
    requires WellFormed(w) && Enabled(w, a) && w.agent.versions != []
    ensures w.agent.versions <= Next(w, a).agent.versions
  {
  }

  /** The request meets a conflict if and only if the document has changed since it was fetched. */
  lemma ConflictIffChanged(states: seq<World>, actions: seq<Action>, i: nat, j: nat)
    requires IsRun(states, actions) && i < j < |actions| && actions[i].AnswerGet? && actions[j].AnswerApply?
    requires Current(states[i]) == Current(states[j]) && forall k | i < k < j :: !Conflicts(states[k], actions[k])
    requires states[j].agent.alive
    ensures states[j + 1].phase.Applying?
    ensures states[j + 1].phase.reply == Some(Conflict) <==> states[j].agent.versions != states[i].agent.versions
  {
    RunKeepsQueueInv(states, actions, i);
    assert StepAt(states, actions, i) && StepAt(states, actions, j);
    SentAtKnownRevision(states, actions, i, j);
    VersionsGrow(states, actions, i, j);
  }

  // ---------------------------------------------------------------- a conflict is retried

  ghost predicate Linked(states: seq<World>, actions: seq<Action>) {
    |states| == |actions| + 1 && forall i | 0 <= i < |actions| :: StepAt(states, actions, i)
  }

  predicate FirstConflict(phase: Phase) {
    phase.Applying? && phase.attempt == 1 && phase.reply == Some(Conflict)
  }

  function Retry(outcome: Outcome): seq<Action> {
    [Receive, AnswerGet, Receive, Lease, AnswerApply(outcome, false), Receive]
  }

  /** After a first conflict, with an agent that answers, the operation is fetched for, sent and executed at
      the agent's newest revision, and only then leaves the queue. */
  lemma ConflictIsRetried(w: World, outcome: Outcome) returns (states: seq<World>)
    requires Base(w) && FirstConflict(w.phase) && w.agent.alive && !outcome.Rejected?
    ensures Linked(states, Retry(outcome)) && states[0] == w
    ensures forall i | 0 <= i < 6 :: states[i].tasks == w.tasks
    ensures states[4].phase == Applying(2, |w.agent.versions|, None) && states[4].sent == w.sent + [Current(w)]
    ensures states[6].log == w.log + [Entry(Current(w), |w.agent.versions|, outcome.Changed?, false)]
    ensures states[6].tasks == w.tasks[1..]
  {
    var newest := Newest(w.agent);
    var w1 := w.(phase := Getting(2, None));
    var w2 := w.(phase := Getting(2, Some(Doc(newest))));
    var w3 := w.(slot := Accepted(w.slot, newest), phase := Leasing(2, newest.revision));
    var w4 := w3.(phase := Applying(2, newest.revision, None), sent := w.sent + [Current(w)]);
    RetryIsFetched(w, w1, w2, w3);
    var w5 := Next(w4, AnswerApply(outcome, false));
    RetryIsAnswered(w4, outcome);
    states := [w, w1, w2, w3, w4, w5, Next(w5, Receive)];
  }

  lemma RetryIsFetched(w: World, w1: World, w2: World, w3: World)
    requires Base(w) && FirstConflict(w.phase) && w.agent.alive
    requires w1 == w.(phase := Getting(2, None))
    requires w2 == w.(phase := Getting(2, Some(Doc(Newest(w.agent)))))
    requires w3 == w.(slot := Accepted(w.slot, Newest(w.agent)), phase := Leasing(2, |w.agent.versions|))
    ensures WellFormed(w1) && WellFormed(w2) && WellFormed(w3)
    ensures Enabled(w, Receive) && Next(w, Receive) == w1
    ensures Enabled(w1, AnswerGet) && Next(w1, AnswerGet) == w2
    ensures Enabled(w2, Receive) && Next(w2, Receive) == w3
  {
  }

  lemma RetryIsAnswered(w: World, outcome: Outcome)
    requires WellFormed(w) && w.phase == Applying(2, |w.agent.versions|, None)
    requires w.agent.alive && !outcome.Rejected?
    ensures var v := Next(w, AnswerApply(outcome, false));
            && WellFormed(v) && v.tasks == w.tasks && Enabled(v, Receive)
            && Next(v, Receive).log == w.log + [Entry(Current(w), |w.agent.versions|, outcome.Changed?, false)]
            && Next(v, Receive).tasks == w.tasks[1..]
  {
  }

  // ---------------------------------------------------------------- what was answered was executed

  /** The agent has executed operation `n`, in time. */
  ghost predicate InLog(log: seq<Entry>, n: int) {
    exists i | 0 <= i < |log| :: log[i].n == n && !log[i].late
  }

  lemma InLogStays(log: seq<Entry>, longer: seq<Entry>, n: int)
    requires log <= longer && InLog(log, n)
    ensures InLog(longer, n)
  {
    var i :| 0 <= i < |log| && log[i].n == n && !log[i].late;
    assert longer[i] == log[i];
  }

  /** The head mutation has the answer of an operation that was executed. */
  predicate HasAnswer(phase: Phase) {
    phase.Applying? && phase.reply.Some? && phase.reply.value.Doc?
  }

  lemma StepKeepsAnswered(w: World, a: Action)
    requires Base(w) && Enabled(w, a) && (HasAnswer(w.phase) ==> InLog(w.log, Current(w)))
    requires HasAnswer(Next(w, a).phase)
    ensures InLog(Next(w, a).log, Current(Next(w, a)))
  {
    var v := Next(w, a);
    LogGrows(w, a);
    StepEndsOrGoesOn(w, a);
    if a.AnswerApply? {
      assert v.log[|w.log|].n == Current(v) && !v.log[|w.log|].late;
    } else {
      InLogStays(w.log, v.log, Current(w));
    }
  }

  lemma {:induction false} AnswersAreLogged(states: seq<World>, actions: seq<Action>, i: nat)
    requires IsRun(states, actions) && i < |states| && HasAnswer(states[i].phase)
    ensures InLog(states[i].log, Current(states[i]))
  {
    if i > 0 {
      RunKeepsQueueInv(states, actions, i - 1);
      assert StepAt(states, actions, i - 1);
      if HasAnswer(states[i - 1].phase) {
        AnswersAreLogged(states, actions, i - 1);
      }
      StepKeepsAnswered(states[i - 1], actions[i - 1]);
    }
  }

  /** In every run, an operation that ends with an answer is exactly once in the agent's log. */
  lemma AnsweredExactlyOnce(states: seq<World>, actions: seq<Action>, i: nat)
    requires IsRun(states, actions) && i < |states| && HasAnswer(states[i].phase)
    ensures InLog(states[i].log, Current(states[i]))
    ensures forall k, l | 0 <= k < l < |states[i].log| && states[i].log[k].n == Current(states[i]) ::
              states[i].log[l].n != Current(states[i])
  {
    AnswersAreLogged(states, actions, i);
    RunKeepsQueueInv(states, actions, i);
  }

  // ---------------------------------------------------------------- deferrals

  lemma StepDefers(w: World, a: Action)
    requires Base(w) && Enabled(w, a)
    ensures Next(w, a).slot.deferred ==> !a.RemovedEvent? && !a.Drain?
    ensures Next(w, a).slot.deferred && !w.slot.deferred ==>
              (a.Event? || a.Receive?) && Next(w, a).slot.document.Some? && w.slot.queued
  {
  }

  /** A projection that waits for the queue was deferred by a document accepted after the last removal and
      the last drain. */
  lemma {:induction false} DeferralIsRecent(states: seq<World>, actions: seq<Action>, j: nat) returns (i: nat)
    requires IsRun(states, actions) && j < |states| && states[j].slot.deferred
    ensures i < j && (actions[i].Event? || actions[i].Receive?)
    ensures !states[i].slot.deferred && states[i + 1].slot.document.Some?
    ensures forall k | i <= k < j :: !actions[k].RemovedEvent? && !actions[k].Drain?
  {
    RunKeepsQueueInv(states, actions, j);
    if j == 0 {
      assert false;
    } else {
      RunKeepsQueueInv(states, actions, j - 1);
      assert StepAt(states, actions, j - 1);
      StepDefers(states[j - 1], actions[j - 1]);
      if states[j - 1].slot.deferred {
        i := DeferralIsRecent(states, actions, j - 1);
      } else {
        i := j - 1;
      }
    }
  }
}
