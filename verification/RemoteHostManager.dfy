/** Connecting, retrying, pausing and forgetting one remote host (src/lib/remote-host-manager.ts with
    the registration of transports in src/lib/workspace-sync.ts). */
module RemoteHosts {
  import opened Common

  /** Where one run of `connectProfileInner` is suspended. */
  datatype Attempt =
    | Connecting                // the SSH handshake
    | Listing(transport: nat)   // registered, waiting for list_workspaces
    | Connected(transport: nat) // about to look at `paused`
    | Failing                   // about to enter the catch block
    | Ending                    // settled or closing; the `finally` has not run yet

  /** One profile. `registered` is its entry in `hosts`, `live` the transports whose connection is open,
      `watched` those with a status listener. `attempts` holds every attempt whose `finally` has not run;
      `inFlight` is the one the manager knows about. `closing` and `reconnecting` count continuations that
      wait for a disconnect. */
  datatype Host = Host(
    hasProfile: bool, hasTarget: bool, paused: bool, forgotten: bool,
    registered: Option<nat>, live: set<nat>, watched: set<nat>, nextTransport: nat,
    attempts: map<nat, Attempt>, inFlight: Option<nat>, nextAttempt: nat,
    timer: bool, retries: nat, closing: nat, reconnecting: nat)

  datatype Action =
    | Start
    | Connect
    | Pause
    | Remove
    | RemoveGoesOn
    | Reconnect
    | ReconnectGoesOn
    | TimerFires
    | HandshakeDone(id: nat)
    | HandshakeFails(id: nat)
    | ListingDone(id: nat)
    | ListingFails(id: nat)
    | Continue(id: nat)
    | Catch(id: nat, permanent: bool)
    | Finally(id: nat)
    | Drops(transport: nat)
    | StatusOffline(transport: nat)
    | OfflineGoesOn

  // ---------------------------------------------------------------- the manager's functions

  /** `disconnectRemoteWorkspaceHost` up to its first await. */
  function Disconnected(h: Host): Host {
    if h.registered.None? then h
    else h.(registered := None, live := h.live - {h.registered.value})
  }

  /** `connectProfile` and the part of `connectProfileInner` before its first await. */
  function ConnectBegun(h: Host): Host {
    if h.inFlight.Some? then h
    else
      var id := h.nextAttempt;
      var noted := h.(inFlight := Some(id), nextAttempt := id + 1);
      if h.paused || !h.hasTarget then noted.(attempts := h.attempts[id := Ending])
      else
        noted.(timer := false, attempts := h.attempts[id :=
          if h.registered.Some? then Connected(h.registered.value) else Connecting])
  }

  function RetryScheduled(h: Host): Host {
    if h.paused || h.timer then h else h.(timer := true, retries := h.retries + 1)
  }

  /** A status listener hears that its transport is offline. */
  function OfflineHeard(h: Host): Host {
    Disconnected(h).(closing := h.closing + 1)
  }

  /** The continuation after `connectRemoteWorkspaceHost`; a new listener is told at once that its
      transport is offline, if it is. */
  function Continued(h: Host, id: nat): Host
    requires id in h.attempts && h.attempts[id].Connected?
  {
    var t := h.attempts[id].transport;
    if h.paused then Disconnected(h).(attempts := h.attempts[id := Ending])
    else
      var watching := h.(retries := 0, watched := h.watched + {t}, attempts := h.attempts[id := Ending]);
      if t in h.live then watching else OfflineHeard(watching)
  }

  function Caught(h: Host, id: nat, permanent: bool): Host
    requires id in h.attempts
  {
    if h.paused then h.(attempts := h.attempts[id := Ending])
    else RetryScheduled(h.(paused := permanent, attempts := h.attempts[id := Ending]))
  }

  predicate Enabled(h: Host, a: Action) {
    match a
    case ReconnectGoesOn => h.reconnecting > 0
    case TimerFires => h.timer
    case HandshakeDone(id) => id in h.attempts && h.attempts[id].Connecting?
    case HandshakeFails(id) => id in h.attempts && h.attempts[id].Connecting?
    case ListingDone(id) => id in h.attempts && h.attempts[id].Listing?
    case ListingFails(id) => id in h.attempts && h.attempts[id].Listing?
    case Continue(id) => id in h.attempts && h.attempts[id].Connected?
    case Catch(id, _) => id in h.attempts && h.attempts[id].Failing?
    case Finally(id) => id in h.attempts && h.attempts[id].Ending?
    case Drops(t) => t in h.live
    case StatusOffline(t) => t in h.watched && t !in h.live
    case OfflineGoesOn => h.closing > 0
    case _ => true
  }

  function Next(h: Host, a: Action): Host
    requires Enabled(h, a)
  {
    match a
    case Start => ConnectBegun(h.(paused := false, forgotten := false))
    case Connect => ConnectBegun(h)
    case Pause => Disconnected(h.(paused := true, timer := false))
    case Remove => Disconnected(h.(paused := true, forgotten := true, timer := false))
    case RemoveGoesOn => h.(hasProfile := false)
    case Reconnect =>
      Disconnected(h.(paused := false, forgotten := false, timer := false)).(reconnecting := h.reconnecting + 1)
    case ReconnectGoesOn =>
      var going := h.(reconnecting := h.reconnecting - 1);
      if h.hasProfile then ConnectBegun(going) else going
    case TimerFires =>
      var fired := h.(timer := false);
      if h.hasProfile then ConnectBegun(fired) else fired
    case HandshakeDone(id) =>
      var t := h.nextTransport;
      h.(registered := Some(t), live := h.live + {t}, nextTransport := t + 1, attempts := h.attempts[id := Listing(t)])
    case HandshakeFails(id) => h.(attempts := h.attempts[id := Failing])
    case ListingDone(id) => h.(attempts := h.attempts[id := Connected(h.attempts[id].transport)])
    case ListingFails(id) =>
      h.(registered := None, live := h.live - {h.attempts[id].transport}, attempts := h.attempts[id := Failing])
    case Continue(id) => Continued(h, id)
    case Catch(id, permanent) => Caught(h, id, permanent)
    case Finally(id) =>
      h.(attempts := h.attempts - {id}, inFlight := if h.inFlight == Some(id) then None else h.inFlight)
    case Drops(t) => h.(live := h.live - {t})
    case StatusOffline(_) => OfflineHeard(h)
    case OfflineGoesOn => RetryScheduled(h.(closing := h.closing - 1))
  }

  // ---------------------------------------------------------------- runs

  /** Nothing is connected or under way. */
  ghost predicate Idle(h: Host) {
    && h.registered.None? && h.live == {} && h.watched == {} && h.attempts == map[] && h.inFlight.None?
    && !h.timer && h.closing == 0 && h.reconnecting == 0
  }

  ghost predicate Init(h: Host) {
    Idle(h) && !h.paused && h.retries == 0
  }

  ghost predicate StepAt(states: seq<Host>, actions: seq<Action>, i: nat)
    requires i < |actions| && |states| == |actions| + 1
  {
    Enabled(states[i], actions[i]) && states[i + 1] == Next(states[i], actions[i])
  }

  ghost predicate IsRun(states: seq<Host>, actions: seq<Action>) {
    && |states| == |actions| + 1
    && Init(states[0])
    && forall i | 0 <= i < |actions| :: StepAt(states, actions, i)
  }

  // ---------------------------------------------------------------- one attempt at a time

  /** The attempt that will still look at `paused`, or remove what it registered. */
  predicate WillCheck(attempt: Attempt) {
    attempt.Listing? || attempt.Connected?
  }

  function Current(h: Host): Option<Attempt> {
    if h.inFlight.Some? && h.inFlight.value in h.attempts then Some(h.attempts[h.inFlight.value]) else None
  }

  predicate Checking(h: Host) {
    Current(h).Some? && WillCheck(Current(h).value)
  }

  /** The manager knows every attempt; only a registered transport is open; while an attempt has still to
      check its transport, no other one is registered; otherwise a registered one is watched, and the
      host is not paused. */
  ghost predicate Inv(h: Host) {
    && (forall id | id in h.attempts :: h.inFlight == Some(id))
    && (h.inFlight.Some? ==> h.inFlight.value in h.attempts)
    && (forall t | t in h.live :: h.registered == Some(t))
    && (Current(h) == Some(Connecting) || Current(h) == Some(Failing) ==> h.registered.None?)
    && (h.registered.Some? && Checking(h) ==> Current(h).value.transport == h.registered.value)
    && (h.registered.Some? && !Checking(h) ==> h.registered.value in h.watched && !h.paused)
  }

  lemma ConnectKeepsInv(h: Host)
    requires Inv(h)
    ensures Inv(ConnectBegun(h))
  {
  }

  /** Pauses apart, the invariant is about the transports and attempts only. */
  lemma SameTransports(h: Host, g: Host)
    requires Inv(h) && g.registered == h.registered && g.live == h.live && g.watched == h.watched
    requires g.attempts == h.attempts && g.inFlight == h.inFlight && (g.paused ==> h.paused)
    ensures Inv(g)
  {
  }

  lemma DisconnectKeepsInv(h: Host)
    requires Inv(h)
    ensures Inv(Disconnected(h)) && Disconnected(h).registered.None?
  {
  }

  predicate ByAttempt(a: Action) {
    || a.HandshakeDone? || a.HandshakeFails? || a.ListingDone? || a.ListingFails?
    || a.Continue? || a.Catch? || a.Finally?
  }

  lemma AttemptKeepsInv(h: Host, a: Action)
    requires Inv(h) && Enabled(h, a) && ByAttempt(a) && !a.Continue?
    ensures Inv(Next(h, a))
  {
  }

  lemma ContinueKeepsInv(h: Host, id: nat)
    requires Inv(h) && id in h.attempts && h.attempts[id].Connected?
    ensures Inv(Continued(h, id))
  {
    if h.paused {
      PausedContinueKeepsInv(h, id);
    } else {
      OnlineContinueKeepsInv(h, id);
    }
  }

  lemma PausedContinueKeepsInv(h: Host, id: nat)
    requires Inv(h) && id in h.attempts && h.attempts[id].Connected? && h.paused
    ensures Inv(Continued(h, id))
  {
  }

  lemma OnlineContinueKeepsInv(h: Host, id: nat)
    requires Inv(h) && id in h.attempts && h.attempts[id].Connected? && !h.paused
    ensures Inv(Continued(h, id))
  {
  }

  lemma PauseKeepsInv(h: Host, a: Action)
    requires Inv(h) && (a.Pause? || a.Remove? || a.Reconnect?)
    ensures Inv(Next(h, a))
  {
  }

  lemma OtherStepKeepsInv(h: Host, a: Action)
    requires Inv(h) && Enabled(h, a)
    requires a.RemoveGoesOn? || a.Drops? || a.OfflineGoesOn? || a.StatusOffline?
    ensures Inv(Next(h, a))
  {
    DisconnectKeepsInv(h);
  }

  predicate Connects(a: Action) {
    a.Start? || a.Connect? || a.ReconnectGoesOn? || a.TimerFires?
  }

  lemma ConnectStepKeepsInv(h: Host, a: Action)
    requires Inv(h) && Enabled(h, a) && Connects(a)
    ensures Inv(Next(h, a))
  {
    var begun := match a
      case Start => h.(paused := false, forgotten := false)
      case Connect => h
      case ReconnectGoesOn => h.(reconnecting := h.reconnecting - 1)
      case TimerFires => h.(timer := false);
    SameTransports(h, begun);
    ConnectKeepsInv(begun);
  }

  lemma StepKeepsInv(h: Host, a: Action)
    requires Inv(h) && Enabled(h, a)
    ensures Inv(Next(h, a))
  {
    if Connects(a) {
      ConnectStepKeepsInv(h, a);
    } else if a.Pause? || a.Remove? || a.Reconnect? {
      PauseKeepsInv(h, a);
    } else if a.Continue? {
      ContinueKeepsInv(h, a.id);
    } else if ByAttempt(a) {
      AttemptKeepsInv(h, a);
    } else {
      OtherStepKeepsInv(h, a);
    }
  }

  lemma {:induction false} RunKeepsInv(states: seq<Host>, actions: seq<Action>, i: nat)
    requires IsRun(states, actions) && i < |states|
    ensures Inv(states[i])
  {
    if i > 0 {
      RunKeepsInv(states, actions, i - 1);
      assert StepAt(states, actions, i - 1);
      StepKeepsInv(states[i - 1], actions[i - 1]);
    }
  }

  /** In every run, at most one attempt is in flight at any time. */
  lemma AtMostOneAttempt(states: seq<Host>, actions: seq<Action>, i: nat)
    requires IsRun(states, actions) && i < |states|
    ensures |states[i].attempts.Keys| <= 1
  {
    RunKeepsInv(states, actions, i);
    var h := states[i];
    if h.inFlight.Some? {
      assert h.attempts.Keys == {h.inFlight.value};
    } else {
      assert h.attempts.Keys == {};
    }
  }

  // ---------------------------------------------------------------- paused hosts stay closed

  /** Only these let a paused host connect again: the application's start and the user's reconnect. */
  predicate Resumes(a: Action) {
    a.Start? || a.Reconnect?
  }

  /** Paused, and whatever was going on when it was paused has settled. */
  predicate Settled(h: Host) {
    h.paused && forall id | id in h.attempts :: h.attempts[id].Ending?
  }

  predicate Closed(h: Host) {
    h.registered.None? && h.live == {}
  }

  lemma SettledIsClosed(h: Host)
    requires Inv(h) && Settled(h)
    ensures Closed(h)
  {
  }

  lemma PausedStays(h: Host, a: Action)
    requires h.paused && Enabled(h, a) && !Resumes(a)
    ensures Next(h, a).paused
  {
  }

  lemma SettledStays(h: Host, a: Action)
    requires Inv(h) && Settled(h) && Enabled(h, a) && !Resumes(a)
    ensures Settled(Next(h, a)) && Next(h, a).nextTransport == h.nextTransport
  {
  }

  /** How many transports can still be opened without the host being resumed. */
  function ToOpen(h: Host): nat {
    if Current(h) == Some(Connecting) then 1 else 0
  }

  /** A paused host can open a transport only in the attempt that was under way. */
  lemma PausedStep(h: Host, a: Action)
    requires Inv(h) && h.paused && Enabled(h, a) && !Resumes(a)
    ensures Next(h, a).nextTransport + ToOpen(Next(h, a)) <= h.nextTransport + ToOpen(h)
  {
    if ByAttempt(a) {
      PausedAttemptStep(h, a);
    }
  }

  lemma PausedAttemptStep(h: Host, a: Action)
    requires Inv(h) && h.paused && Enabled(h, a) && ByAttempt(a)
    ensures Next(h, a).nextTransport + ToOpen(Next(h, a)) <= h.nextTransport + ToOpen(h)
  {
    if a.HandshakeDone? {
      assert Current(h) == Some(Connecting);
    } else {
      QuietAttemptStep(h, a);
    }
  }

  /** Only a finished handshake opens a transport, and no attempt goes back to its handshake. */
  lemma QuietAttemptStep(h: Host, a: Action)
    requires Inv(h) && h.paused && Enabled(h, a) && ByAttempt(a) && !a.HandshakeDone?
    ensures Next(h, a).nextTransport == h.nextTransport && ToOpen(Next(h, a)) == 0
  {
    var g := Next(h, a);
    assert h.inFlight == Some(a.id);
    if a.Finally? {
      assert g.attempts == h.attempts - {a.id};
    } else {
      assert g.inFlight == h.inFlight && !g.attempts[a.id].Connecting?;
    }
  }

  /** Once a pause has settled, nothing is registered or open, and no timer, event or continuation opens
      anything until the host is resumed. */
  lemma {:induction false} PausedStaysClosed(states: seq<Host>, actions: seq<Action>, i: nat, j: nat)
    requires IsRun(states, actions) && i <= j < |states|
    requires Settled(states[i]) && forall k | i <= k < j :: !Resumes(actions[k])
    ensures Settled(states[j]) && Closed(states[j])
    ensures states[j].nextTransport == states[i].nextTransport
    decreases j
  {
    if i < j {
      PausedStaysClosed(states, actions, i, j - 1);
      RunKeepsInv(states, actions, j - 1);
      assert StepAt(states, actions, j - 1);
      SettledStays(states[j - 1], actions[j - 1]);
    }
    RunKeepsInv(states, actions, j);
    SettledIsClosed(states[j]);
  }

  /** After a pause, at most one more transport is ever opened: that of the handshake under way. */
  lemma {:induction false} PauseOpensAtMostOne(states: seq<Host>, actions: seq<Action>, i: nat, j: nat)
    requires IsRun(states, actions) && i <= j < |states|
    requires states[i].paused && forall k | i <= k < j :: !Resumes(actions[k])
    ensures states[j].paused
    ensures states[j].nextTransport + ToOpen(states[j]) <= states[i].nextTransport + ToOpen(states[i])
    decreases j
  {
    if i < j {
      PauseOpensAtMostOne(states, actions, i, j - 1);
      RunKeepsInv(states, actions, j - 1);
      assert StepAt(states, actions, j - 1);
      PausedStays(states[j - 1], actions[j - 1]);
      PausedStep(states[j - 1], actions[j - 1]);
    }
  }

  // ---------------------------------------------------------------- wanted hosts are not given up

  /** The host is connected, or something under way will connect it or try again. */
  predicate UnderWay(h: Host) {
    || h.registered.Some? || h.timer || h.closing > 0 || h.reconnecting > 0
    || (Current(h).Some? && !Current(h).value.Ending?)
  }

  predicate Trying(h: Host) {
    !h.paused && h.hasProfile && h.hasTarget ==> UnderWay(h)
  }

  /** A connect that joins an attempt which is already over and only has its `finally` to run. */
  predicate JoinsEnded(h: Host, a: Action) {
    (a.Start? || a.ReconnectGoesOn? || a.TimerFires?) && Current(h) == Some(Ending)
  }

  /** Such a connect was the last thing that would have connected a host that is wanted. */
  predicate NothingLeft(h: Host, a: Action) {
    && JoinsEnded(h, a) && (a.Start? || !h.paused) && h.hasProfile && h.hasTarget
    && h.registered.None? && h.closing == 0
    && h.reconnecting == (if a.ReconnectGoesOn? then 1 else 0)
    && h.timer == a.TimerFires?
  }

  lemma AttemptKeepsTrying(h: Host, a: Action)
    requires Inv(h) && Trying(h) && Enabled(h, a) && ByAttempt(a)
    ensures Trying(Next(h, a))
  {
  }

  /** A wanted host is given up exactly where nothing is left to connect it. */
  lemma StepKeepsTryingIff(h: Host, a: Action)
    requires Inv(h) && Trying(h) && Enabled(h, a)
    ensures Trying(Next(h, a)) <==> !NothingLeft(h, a)
  {
    if ByAttempt(a) {
      AttemptKeepsTrying(h, a);
    }
  }

  /** What makes an idle manager connect: the application's start, an explicit connect or a reconnect. */
  predicate Begins(a: Action) {
    a.Start? || a.Connect? || a.Reconnect?
  }

  lemma IdleUntilBegun(h: Host, a: Action)
    requires Idle(h) && Enabled(h, a)
    ensures if Begins(a) then Trying(Next(h, a)) else Idle(Next(h, a))
  {
  }

  lemma {:induction false} IdleBefore(states: seq<Host>, actions: seq<Action>, i: nat)
    requires IsRun(states, actions) && i < |states|
    requires forall k | 0 <= k < i :: !Begins(actions[k])
    ensures Idle(states[i])
  {
    if i > 0 {
      IdleBefore(states, actions, i - 1);
      assert StepAt(states, actions, i - 1);
      IdleUntilBegun(states[i - 1], actions[i - 1]);
    }
  }

  lemma {:induction false} TriedThroughoutIff(states: seq<Host>, actions: seq<Action>, i: nat, j: nat)
    requires IsRun(states, actions) && i <= j < |states| && Trying(states[i])
    ensures (forall k | i <= k <= j :: Trying(states[k]))
            <==> (forall k | i <= k < j :: !NothingLeft(states[k], actions[k]))
    decreases j
  {
    if i < j {
      TriedThroughoutIff(states, actions, i, j - 1);
      if forall k | i <= k < j :: Trying(states[k]) {
        RunKeepsInv(states, actions, j - 1);
        assert StepAt(states, actions, j - 1);
        StepKeepsTryingIff(states[j - 1], actions[j - 1]);
      }
    }
  }

  /** What makes a host unwanted until it is resumed: a pause, its removal, or a permanent failure. */
  predicate Pauses(a: Action) {
    a.Pause? || a.Remove? || (a.Catch? && a.permanent)
  }

  /** Of the steps before `i` that pause or resume the host, the last one pauses it. */
  ghost predicate PausedBefore(actions: seq<Action>, i: nat)
    requires i <= |actions|
  {
    exists k | 0 <= k < i :: Pauses(actions[k]) && forall m | k < m < i :: !Resumes(actions[m])
  }

  lemma PausedBeforeNext(actions: seq<Action>, i: nat)
    requires i < |actions|
    ensures PausedBefore(actions, i + 1)
            <==> Pauses(actions[i]) || (PausedBefore(actions, i) && !Resumes(actions[i]))
  {
    if PausedBefore(actions, i) && !Resumes(actions[i]) {
      var k :| 0 <= k < i && Pauses(actions[k]) && forall m | k < m < i :: !Resumes(actions[m]);
      assert forall m | k < m < i + 1 :: !Resumes(actions[m]);
    }
  }

  /** In every run, a host is paused if and only if, of the steps so far that pause or resume it, the last
      one paused it; so no transient failure ever does. */
  lemma {:induction false} PausedIff(states: seq<Host>, actions: seq<Action>, i: nat)
    requires IsRun(states, actions) && i < |states|
    ensures states[i].paused <==> PausedBefore(actions, i)
  {
    if i > 0 {
      PausedIff(states, actions, i - 1);
      PausedBeforeNext(actions, i - 1);
      assert StepAt(states, actions, i - 1);
    }
  }

  /** The user wants the host connected: it has a target, has not been removed, and is not paused. */
  ghost predicate Wanted(start: Host, actions: seq<Action>, i: nat)
    requires i <= |actions|
  {
    && start.hasProfile && start.hasTarget && !PausedBefore(actions, i)
    && forall k | 0 <= k < i :: !actions[k].RemoveGoesOn?
  }

  lemma {:induction false} WantedIff(states: seq<Host>, actions: seq<Action>, i: nat)
    requires IsRun(states, actions) && i < |states|
    ensures Wanted(states[0], actions, i) <==> !states[i].paused && states[i].hasProfile && states[i].hasTarget
  {
    PausedIff(states, actions, i);
    ProfileStays(states, actions, i);
  }

  lemma StepKeepsProfile(h: Host, a: Action)
    requires Enabled(h, a)
    ensures Next(h, a).hasTarget == h.hasTarget
    ensures Next(h, a).hasProfile == (h.hasProfile && !a.RemoveGoesOn?)
  {
    if ByAttempt(a) {
      AttemptKeepsProfile(h, a);
    }
  }

  lemma AttemptKeepsProfile(h: Host, a: Action)
    requires Enabled(h, a) && ByAttempt(a)
    ensures Next(h, a).hasTarget == h.hasTarget && Next(h, a).hasProfile == h.hasProfile
  {
    if a.Continue? {
      ContinuedKeepsProfile(h, a.id);
    }
  }

  lemma ContinuedKeepsProfile(h: Host, id: nat)
    requires id in h.attempts && h.attempts[id].Connected?
    ensures Continued(h, id).hasTarget == h.hasTarget && Continued(h, id).hasProfile == h.hasProfile
  {
  }

  lemma {:induction false} ProfileStays(states: seq<Host>, actions: seq<Action>, i: nat)
    requires IsRun(states, actions) && i < |states|
    ensures states[i].hasTarget == states[0].hasTarget
    ensures states[i].hasProfile <==> states[0].hasProfile && forall k | 0 <= k < i :: !actions[k].RemoveGoesOn?
  {
    if i > 0 {
      ProfileStays(states, actions, i - 1);
      assert StepAt(states, actions, i - 1);
      StepKeepsProfile(states[i - 1], actions[i - 1]);
    }
  }

  /** From the first start, connect or reconnect of any run: a host that is wanted is in every state
      connected, being connected or due to be retried, if and only if no connect joins an attempt that is
      over while nothing else is left. */
  lemma WantedHostsAreTriedIff(states: seq<Host>, actions: seq<Action>, first: nat, j: nat)
    requires IsRun(states, actions) && first < j < |states| && Begins(actions[first])
    requires forall k | 0 <= k < first :: !Begins(actions[k])
    ensures (forall k | first < k <= j :: Wanted(states[0], actions, k) ==> UnderWay(states[k]))
            <==> (forall k | first < k < j :: !NothingLeft(states[k], actions[k]))
  {
    IdleBefore(states, actions, first);
    assert StepAt(states, actions, first);
    IdleUntilBegun(states[first], actions[first]);
    TriedThroughoutIff(states, actions, first + 1, j);
    forall k | first < k <= j
      ensures Trying(states[k]) <==> (Wanted(states[0], actions, k) ==> UnderWay(states[k]))
    {
      WantedIff(states, actions, k);
    }
  }

  // ---------------------------------------------------------------- and can connect

  /** Connected over an open transport that is watched, with no attempt under way. */
  predicate Online(h: Host) {
    h.registered.Some? && h.registered.value in h.live && h.registered.value in h.watched && Current(h).None?
  }

  predicate Wants(h: Host) {
    !h.paused && h.hasProfile && h.hasTarget
  }

  /** The next step of what is under way, if the network is well. */
  function Urged(h: Host): Action {
    match Current(h)
    case Some(Connecting) => HandshakeDone(h.inFlight.value)
    case Some(Listing(t)) => if t in h.live then ListingDone(h.inFlight.value) else ListingFails(h.inFlight.value)
    case Some(Connected(_)) => Continue(h.inFlight.value)
    case Some(Failing) => Catch(h.inFlight.value, false)
    case Some(Ending) => Finally(h.inFlight.value)
    case None =>
      if h.registered.Some? then StatusOffline(h.registered.value)
      else if h.timer then TimerFires
      else if h.reconnecting > 0 then ReconnectGoesOn
      else OfflineGoesOn
  }

  function IdleSteps(h: Host): nat {
    if h.registered.Some? then (if h.registered.value in h.live then 0 else 7)
    else if h.timer || h.reconnecting > 0 then 5
    else 6
  }

  /** How many such steps it takes. */
  function StepsToOnline(h: Host): nat {
    match Current(h)
    case None => IdleSteps(h)
    case Some(Ending) => IdleSteps(h) + 1
    case Some(Connected(t)) => if t in h.live then 2 else 8
    case Some(Listing(t)) => if t in h.live then 3 else 8
    case Some(Connecting) => 4
    case Some(Failing) => 7
  }

  function Follow(h: Host, steps: nat): Host
    decreases steps
  {
    if steps == 0 || !Enabled(h, Urged(h)) then h else Follow(Next(h, Urged(h)), steps - 1)
  }

  lemma UrgedGoesOn(h: Host)
    requires Inv(h) && Wants(h) && UnderWay(h) && StepsToOnline(h) > 0
    ensures Enabled(h, Urged(h))
    ensures var g := Next(h, Urged(h));
            Wants(g) && UnderWay(g) && StepsToOnline(g) < StepsToOnline(h)
  {
  }

  /** A wanted host with anything under way is online after at most eight steps of its own, if the network
      is well from then on. */
  lemma {:induction false} WantedHostConnects(h: Host, steps: nat)
    requires Inv(h) && Wants(h) && UnderWay(h) && StepsToOnline(h) <= steps
    ensures exists n | 0 <= n <= steps :: Online(Follow(h, n))
    decreases steps
  {
    if StepsToOnline(h) == 0 {
      assert Online(Follow(h, 0));
    } else {
      UrgedGoesOn(h);
      var g := Next(h, Urged(h));
      StepKeepsInv(h, Urged(h));
      WantedHostConnects(g, steps - 1);
      var n :| 0 <= n <= steps - 1 && Online(Follow(g, n));
      assert Follow(h, n + 1) == Follow(g, n);
    }
  }

  // ---------------------------------------------------------------- retries

  /** A connect that starts an attempt. */
  predicate StartsAttempt(h: Host, a: Action) {
    (a.Start? || (a.Connect? && !h.paused) || (a.ReconnectGoesOn? && h.hasProfile && !h.paused))
    && h.inFlight.None? && h.hasTarget
  }

  /** What a timer that is due must not outlive. */
  predicate ClearsTimer(h: Host, a: Action) {
    a.Pause? || a.Remove? || a.Reconnect? || a.TimerFires? || StartsAttempt(h, a)
  }

  /** A retry that is due was scheduled after the last pause, removal or reconnect, after the last timer that
      fired, and after the last connect that started an attempt. */
  lemma {:induction false} DueRetryIsRecent(states: seq<Host>, actions: seq<Action>, j: nat) returns (i: nat)
    requires IsRun(states, actions) && j < |states| && states[j].timer
    ensures i < j && !states[i].timer && states[i + 1].timer
    ensures forall k | i <= k < j :: !ClearsTimer(states[k], actions[k])
  {
    assert StepAt(states, actions, j - 1);
    if states[j - 1].timer {
      i := DueRetryIsRecent(states, actions, j - 1);
      ClearedTimer(states[j - 1], actions[j - 1]);
    } else {
      i := j - 1;
      ClearedTimer(states[i], actions[i]);
    }
  }

  lemma ClearedTimer(h: Host, a: Action)
    requires Enabled(h, a)
    ensures ClearsTimer(h, a) ==> !Next(h, a).timer
  {
  }

  /** Nothing is registered, and no attempt goes beyond its first look. */
  ghost predicate NeverTried(h: Host) {
    h.registered.None? && h.nextTransport == 0 && forall id | id in h.attempts :: h.attempts[id].Ending?
  }

  lemma StepWithoutTarget(h: Host, a: Action)
    requires !h.hasTarget && NeverTried(h) && Enabled(h, a)
    ensures NeverTried(Next(h, a))
  {
  }

  /** In every run, a host without a target is never connected to. */
  lemma {:induction false} NoTargetIsNeverTried(states: seq<Host>, actions: seq<Action>, i: nat)
    requires IsRun(states, actions) && i < |states| && !states[0].hasTarget && states[0].nextTransport == 0
    ensures NeverTried(states[i])
  {
    if i > 0 {
      NoTargetIsNeverTried(states, actions, i - 1);
      ProfileStays(states, actions, i - 1);
      assert StepAt(states, actions, i - 1);
      StepWithoutTarget(states[i - 1], actions[i - 1]);
    }
  }

  /** A host is to be forgotten, and not only disconnected, if and only if of the removals and resumptions
      so far the last was a removal. */
  lemma {:induction false} ForgottenIff(states: seq<Host>, actions: seq<Action>, i: nat)
    requires IsRun(states, actions) && i < |states| && !states[0].forgotten
    ensures states[i].forgotten
            <==> exists k | 0 <= k < i :: actions[k].Remove? && forall m | k < m < i :: !Resumes(actions[m])
  {
    if i > 0 {
      ForgottenIff(states, actions, i - 1);
      assert StepAt(states, actions, i - 1);
      StepForgets(states[i - 1], actions[i - 1]);
      if states[i - 1].forgotten && !Resumes(actions[i - 1]) {
        var k :| 0 <= k < i - 1 && actions[k].Remove? && forall m | k < m < i - 1 :: !Resumes(actions[m]);
        assert forall m | k < m < i :: !Resumes(actions[m]);
      }
    }
  }

  lemma StepForgets(h: Host, a: Action)
    requires Enabled(h, a)
    ensures Next(h, a).forgotten == (a.Remove? || (h.forgotten && !Resumes(a)))
  {
  }

  /** How many retries were scheduled by the steps from `i` to `j`. */
  function TimersSet(states: seq<Host>, i: nat, j: nat): nat
    requires i <= j < |states|
  {
    if i == j then 0
    else TimersSet(states, i, j - 1) + if states[j].timer && !states[j - 1].timer then 1 else 0
  }

  /** An attempt succeeds. */
  predicate Succeeds(h: Host, a: Action) {
    a.Continue? && !h.paused
  }

  lemma StepCountsRetry(h: Host, a: Action)
    requires Enabled(h, a) && !Succeeds(h, a)
    ensures Next(h, a).retries == h.retries + if Next(h, a).timer && !h.timer then 1 else 0
  {
    if ByAttempt(a) {
      AttemptCountsRetry(h, a);
    }
  }

  lemma AttemptCountsRetry(h: Host, a: Action)
    requires Enabled(h, a) && ByAttempt(a) && !Succeeds(h, a)
    ensures Next(h, a).retries == h.retries + if Next(h, a).timer && !h.timer then 1 else 0
  {
    if a.Catch? {
      CaughtCountsRetry(h, a.id, a.permanent);
    }
  }

  lemma CaughtCountsRetry(h: Host, id: nat, permanent: bool)
    requires id in h.attempts
    ensures Caught(h, id, permanent).retries == h.retries + if Caught(h, id, permanent).timer && !h.timer then 1 else 0
  {
  }

  /** The count from which the delay is taken: the retries scheduled since the last success, or the start. */
  lemma {:induction false} RetriesCountFailures(states: seq<Host>, actions: seq<Action>, i: nat, j: nat)
    requires IsRun(states, actions) && i <= j < |states|
    requires i == 0 || Succeeds(states[i - 1], actions[i - 1])
    requires forall k | i <= k < j :: !Succeeds(states[k], actions[k])
    ensures states[j].retries == TimersSet(states, i, j)
    decreases j
  {
    if i == j {
      assert i > 0 ==> StepAt(states, actions, i - 1);
    } else {
      RetriesCountFailures(states, actions, i, j - 1);
      assert StepAt(states, actions, j - 1);
      StepCountsRetry(states[j - 1], actions[j - 1]);
    }
  }

  /** A host with nothing but a first attempt under way, or none. */
  function Scene(paused: bool, registered: Option<nat>, count: nat, attempt: Option<Attempt>, reconnecting: nat): Host {
    Host(true, true, paused, false, registered, if registered.Some? then {registered.value} else {}, {}, count,
         if attempt.Some? then map[0 := attempt.value] else map[], if attempt.Some? then Some(0) else None, 1,
         false, 0, 0, reconnecting)
  }

  lemma PausedWhileConnecting()
    ensures var connecting := Scene(false, None, 0, Some(Connecting), 0);
            var paused := Scene(true, None, 0, Some(Connecting), 0);
            var listing := Scene(true, Some(0), 1, Some(Listing(0)), 0);
            && Next(connecting, Pause) == paused
            && Enabled(paused, HandshakeDone(0)) && Next(paused, HandshakeDone(0)) == listing
            && Enabled(listing, ListingDone(0))
            && Next(listing, ListingDone(0)) == Scene(true, Some(0), 1, Some(Connected(0)), 0)
  {
  }

  lemma ResumedWhileEnding()
    ensures var connected := Scene(true, Some(0), 1, Some(Connected(0)), 0);
            var ending := Scene(true, None, 1, Some(Ending), 0);
            var resumed, joined := Scene(false, None, 1, Some(Ending), 1), Scene(false, None, 1, Some(Ending), 0);
            && Enabled(connected, Continue(0)) && Next(connected, Continue(0)) == ending
            && Next(ending, Reconnect) == resumed
            && Enabled(resumed, ReconnectGoesOn) && Next(resumed, ReconnectGoesOn) == joined
            && Enabled(joined, Finally(0)) && Next(joined, Finally(0)) == Scene(false, None, 1, None, 0)
  {
  }

  lemma Longer(states: seq<Host>, actions: seq<Action>, a: Action, last: Host)
    requires IsRun(states, actions) && Enabled(states[|actions|], a) && Next(states[|actions|], a) == last
    ensures IsRun(states + [last], actions + [a])
  {
    var longer, more := states + [last], actions + [a];
    forall i | 0 <= i < |more| ensures StepAt(longer, more, i) {
      if i < |actions| {
        assert StepAt(states, actions, i);
      }
    }
  }

  /** A pause during the handshake, and a reconnect while the attempt is disconnecting again: the
      reconnect joins that attempt, and nothing is left that would connect the host. */
  lemma ReconnectCanBeLost() returns (states: seq<Host>, actions: seq<Action>)
    ensures IsRun(states, actions)
    ensures actions == PausedRun() + [Continue(0), Reconnect, ReconnectGoesOn, Finally(0)]
    ensures NothingLeft(states[6], actions[6]) && !Trying(states[7]) && !Trying(states[8])
  {
    states, actions := RunToConnected();
    ResumedWhileEnding();
    Longer(states, actions, Continue(0), Scene(true, None, 1, Some(Ending), 0));
    states, actions := states + [Scene(true, None, 1, Some(Ending), 0)], actions + [Continue(0)];
    Longer(states, actions, Reconnect, Scene(false, None, 1, Some(Ending), 1));
    states, actions := states + [Scene(false, None, 1, Some(Ending), 1)], actions + [Reconnect];
    Longer(states, actions, ReconnectGoesOn, Scene(false, None, 1, Some(Ending), 0));
    states, actions := states + [Scene(false, None, 1, Some(Ending), 0)], actions + [ReconnectGoesOn];
    Longer(states, actions, Finally(0), Scene(false, None, 1, None, 0));
    states, actions := states + [Scene(false, None, 1, None, 0)], actions + [Finally(0)];
  }

  function PausedRun(): seq<Action> {
    [Start, Pause, HandshakeDone(0), ListingDone(0)]
  }

  lemma RunToConnected() returns (states: seq<Host>, actions: seq<Action>)
    ensures IsRun(states, actions) && actions == PausedRun()
    ensures states[4] == Scene(true, Some(0), 1, Some(Connected(0)), 0)
  {
    states, actions := [Scene(false, None, 0, None, 0).(nextAttempt := 0)], [];
    PausedWhileConnecting();
    Longer(states, actions, Start, Scene(false, None, 0, Some(Connecting), 0));
    states, actions := states + [Scene(false, None, 0, Some(Connecting), 0)], actions + [Start];
    Longer(states, actions, Pause, Scene(true, None, 0, Some(Connecting), 0));
    states, actions := states + [Scene(true, None, 0, Some(Connecting), 0)], actions + [Pause];
    Longer(states, actions, HandshakeDone(0), Scene(true, Some(0), 1, Some(Listing(0)), 0));
    states, actions := states + [Scene(true, Some(0), 1, Some(Listing(0)), 0)], actions + [HandshakeDone(0)];
    Longer(states, actions, ListingDone(0), Scene(true, Some(0), 1, Some(Connected(0)), 0));
    states, actions := states + [Scene(true, Some(0), 1, Some(Connected(0)), 0)], actions + [ListingDone(0)];
  }

  // ---------------------------------------------------------------- the manager's variables

  /** The manager's entries for one profile. */
  class RemoteHostManager {
    const hasTarget: bool
    var hasProfile: bool
    var paused: bool
    var forgotten: bool
    var registered: Option<nat>
    var live: set<nat>
    var watched: set<nat>
    var nextTransport: nat
    var attempts: map<nat, Attempt>
    var inFlight: Option<nat>
    var nextAttempt: nat
    var timer: bool
    var retries: nat
    var closing: nat
    var reconnecting: nat

    ghost function State(): Host
      reads this
    {
      Host(hasProfile, hasTarget, paused, forgotten, registered, live, watched, nextTransport, attempts, inFlight,
           nextAttempt, timer, retries, closing, reconnecting)
    }

    constructor (hasTarget: bool)
      ensures State() == Host(true, hasTarget, false, false, None, {}, {}, 0, map[], None, 0, false, 0, 0, 0)
    {
      this.hasTarget := hasTarget;
      hasProfile, paused, forgotten := true, false, false;
      registered, live, watched, nextTransport := None, {}, {}, 0;
      attempts, inFlight, nextAttempt := map[], None, 0;
      timer, retries, closing, reconnecting := false, 0, 0, 0;
    }

    method ConnectProfile()
      modifies this
      ensures State() == ConnectBegun(old(State()))
    {
      if inFlight.Some? {
        return;
      }
      var id := nextAttempt;
      nextAttempt := id + 1;
      inFlight := Some(id);
      if paused || !hasTarget {
        attempts := attempts[id := Ending];
        return;
      }
      timer := false;
      if registered.Some? {
        attempts := attempts[id := Connected(registered.value)];
      } else {
        attempts := attempts[id := Connecting];
      }
    }

    method DisconnectRemoteWorkspaceHost()
      modifies this`registered, this`live
      ensures State() == Disconnected(old(State()))
    {
      if registered.None? {
        return;
      }
      live := live - {registered.value};
      registered := None;
    }

    method ScheduleRetry()
      modifies this`timer, this`retries
      ensures State() == RetryScheduled(old(State()))
    {
      if paused || timer {
        return;
      }
      retries := retries + 1;
      timer := true;
    }

    method ContinueConnected(id: nat)
      requires id in attempts && attempts[id].Connected?
      modifies this
      ensures State() == Continued(old(State()), id)
    {
      var t := attempts[id].transport;
      attempts := attempts[id := Ending];
      if paused {
        DisconnectRemoteWorkspaceHost();
        return;
      }
      retries := 0;
      watched := watched + {t};
      if t !in live {
        OnOffline();
      }
    }

    method OnOffline()
      modifies this`registered, this`live, this`closing
      ensures State() == OfflineHeard(old(State()))
    {
      DisconnectRemoteWorkspaceHost();
      closing := closing + 1;
    }

    method CatchFailure(id: nat, permanent: bool)
      requires id in attempts
      modifies this
      ensures State() == Caught(old(State()), id, permanent)
    {
      attempts := attempts[id := Ending];
      if paused {
        return;
      }
      if permanent {
        paused := true;
      }
      if !paused {
        ScheduleRetry();
      }
    }

    method PauseRemoteHost()
      modifies this
      ensures State() == Next(old(State()), Pause)
    {
      paused := true;
      timer := false;
      DisconnectRemoteWorkspaceHost();
    }

    method ReconnectRemoteHost()
      modifies this
      ensures State() == Next(old(State()), Reconnect)
    {
      paused := false;
      forgotten := false;
      timer := false;
      DisconnectRemoteWorkspaceHost();
      reconnecting := reconnecting + 1;
    }
  }
}
