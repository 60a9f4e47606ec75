/** The controller's coalescing resize queue (src/lib/pty.ts): one request in flight, bursts collapse to
    the newest size. */
module ResizePumps {
  import opened Common

  datatype Size = Size(cols: nat, rows: nat)

  /** Where one pump, a run of `flushPendingResizes`, is suspended. */
  datatype Phase =
    | AwaitingReady
    | Requesting(size: Size, lease: nat, host: nat)
    | Refreshing(generation: nat, host: nat) // list_sessions, after a control failure
    | Settled // its promise is settled, `finishResizePump` has not run yet

  /** `pumps` holds every pump that has started and has not been finished; `pump` is the one the client
      knows about. */
  datatype Pty = Pty(
    size: Size, readOnly: bool, disposed: bool, host: Option<nat>, hasSession: bool, lease: nat, generation: nat,
    pending: Option<Size>, pump: Option<nat>, pumps: map<nat, Phase>, nextPump: nat)

  // ---------------------------------------------------------------- the queue

  function Enqueued(p: Pty, size: Size): Pty {
    if p.pump.Some? then p.(pending := Some(size))
    else
      p.(pending := Some(size), pump := Some(p.nextPump), pumps := p.pumps[p.nextPump := AwaitingReady],
         nextPump := p.nextPump + 1)
  }

  predicate CanSend(p: Pty) {
    !p.disposed && p.host.Some? && p.hasSession && !p.readOnly
  }

  /** A pump at the head of its loop takes the pending size, or settles. */
  function Looped(p: Pty, id: nat): Pty {
    if p.pending.None? then p.(pumps := p.pumps[id := Settled])
    else if !CanSend(p) then p.(pending := None, pumps := p.pumps[id := Settled])
    else p.(pending := None, pumps := p.pumps[id := Requesting(p.pending.value, p.lease, p.host.value)])
  }

  function Finished(p: Pty, id: nat): Pty {
    var gone := p.(pumps := p.pumps - {id});
    if p.pump != Some(id) then gone
    else
      var idle := gone.(pump := None);
      if p.pending.None? || p.disposed || p.readOnly then idle else Enqueued(idle, p.pending.value)
  }

  // ---------------------------------------------------------------- what happens to the client

  function Resized(p: Pty, size: Size): Pty {
    if p.disposed || p.readOnly then p else Enqueued(p.(size := size), size)
  }

  /** `takeControl` once the agent has granted the lease: the current size is asserted again. */
  function ControlTaken(p: Pty, lease: nat): Pty {
    if p.disposed then p else Enqueued(p.(lease := lease, readOnly := false), p.size)
  }

  function ControlChanged(p: Pty, lease: Option<nat>): Pty {
    if lease.Some? then p.(lease := lease.value, readOnly := false) else p.(pending := None, readOnly := true)
  }

  predicate Outstanding(p: Pty) {
    p.pump.Some? || p.pending.Some?
  }

  /** The agent's canonical size: ignored by a controller that is still asking for another one. */
  function SizeChanged(p: Pty, size: Size): Pty {
    if !p.readOnly && Outstanding(p) && size != p.size then p
    else p.(generation := p.generation + 1, size := size)
  }

  /** A resize request fails; `control` for a lost lease, which `invalidates` the cached one. */
  function RequestFailed(p: Pty, id: nat, control: bool, invalidates: bool): Pty
    requires id in p.pumps && p.pumps[id].Requesting?
  {
    var request := p.pumps[id];
    var same := p.host == Some(request.host);
    var after := if control && same && invalidates then ControlChanged(p, None) else p;
    if control && same && !after.readOnly && after.lease != request.lease then Looped(after, id)
    else if control && same then after.(pumps := after.pumps[id := Refreshing(after.generation, request.host)])
    else after.(pumps := after.pumps[id := Settled])
  }

  function Refreshes(p: Pty, id: nat): bool
    requires id in p.pumps && p.pumps[id].Refreshing?
  {
    p.pumps[id].generation == p.generation && p.host == Some(p.pumps[id].host)
  }

  /** The size listed after a control failure, if the session is listed. */
  function Refreshed(p: Pty, id: nat, size: Option<Size>): Pty
    requires id in p.pumps && p.pumps[id].Refreshing?
  {
    var after := if size.Some? && Refreshes(p, id) then p.(size := size.value) else p;
    after.(pumps := after.pumps[id := Settled])
  }

  // ---------------------------------------------------------------- runs

  /** `desired` is the size last asked for, `acked` the size last acknowledged. */
  datatype World = World(pty: Pty, desired: Option<Size>, acked: Option<Size>)

  datatype Action =
    | Resize(size: Size)
    | TakeControl(lease: nat)
    | Control(epoch: Option<nat>)
    | Transport(host: Option<nat>, demoted: bool) // another transport or none; `demoted` makes a watcher
    | Session(open: bool)
    | Dispose
    | SizeEvent(size: Size)
    | Ready(id: nat)
    | Ack(id: nat)
    | Error(id: nat, control: bool, invalidates: bool)
    | RefreshAnswer(id: nat, listed: Option<Size>)
    | Finish(id: nat)

  predicate At(p: Pty, id: nat, phase: Phase -> bool) {
    id in p.pumps && phase(p.pumps[id])
  }

  predicate Enabled(w: World, a: Action) {
    match a
    case Ready(id) => At(w.pty, id, (phase: Phase) => phase.AwaitingReady?)
    case Ack(id) => At(w.pty, id, (phase: Phase) => phase.Requesting?)
    case Error(id, _, _) => At(w.pty, id, (phase: Phase) => phase.Requesting?)
    case RefreshAnswer(id, _) => At(w.pty, id, (phase: Phase) => phase.Refreshing?)
    case Finish(id) => At(w.pty, id, (phase: Phase) => phase.Settled?)
    case _ => true
  }

  function Next(w: World, a: Action): World
    requires Enabled(w, a)
  {
    var p := w.pty;
    match a
    case Resize(size) =>
      w.(pty := Resized(p, size), desired := if p.disposed || p.readOnly then w.desired else Some(size))
    case TakeControl(lease) =>
      w.(pty := ControlTaken(p, lease), desired := if p.disposed then w.desired else Some(p.size))
    case Control(epoch) => w.(pty := ControlChanged(p, epoch))
    case Transport(host, demoted) => w.(pty := p.(host := host, readOnly := p.readOnly || demoted))
    case Session(open) => w.(pty := p.(hasSession := open))
    case Dispose => w.(pty := p.(disposed := true))
    case SizeEvent(size) => w.(pty := SizeChanged(p, size))
    case Ready(id) => w.(pty := Looped(p, id))
    case Ack(id) => w.(pty := Looped(p, id), acked := Some(p.pumps[id].size))
    case Error(id, control, invalidates) => w.(pty := RequestFailed(p, id, control, invalidates))
    case RefreshAnswer(id, listed) => w.(pty := Refreshed(p, id, listed))
    case Finish(id) => w.(pty := Finished(p, id))
  }

  ghost predicate Init(w: World) {
    w.pty.pumps == map[] && w.pty.pump.None? && w.pty.pending.None? && w.desired.None?
  }

  ghost predicate StepAt(states: seq<World>, actions: seq<Action>, i: nat)
    requires i < |actions| && |states| == |actions| + 1
  {
    Enabled(states[i], actions[i]) && states[i + 1] == Next(states[i], actions[i])
  }

  ghost predicate IsRun(states: seq<World>, actions: seq<Action>) {
    && |states| == |actions| + 1
    && Init(states[0])
    && forall i | 0 <= i < |actions| :: StepAt(states, actions, i)
  }

  // ---------------------------------------------------------------- one request in flight

  /** The client knows every pump there is. */
  ghost predicate OnePump(p: Pty) {
    && (forall id | id in p.pumps :: p.pump == Some(id))
    && (p.pump.Some? ==> p.pump.value in p.pumps)
  }

  lemma StepKeepsOnePump(w: World, a: Action)
    requires OnePump(w.pty) && Enabled(w, a)
    ensures OnePump(Next(w, a).pty)
  {
  }

  lemma {:induction false} RunHasOnePump(states: seq<World>, actions: seq<Action>, i: nat)
    requires IsRun(states, actions) && i < |states|
    ensures OnePump(states[i].pty)
  {
    if i > 0 {
      RunHasOnePump(states, actions, i - 1);
      assert StepAt(states, actions, i - 1);
      StepKeepsOnePump(states[i - 1], actions[i - 1]);
    }
  }

  function InFlight(p: Pty): set<nat> {
    set id | id in p.pumps && p.pumps[id].Requesting?
  }

  /** In every run, at most one resize request is in flight at any time. */
  lemma AtMostOneInFlight(states: seq<World>, actions: seq<Action>, i: nat)
    requires IsRun(states, actions) && i < |states|
    ensures |InFlight(states[i].pty)| <= 1
  {
    RunHasOnePump(states, actions, i);
    var p := states[i].pty;
    if p.pump.Some? {
      assert InFlight(p) <= {p.pump.value};
      SubsetSize(InFlight(p), p.pump.value);
    } else {
      assert InFlight(p) == {};
    }
  }

  lemma SubsetSize(s: set<nat>, id: nat)
    requires s <= {id}
    ensures |s| <= 1
  {
    assert s == {} || s == {id};
  }

  // ---------------------------------------------------------------- the newest size wins

  /** The size in flight, if any. */
  function Requested(p: Pty): Option<Size> {
    if p.pump.Some? && p.pump.value in p.pumps && p.pumps[p.pump.value].Requesting? then
      Some(p.pumps[p.pump.value].size)
    else
      None
  }

  /** The size asked for is pending; or else in flight; or else acknowledged. */
  ghost predicate Owed(w: World) {
    w.desired.Some? ==>
      w.desired == if w.pty.pending.Some? then w.pty.pending
                   else if Requested(w.pty).Some? then Requested(w.pty)
                   else w.acked
  }

  /** A failed request, or lost control. */
  predicate Fails(a: Action) {
    a.Error? || (a.Control? && a.epoch.None?)
  }

  /** A pump takes the pending size while there is nobody to send it to, and the agent has another one. */
  predicate DropsSize(w: World, a: Action) {
    && w.desired.Some? && w.pty.pending.Some? && !CanSend(w.pty)
    && match a
       case Ready(_) => w.acked != w.desired
       case Ack(id) => Enabled(w, a) && Some(w.pty.pumps[id].size) != w.desired
       case _ => false
  }

  /** Without failures, the size asked for is lost exactly where a pump drops it. */
  lemma StepKeepsOwedIff(w: World, a: Action)
    requires OnePump(w.pty) && Owed(w) && Enabled(w, a) && !Fails(a)
    ensures Owed(Next(w, a)) <==> !DropsSize(w, a)
  {
  }

  /** Asking for a size: from then on it is owed, whatever happened before. */
  predicate Asks(w: World, a: Action) {
    (a.Resize? && !w.pty.disposed && !w.pty.readOnly) || (a.TakeControl? && !w.pty.disposed)
  }

  function Asked(w: World, a: Action): Size
    requires Asks(w, a)
  {
    if a.Resize? then a.size else w.pty.size
  }

  /** The size asked for is neither pending nor in flight, and the agent has another one. */
  ghost predicate Dropped(w: World) {
    w.desired.Some? && w.pty.pending.None? && Requested(w.pty).None? && w.acked != w.desired
  }

  lemma StepKeepsDropped(w: World, a: Action)
    requires OnePump(w.pty) && Dropped(w) && Enabled(w, a) && !Asks(w, a)
    ensures Dropped(Next(w, a)) && Next(w, a).desired == w.desired
  {
  }

  lemma DropsForGood(w: World, a: Action)
    requires OnePump(w.pty) && Owed(w) && Enabled(w, a) && DropsSize(w, a)
    ensures Dropped(Next(w, a))
  {
  }

  /** From the last request for a size on: it is owed as long as no pump drops it, and afterwards gone. */
  lemma {:induction false} AskedIsOwedOrDropped(states: seq<World>, actions: seq<Action>, i: nat, j: nat)
    requires IsRun(states, actions) && i < j < |states| && Asks(states[i], actions[i])
    requires forall k | i < k < j :: !Asks(states[k], actions[k]) && !Fails(actions[k])
    ensures states[j].desired == Some(Asked(states[i], actions[i]))
    ensures if exists k :: i < k < j && DropsSize(states[k], actions[k]) then Dropped(states[j]) else Owed(states[j])
    decreases j
  {
    RunHasOnePump(states, actions, j - 1);
    var w, a := states[j - 1], actions[j - 1];
    assert StepAt(states, actions, j - 1);
    if j > i + 1 {
      AskedIsOwedOrDropped(states, actions, i, j - 1);
      if exists k :: i < k < j - 1 && DropsSize(states[k], actions[k]) {
        StepKeepsDropped(w, a);
      } else {
        StepKeepsOwedIff(w, a);
        if DropsSize(w, a) {
          DropsForGood(w, a);
        }
      }
    }
  }

  /** As long as no request fails and control is kept: once nothing is outstanding, the size acknowledged
      last is the size asked for last if and only if no pump dropped it for want of somebody to send to. */
  lemma QuietMeansAcknowledgedIff(states: seq<World>, actions: seq<Action>, i: nat, j: nat)
    requires IsRun(states, actions) && i < j < |states| && Asks(states[i], actions[i])
    requires forall k | i < k < j :: !Asks(states[k], actions[k]) && !Fails(actions[k])
    requires !Outstanding(states[j].pty)
    ensures states[j].acked == Some(Asked(states[i], actions[i]))
            <==> forall k | i < k < j :: !DropsSize(states[k], actions[k])
  {
    AskedIsOwedOrDropped(states, actions, i, j);
    RunHasOnePump(states, actions, j);
  }

  // ---------------------------------------------------------------- a pending size is not left behind

  /** A controller's pending size has a pump. */
  predicate Served(p: Pty) {
    p.pending.Some? && !p.disposed && !p.readOnly ==> p.pump.Some?
  }

  /** Control comes back, without being asked for, over a size that was left while it was away. */
  predicate Strands(w: World, a: Action) {
    && a.Control? && a.epoch.Some? && w.pty.readOnly && !w.pty.disposed
    && w.pty.pending.Some? && w.pty.pump.None?
  }

  lemma StepKeepsServedIff(w: World, a: Action)
    requires OnePump(w.pty) && Served(w.pty) && Enabled(w, a)
    ensures Served(Next(w, a).pty) <==> !Strands(w, a)
  {
  }

  /** Asking for a size serves whatever was left. */
  lemma AskingServes(w: World, a: Action)
    requires OnePump(w.pty) && Enabled(w, a) && Asks(w, a)
    ensures Served(Next(w, a).pty)
  {
  }

  lemma {:induction false} ServedThroughoutIff(states: seq<World>, actions: seq<Action>, i: nat, j: nat)
    requires IsRun(states, actions) && i <= j < |states| && Served(states[i].pty)
    ensures (forall k | i <= k <= j :: Served(states[k].pty))
            <==> (forall k | i <= k < j :: !Strands(states[k], actions[k]))
    decreases j
  {
    if i < j {
      ServedThroughoutIff(states, actions, i, j - 1);
      if forall k | i <= k < j :: Served(states[k].pty) {
        RunHasOnePump(states, actions, j - 1);
        assert StepAt(states, actions, j - 1);
        StepKeepsServedIff(states[j - 1], actions[j - 1]);
      }
    }
  }

  /** From the start of a run, or from any request for a size: in every state a controller's pending size
      has a pump, which is the only one there is, if and only if control never comes back over a size that
      was left while it was away. */
  lemma PendingIsServedIff(states: seq<World>, actions: seq<Action>, i: nat, j: nat)
    requires IsRun(states, actions) && i <= j < |states|
    requires i == 0 || Asks(states[i - 1], actions[i - 1])
    ensures (forall k | i <= k <= j :: Served(states[k].pty))
            <==> (forall k | i <= k < j :: !Strands(states[k], actions[k]))
    ensures forall k | i <= k <= j :: OnePump(states[k].pty)
  {
    forall k | i <= k <= j ensures OnePump(states[k].pty) {
      RunHasOnePump(states, actions, k);
    }
    if i > 0 {
      assert StepAt(states, actions, i - 1);
      RunHasOnePump(states, actions, i - 1);
      AskingServes(states[i - 1], actions[i - 1]);
    }
    ServedThroughoutIff(states, actions, i, j);
  }

  /** So once no pump runs, a controller to which nothing of that kind happened has settled: the size
      acknowledged last is the size asked for last, if and only if no pump dropped it. */
  lemma NoPumpMeansAcknowledgedIff(states: seq<World>, actions: seq<Action>, i: nat, j: nat)
    requires IsRun(states, actions) && i < j < |states| && Asks(states[i], actions[i])
    requires forall k | i < k < j :: !Asks(states[k], actions[k]) && !Fails(actions[k])
    requires forall k | i < k < j :: !Strands(states[k], actions[k])
    requires states[j].pty.pumps == map[] && !states[j].pty.disposed && !states[j].pty.readOnly
    ensures states[j].acked == Some(Asked(states[i], actions[i]))
            <==> forall k | i < k < j :: !DropsSize(states[k], actions[k])
  {
    PendingIsServedIff(states, actions, i + 1, j);
    QuietMeansAcknowledgedIff(states, actions, i, j);
  }

  /** What a pump has been waiting for arrives. */
  function Urged(w: World, id: nat): Action
    requires id in w.pty.pumps
  {
    match w.pty.pumps[id]
    case AwaitingReady => Ready(id)
    case Requesting(_, _, _) => Ack(id)
    case Refreshing(_, _) => RefreshAnswer(id, None)
    case Settled => Finish(id)
  }

  function StepsToSend(phase: Phase): nat {
    match phase
    case Refreshing(_, _) => 3
    case Settled => 2
    case _ => 1
  }

  function Follow(w: World, steps: nat): World
    decreases steps
  {
    if steps == 0 || w.pty.pump.None? || w.pty.pump.value !in w.pty.pumps then w
    else Follow(Next(w, Urged(w, w.pty.pump.value)), steps - 1)
  }

  lemma UrgedSendsOrGoesOn(w: World)
    requires OnePump(w.pty) && w.pty.pump.Some? && w.pty.pending.Some? && CanSend(w.pty)
    ensures var id := w.pty.pump.value;
            var v := Next(w, Urged(w, id));
            if StepsToSend(w.pty.pumps[id]) == 1 then
              v.pty == w.pty.(pending := None,
                              pumps := map[id := Requesting(w.pty.pending.value, w.pty.lease, w.pty.host.value)])
            else
              && OnePump(v.pty) && v.pty.pump.Some? && v.pty.pending == w.pty.pending && CanSend(v.pty)
              && StepsToSend(v.pty.pumps[v.pty.pump.value]) == StepsToSend(w.pty.pumps[id]) - 1
              && v.pty.lease == w.pty.lease && v.pty.host == w.pty.host
  {
    var id := w.pty.pump.value;
    assert w.pty.pumps.Keys == {id};
    if StepsToSend(w.pty.pumps[id]) == 1 {
      assert w.pty.pumps[id := Requesting(w.pty.pending.value, w.pty.lease, w.pty.host.value)]
          == map[id := Requesting(w.pty.pending.value, w.pty.lease, w.pty.host.value)];
    }
  }

  /** A pending size with a pump is sent, over the transport and under the lease of the moment, as soon as
      the pump gets what it waits for, at most three times. */
  lemma {:induction false} PendingIsSent(w: World)
    requires OnePump(w.pty) && w.pty.pump.Some? && w.pty.pending.Some? && CanSend(w.pty)
    ensures var v := Follow(w, StepsToSend(w.pty.pumps[w.pty.pump.value])).pty;
            && v.pump.Some? && v.pending.None?
            && v.pumps == map[v.pump.value := Requesting(w.pty.pending.value, w.pty.lease, w.pty.host.value)]
    decreases StepsToSend(w.pty.pumps[w.pty.pump.value])
  {
    var id := w.pty.pump.value;
    var v := Next(w, Urged(w, id));
    UrgedSendsOrGoesOn(w);
    if StepsToSend(w.pty.pumps[id]) > 1 {
      PendingIsSent(v);
    } else {
      assert Follow(w, 1) == Follow(v, 0);
    }
  }

  /** A size asked for after a pump has taken its last look. */
  lemma RunToLateSize(old80: Size, new100: Size) returns (states: seq<World>, actions: seq<Action>)
    ensures IsRun(states, actions) && actions == [Resize(old80), Ready(0), Ack(0), Resize(new100)]
    ensures var p := Pty(new100, false, false, Some(0), true, 1, 0, Some(new100), Some(0), map[0 := Settled], 1);
            states[4] == World(p, Some(new100), Some(old80))
  {
    var s0 := World(Pty(old80, false, false, Some(0), true, 1, 0, None, None, map[], 0), None, Some(old80));
    actions := [Resize(old80), Ready(0), Ack(0), Resize(new100)];
    var s1 := Next(s0, actions[0]);
    var s2 := Next(s1, actions[1]);
    var s3 := Next(s2, actions[2]);
    states := [s0, s1, s2, s3, Next(s3, actions[3])];
  }

  /** The pump ends while control is away, and when control comes back, nothing will send that size. */
  lemma RegainedControlStrands(old80: Size, new100: Size) returns (states: seq<World>, actions: seq<Action>)
    ensures IsRun(states, actions)
    ensures actions == [Resize(old80), Ready(0), Ack(0), Resize(new100)] + [Transport(Some(0), true)] + [Finish(0)]
                       + [Control(Some(2))]
    ensures Strands(states[6], actions[6])
    ensures states[7].pty.pumps == map[] && states[7].pty.pending == Some(new100) && CanSend(states[7].pty)
  {
    states, actions := RunToLateSize(old80, new100);
    var demoted := Next(states[4], Transport(Some(0), true));
    Longer(states, actions, Transport(Some(0), true));
    states, actions := states + [demoted], actions + [Transport(Some(0), true)];
    var finished := Next(demoted, Finish(0));
    Longer(states, actions, Finish(0));
    states, actions := states + [finished], actions + [Finish(0)];
    Longer(states, actions, Control(Some(2)));
    states, actions := states + [Next(finished, Control(Some(2)))], actions + [Control(Some(2))];
  }

  /** Nothing fails and control is kept, and yet the size asked for is never sent: the pump takes it while
      the transport is gone. */
  lemma OfflineResizeIsDropped(old80: Size, new100: Size) returns (states: seq<World>, actions: seq<Action>)
    requires old80 != new100
    ensures IsRun(states, actions)
    ensures actions == [Resize(new100), Transport(None, false), Ready(0), Finish(0)]
    ensures DropsSize(states[2], actions[2])
    ensures !Outstanding(states[4].pty) && !states[4].pty.readOnly && states[4].pty.size == new100
    ensures states[4].desired == Some(new100) && states[4].acked == Some(old80)
  {
    var s0 := World(Pty(old80, false, false, Some(0), true, 1, 0, None, None, map[], 0), None, Some(old80));
    actions := [Resize(new100), Transport(None, false), Ready(0), Finish(0)];
    var s1 := Next(s0, actions[0]);
    var s2 := Next(s1, actions[1]);
    var s3 := Next(s2, actions[2]);
    states := [s0, s1, s2, s3, Next(s3, actions[3])];
  }

  /** A request was refused for a lease that is not the newest any more: the pump goes on with the size that
      is pending at once, and asks for no listing. */
  lemma OutdatedRefusalGoesOn(w: World, id: nat, invalidates: bool)
    requires Enabled(w, Error(id, true, invalidates)) && CanSend(w.pty) && w.pty.pending.Some?
    requires w.pty.host == Some(w.pty.pumps[id].host) && w.pty.pumps[id].lease != w.pty.lease && !invalidates
    ensures var v := Next(w, Error(id, true, invalidates));
            v.pty == w.pty.(pending := None, pumps := w.pty.pumps[id :=
                              Requesting(w.pty.pending.value, w.pty.lease, w.pty.host.value)])
  {
  }

  /** The client is granted a lease. */
  predicate Grants(w: World, a: Action) {
    (a.Control? && a.epoch.Some?) || (a.TakeControl? && !w.pty.disposed)
  }

  function Granted(w: World, a: Action): nat
    requires Grants(w, a)
  {
    if a.Control? then a.epoch.value else a.lease
  }

  /** In every run the lease is the one granted last. */
  lemma {:induction false} LeaseIsNewest(states: seq<World>, actions: seq<Action>, i: nat, j: nat)
    requires IsRun(states, actions) && i < j < |states| && Grants(states[i], actions[i])
    requires forall k | i < k < j :: !Grants(states[k], actions[k])
    ensures states[j].pty.lease == Granted(states[i], actions[i])
    decreases j
  {
    assert StepAt(states, actions, j - 1);
    if i < j - 1 {
      LeaseIsNewest(states, actions, i, j - 1);
    }
  }

  // ---------------------------------------------------------------- watchers

  /** Once control is lost, nothing is pending until it is granted again: what was asked for before is never
      sent afterwards. */
  lemma {:induction false} WatcherHasNothingPending(states: seq<World>, actions: seq<Action>, i: nat, j: nat)
    requires IsRun(states, actions) && i < j < |states| && actions[i] == Control(None)
    requires forall k | i < k < j :: !Grants(states[k], actions[k])
    ensures states[j].pty.readOnly && states[j].pty.pending.None?
    decreases j
  {
    RunHasOnePump(states, actions, j - 1);
    assert StepAt(states, actions, j - 1);
    if i < j - 1 {
      WatcherHasNothingPending(states, actions, i, j - 1);
    }
  }

  /** A pump that waits for the listing goes on waiting until it comes, and remembers no generation ahead. */
  ghost predicate Waits(p: Pty, id: nat, generation: nat) {
    id in p.pumps && p.pumps[id].Refreshing? && p.pumps[id].generation <= generation
  }

  lemma StepKeepsWaiting(w: World, a: Action, id: nat, generation: nat)
    requires OnePump(w.pty) && Enabled(w, a) && Waits(w.pty, id, generation)
    requires a.RefreshAnswer? ==> a.id != id
    ensures Waits(Next(w, a).pty, id, generation) && Next(w, a).pty.generation >= w.pty.generation
  {
  }

  lemma {:induction false} WaitsForListing(states: seq<World>, actions: seq<Action>, id: nat, generation: nat,
                                           i: nat, j: nat)
    requires IsRun(states, actions) && i <= j < |states| && Waits(states[i].pty, id, generation)
    requires forall k | i <= k < j :: actions[k].RefreshAnswer? ==> actions[k].id != id
    ensures Waits(states[j].pty, id, generation) && states[j].pty.generation >= states[i].pty.generation
    decreases j
  {
    if i < j {
      WaitsForListing(states, actions, id, generation, i, j - 1);
      RunHasOnePump(states, actions, j - 1);
      assert StepAt(states, actions, j - 1);
      StepKeepsWaiting(states[j - 1], actions[j - 1], id, generation);
    }
  }

  /** The agent's size events reach every watcher, and every controller but one that asks for another size. */
  lemma SizeEventShownIff(w: World, size: Size)
    ensures Next(w, SizeEvent(size)).pty.size == size
            <==> w.pty.readOnly || !Outstanding(w.pty) || size == w.pty.size
  {
  }

  /** A listing that was asked for before the newest size event that was shown never replaces its size. */
  lemma OlderListingIsIgnored(states: seq<World>, actions: seq<Action>, id: nat, i: nat, k: nat, j: nat)
    requires IsRun(states, actions) && i <= k < j < |actions|
    requires Waits(states[i].pty, id, states[i].pty.generation)
    requires forall m | i <= m < j :: actions[m].RefreshAnswer? ==> actions[m].id != id
    requires actions[k].SizeEvent? && states[k + 1].pty.size == actions[k].size
    requires actions[j].RefreshAnswer? && actions[j].id == id
    ensures states[j + 1].pty.size == states[j].pty.size
  {
    assert StepAt(states, actions, k) && StepAt(states, actions, j);
    var generation := states[i].pty.generation;
    WaitsForListing(states, actions, id, generation, i, k);
    WaitsForListing(states, actions, id, generation, k, k + 1);
    WaitsForListing(states, actions, id, generation, k + 1, j);
  }

  // ---------------------------------------------------------------- the controller is not moved back

  /** A controller that is asking shows the size it asks for. */
  ghost predicate Holds(w: World) {
    !w.pty.readOnly && Outstanding(w.pty) ==> w.desired == Some(w.pty.size)
  }

  /** A step that leaves a controller asking for one size and showing another: it gets control back while
      an old request is outstanding, or the listing after a control failure is applied to it. */
  predicate Moves(w: World, a: Action) {
    match a
    case Control(epoch) =>
      epoch.Some? && w.pty.readOnly && Outstanding(w.pty) && w.desired != Some(w.pty.size)
    case RefreshAnswer(id, listed) =>
      Enabled(w, a) && listed.Some? && Refreshes(w.pty, id) && !w.pty.readOnly && listed.value != w.pty.size
    case _ => false
  }

  lemma StepKeepsHoldingIff(w: World, a: Action)
    requires OnePump(w.pty) && Holds(w) && Enabled(w, a)
    ensures Holds(Next(w, a)) <==> !Moves(w, a)
  {
  }

  /** Asking for a size ends whatever went wrong before. */
  lemma AskingHolds(w: World, a: Action)
    requires Enabled(w, a) && Asks(w, a)
    ensures Holds(Next(w, a))
  {
  }

  /** From a state in which the controller shows its size, it goes on doing so in every state of the run
      if and only if no step moves it. */
  lemma {:induction false} HoldsThroughoutIff(states: seq<World>, actions: seq<Action>, i: nat, j: nat)
    requires IsRun(states, actions) && i <= j < |states| && Holds(states[i])
    ensures (forall k | i <= k <= j :: Holds(states[k])) <==> (forall k | i <= k < j :: !Moves(states[k], actions[k]))
    decreases j
  {
    if i < j {
      HoldsThroughoutIff(states, actions, i, j - 1);
      if forall k | i <= k < j :: Holds(states[k]) {
        RunHasOnePump(states, actions, j - 1);
        assert StepAt(states, actions, j - 1);
        StepKeepsHoldingIff(states[j - 1], actions[j - 1]);
      }
    }
  }

  /** From the start of a run, or from any request for a size: in every state the controller that has a
      resize outstanding shows the size it asked for last, if and only if no step moves it; and the
      agent's size events never change what such a controller shows. */
  lemma ControllerKeepsItsSize(states: seq<World>, actions: seq<Action>, i: nat, j: nat)
    requires IsRun(states, actions) && i <= j < |states|
    requires i == 0 || Asks(states[i - 1], actions[i - 1])
    ensures (forall k | i <= k <= j :: Holds(states[k])) <==> (forall k | i <= k < j :: !Moves(states[k], actions[k]))
    ensures forall k, size | i <= k <= j && !states[k].pty.readOnly && Outstanding(states[k].pty) ::
              Next(states[k], SizeEvent(size)).pty.size == states[k].pty.size
  {
    if i > 0 {
      assert StepAt(states, actions, i - 1);
      AskingHolds(states[i - 1], actions[i - 1]);
    }
    HoldsThroughoutIff(states, actions, i, j);
  }

  lemma Longer(states: seq<World>, actions: seq<Action>, a: Action)
    requires IsRun(states, actions) && Enabled(states[|actions|], a)
    ensures IsRun(states + [Next(states[|actions|], a)], actions + [a])
  {
    var longer, more := states + [Next(states[|actions|], a)], actions + [a];
    forall i | 0 <= i < |more| ensures StepAt(longer, more, i) {
      if i < |actions| {
        assert StepAt(states, actions, i);
      }
    }
  }

  /** Control was lost with a request in flight, and the listing has been asked for. */
  lemma RunToListing(old80: Size, new100: Size) returns (states: seq<World>, actions: seq<Action>)
    requires old80 != new100
    ensures IsRun(states, actions) && actions == [Resize(new100), Ready(0), Error(0, true, true)]
    ensures var p := Pty(new100, true, false, Some(0), true, 1, 0, None, Some(0), map[0 := Refreshing(0, 0)], 1);
            states[3] == World(p, Some(new100), None)
    ensures forall k | 0 <= k < 3 :: !Moves(states[k], actions[k])
  {
    var s0 := World(Pty(old80, false, false, Some(0), true, 1, 0, None, None, map[], 0), None, None);
    actions := [Resize(new100), Ready(0), Error(0, true, true)];
    var s1 := Next(s0, actions[0]);
    var s2 := Next(s1, actions[1]);
    states := [s0, s1, s2, Next(s2, actions[2])];
  }

  /** The listing does move it: control is lost and taken back while the listing is on its way, and its
      old size replaces the one the controller has just asked for. */
  lemma ListingMovesController(old80: Size, new100: Size) returns (states: seq<World>, actions: seq<Action>)
    requires old80 != new100
    ensures IsRun(states, actions) && |actions| == 5
    ensures (forall k | 0 <= k < 4 :: !Moves(states[k], actions[k])) && Moves(states[4], actions[4])
    ensures !states[5].pty.readOnly && states[5].pty.pending == states[5].desired == Some(new100)
    ensures states[5].pty.size == old80
  {
    states, actions := RunToListing(old80, new100);
    var taken := Next(states[3], TakeControl(2));
    Longer(states, actions, TakeControl(2));
    states, actions := states + [taken], actions + [TakeControl(2)];
    var listing := RefreshAnswer(0, Some(old80));
    Longer(states, actions, listing);
    states, actions := states + [Next(taken, listing)], actions + [listing];
  }

  /** So does control that comes back, without being asked for, before the pump of an old request has
      ended: the watcher's size is kept. */
  lemma RegainedControlMoves(old80: Size, new100: Size) returns (states: seq<World>, actions: seq<Action>)
    requires old80 != new100
    ensures IsRun(states, actions)
    ensures actions == [Resize(new100), Control(None), SizeEvent(old80), Control(Some(2))]
    ensures (forall k | 0 <= k < 3 :: !Moves(states[k], actions[k])) && Moves(states[3], actions[3])
    ensures !Holds(states[4])
  {
    var s0 := World(Pty(old80, false, false, Some(0), true, 1, 0, None, None, map[], 0), None, None);
    actions := [Resize(new100), Control(None), SizeEvent(old80), Control(Some(2))];
    var s1 := Next(s0, actions[0]);
    var s2 := Next(s1, actions[1]);
    var s3 := Next(s2, actions[2]);
    states := [s0, s1, s2, s3, Next(s3, actions[3])];
  }

  // ---------------------------------------------------------------- the client's fields

  class ResizePump {
    var size: Size
    var readOnly: bool
    var disposed: bool
    var host: Option<nat>
    var hasSession: bool
    var lease: nat
    var generation: nat
    var pending: Option<Size>
    var pump: Option<nat>
    var pumps: map<nat, Phase>
    var nextPump: nat

    ghost function State(): Pty
      reads this
    {
      Pty(size, readOnly, disposed, host, hasSession, lease, generation, pending, pump, pumps, nextPump)
    }

    constructor (size: Size, local: bool)
      ensures State() == Pty(size, !local, false, None, false, 0, 0, None, None, map[], 0)
    {
      this.size, readOnly, disposed, host, hasSession := size, !local, false, None, false;
      lease, generation, pending, pump, pumps, nextPump := 0, 0, None, None, map[], 0;
    }

    method Resize(wanted: Size)
      modifies this
      ensures State() == Resized(old(State()), wanted)
    {
      if disposed || readOnly {
        return;
      }
      size := wanted;
      EnqueueResize(wanted);
    }

    method EnqueueResize(wanted: Size)
      modifies this
      ensures State() == Enqueued(old(State()), wanted)
    {
      pending := Some(wanted);
      if pump.Some? {
        return;
      }
      pumps := pumps[nextPump := AwaitingReady];
      pump := Some(nextPump);
      nextPump := nextPump + 1;
    }

    method FinishResizePump(id: nat)
      modifies this
      ensures State() == Finished(old(State()), id)
    {
      pumps := pumps - {id};
      if pump != Some(id) {
        return;
      }
      pump := None;
      if pending.None? || disposed || readOnly {
        return;
      }
      EnqueueResize(pending.value);
    }

    /** The head of the loop in `flushPendingResizes`. */
    method TakePending(id: nat)
      modifies this
      ensures State() == Looped(old(State()), id)
    {
      if pending.None? {
        pumps := pumps[id := Settled];
        return;
      }
      var next := pending.value;
      pending := None;
      if disposed || host.None? || !hasSession || readOnly {
        pumps := pumps[id := Settled];
        return;
      }
      pumps := pumps[id := Requesting(next, lease, host.value)];
    }

    method OnRequestFailed(id: nat, control: bool, invalidates: bool)
      requires id in pumps && pumps[id].Requesting?
      modifies this
      ensures State() == RequestFailed(old(State()), id, control, invalidates)
    {
      var request := pumps[id];
      if control && host == Some(request.host) && invalidates {
        OnControl(None);
      }
      var superseded := control && host == Some(request.host) && !readOnly && lease != request.lease;
      if superseded {
        TakePending(id);
        return;
      }
      if control && host == Some(request.host) {
        pumps := pumps[id := Refreshing(generation, request.host)];
        return;
      }
      pumps := pumps[id := Settled];
    }

    method OnListing(id: nat, listed: Option<Size>)
      requires id in pumps && pumps[id].Refreshing?
      modifies this
      ensures State() == Refreshed(old(State()), id, listed)
    {
      if listed.Some? && pumps[id].generation == generation && host == Some(pumps[id].host) {
        size := listed.value;
      }
      pumps := pumps[id := Settled];
    }

    method OnControl(epoch: Option<nat>)
      modifies this
      ensures State() == ControlChanged(old(State()), epoch)
    {
      if epoch.None? {
        pending := None;
        readOnly := true;
        return;
      }
      lease := epoch.value;
      readOnly := false;
    }

    method TakeControl(epoch: nat)
      modifies this
      ensures State() == ControlTaken(old(State()), epoch)
    {
      if disposed {
        return;
      }
      lease := epoch;
      readOnly := false;
      EnqueueResize(size);
    }

    method OnSizeChanged(canonical: Size)
      modifies this
      ensures State() == SizeChanged(old(State()), canonical)
    {
      if !readOnly && (pump.Some? || pending.Some?) && canonical != size {
        return;
      }
      generation := generation + 1;
      size := canonical;
    }
  }
}
