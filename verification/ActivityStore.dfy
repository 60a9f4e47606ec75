/** Which panes produced output within the last 800 ms, with one lazy timer a pane
    (src/stores/activity-store.ts). */
module Activity {
  import opened Common

  const ACTIVITY_IDLE_MS: nat := 800

  /** A pane's deadline state; `entry` tells it from an earlier one of the same pane. */
  datatype Deadline = Deadline(entry: nat, lastActivityAt: nat, timer: nat)

  /** A scheduled `setTimeout` callback. */
  datatype Timer = Timer(pane: string, entry: nat, due: nat)

  /** `scheduled` are the callbacks that have neither run nor been cleared. */
  datatype Store = Store(active: set<string>, everActive: set<string>, timers: map<string, Deadline>,
                         scheduled: map<nat, Timer>, nextId: nat)

  /** The milliseconds left until the pane is idle, if any are. */
  function ActivityIdleDelay(now: nat, lastActivityAt: nat): (delay: Option<nat>)
    requires lastActivityAt <= now
    ensures delay.Some? <==> now < lastActivityAt + ACTIVITY_IDLE_MS
    ensures delay.Some? ==> 0 < delay.value && now + delay.value == lastActivityAt + ACTIVITY_IDLE_MS
  {
    var remaining := ACTIVITY_IDLE_MS - (now - lastActivityAt);
    if remaining > 0 then Some(remaining) else None
  }

  // ---------------------------------------------------------------- what a call does

  function Scheduled(s: Store, pane: string, entry: nat, last: nat, due: nat): Store {
    s.(timers := s.timers[pane := Deadline(entry, last, s.nextId)],
       scheduled := s.scheduled[s.nextId := Timer(pane, entry, due)],
       nextId := s.nextId + 1)
  }

  function Marked(s: Store, pane: string, now: nat): Store {
    var on := s.(active := s.active + {pane}, everActive := s.everActive + {pane});
    if pane in s.timers then on.(timers := s.timers[pane := s.timers[pane].(lastActivityAt := now)])
    else Scheduled(on.(nextId := s.nextId + 1), pane, s.nextId, now, now + ACTIVITY_IDLE_MS)
  }

  function Cleared(s: Store, pane: string): Store {
    var off := s.(active := s.active - {pane}, everActive := s.everActive - {pane});
    if pane !in s.timers then off
    else off.(timers := s.timers - {pane}, scheduled := s.scheduled - {s.timers[pane].timer})
  }

  function Fired(s: Store, id: nat, now: nat): Store
    requires id in s.scheduled
    requires var t := s.scheduled[id]; t.pane in s.timers ==> s.timers[t.pane].lastActivityAt <= now
  {
    var t, rest := s.scheduled[id], s.(scheduled := s.scheduled - {id});
    if t.pane !in s.timers || s.timers[t.pane].entry != t.entry then rest
    else
      var last := s.timers[t.pane].lastActivityAt;
      var delay := ActivityIdleDelay(now, last);
      if delay.Some? then Scheduled(rest, t.pane, t.entry, last, now + delay.value)
      else rest.(timers := rest.timers - {t.pane}, active := rest.active - {t.pane})
  }

  // ---------------------------------------------------------------- runs

  /** `lastOutput` is when each pane that has not been cleared produced output last. */
  datatype World = World(store: Store, now: nat, lastOutput: map<string, nat>)

  datatype Action = Mark(pane: string) | Clear(pane: string) | Fire(id: nat) | Wait(ms: nat)

  predicate Enabled(w: World, a: Action) {
    a.Fire? ==> a.id in w.store.scheduled && w.store.scheduled[a.id].due <= w.now
  }

  ghost predicate Past(w: World) {
    forall pane | pane in w.store.timers :: w.store.timers[pane].lastActivityAt <= w.now
  }

  function Next(w: World, a: Action): World
    requires Past(w) && Enabled(w, a)
  {
    match a
    case Mark(pane) => w.(store := Marked(w.store, pane, w.now), lastOutput := w.lastOutput[pane := w.now])
    case Clear(pane) => w.(store := Cleared(w.store, pane), lastOutput := w.lastOutput - {pane})
    case Fire(id) => w.(store := Fired(w.store, id, w.now))
    case Wait(ms) => w.(now := w.now + ms)
  }

  /** Every scheduled callback is the timer of a pane's current deadline, and the other way round. */
  ghost predicate OneTimer(s: Store) {
    && (forall id | id in s.scheduled ::
          && id < s.nextId && s.scheduled[id].pane in s.timers
          && s.timers[s.scheduled[id].pane].timer == id
          && s.timers[s.scheduled[id].pane].entry == s.scheduled[id].entry)
    && (forall pane | pane in s.timers ::
          s.timers[pane].timer in s.scheduled && s.scheduled[s.timers[pane].timer].pane == pane)
  }

  /** The panes with a deadline are the active ones, and no callback is due after the deadline. */
  ghost predicate Tracks(w: World) {
    && (forall pane :: pane in w.store.timers <==> pane in w.store.active)
    && w.store.active <= w.store.everActive
    && (forall pane :: pane in w.lastOutput <==> pane in w.store.everActive)
    && (forall pane | pane in w.store.timers ::
          pane in w.lastOutput && w.store.timers[pane].lastActivityAt == w.lastOutput[pane])
    && (forall pane | pane in w.lastOutput && w.now < w.lastOutput[pane] + ACTIVITY_IDLE_MS :: pane in w.store.timers)
    && (forall id | id in w.store.scheduled && w.store.scheduled[id].pane in w.lastOutput ::
          w.store.scheduled[id].due <= w.lastOutput[w.store.scheduled[id].pane] + ACTIVITY_IDLE_MS)
  }

  ghost predicate Inv(w: World) {
    OneTimer(w.store) && Past(w) && Tracks(w)
  }

  lemma StepKeepsPast(w: World, a: Action)
    requires Inv(w) && Enabled(w, a)
    ensures Past(Next(w, a))
  {
  }

  lemma MarkKeepsOneTimer(s: Store, pane: string, now: nat)
    requires OneTimer(s)
    ensures OneTimer(Marked(s, pane, now))
  {
  }

  lemma ClearKeepsOneTimer(s: Store, pane: string)
    requires OneTimer(s)
    ensures OneTimer(Cleared(s, pane))
  {
  }

  lemma FireKeepsOneTimer(s: Store, id: nat, now: nat)
    requires OneTimer(s) && id in s.scheduled
    requires s.timers[s.scheduled[id].pane].lastActivityAt <= now
    ensures OneTimer(Fired(s, id, now))
  {
  }

  lemma StepKeepsOneTimer(w: World, a: Action)
    requires Inv(w) && Enabled(w, a)
    ensures OneTimer(Next(w, a).store)
  {
    match a
    case Mark(pane) => MarkKeepsOneTimer(w.store, pane, w.now);
    case Clear(pane) => ClearKeepsOneTimer(w.store, pane);
    case Fire(id) => FireKeepsOneTimer(w.store, id, w.now);
    case Wait(_) =>
  }

  lemma FireKeepsTracking(w: World, a: Action)
    requires Inv(w) && Enabled(w, a) && a.Fire?
    ensures Tracks(Next(w, a))
  {
  }

  lemma OtherStepKeepsTracking(w: World, a: Action)
    requires Inv(w) && Enabled(w, a) && !a.Fire?
    ensures Tracks(Next(w, a))
  {
  }

  lemma StepKeepsTracking(w: World, a: Action)
    requires Inv(w) && Enabled(w, a)
    ensures Tracks(Next(w, a))
  {
    if a.Fire? {
      FireKeepsTracking(w, a);
    } else {
      OtherStepKeepsTracking(w, a);
    }
  }

  ghost predicate StepAt(states: seq<World>, actions: seq<Action>, i: nat)
    requires i < |actions| && |states| == |actions| + 1
  {
    Past(states[i]) && Enabled(states[i], actions[i]) && states[i + 1] == Next(states[i], actions[i])
  }

  ghost predicate IsRun(states: seq<World>, actions: seq<Action>) {
    && |states| == |actions| + 1
    && states[0].store == Store({}, {}, map[], map[], 0) && states[0].lastOutput == map[]
    && forall i | 0 <= i < |actions| :: StepAt(states, actions, i)
  }

  lemma {:induction false} RunKeepsInv(states: seq<World>, actions: seq<Action>, i: nat)
    requires IsRun(states, actions) && i < |states|
    ensures Inv(states[i])
  {
    if i > 0 {
      RunKeepsInv(states, actions, i - 1);
      assert StepAt(states, actions, i - 1);
      StepKeepsPast(states[i - 1], actions[i - 1]);
      StepKeepsOneTimer(states[i - 1], actions[i - 1]);
      StepKeepsTracking(states[i - 1], actions[i - 1]);
    }
  }

  /** In every run, however late the timers: each pane owns at most one timer, active panes have been
      active before, and a pane is never dropped within 800 ms of its last output. */
  lemma NeverDroppedEarly(states: seq<World>, actions: seq<Action>, i: nat)
    requires IsRun(states, actions) && i < |states|
    ensures var w := states[i];
            && (forall a, b | a in w.store.scheduled && b in w.store.scheduled
                  && w.store.scheduled[a].pane == w.store.scheduled[b].pane :: a == b)
            && w.store.active <= w.store.everActive
            && (forall pane | pane in w.lastOutput && w.now < w.lastOutput[pane] + ACTIVITY_IDLE_MS ::
                  pane in w.store.active)
  {
    RunKeepsInv(states, actions, i);
  }

  /** No callback that is due has still to run. */
  ghost predicate OnTime(w: World) {
    forall id | id in w.store.scheduled :: w.now < w.store.scheduled[id].due
  }

  /** Re-arming a timer at every output: active exactly within 800 ms of the last one. */
  predicate RearmedActive(w: World, pane: string) {
    pane in w.lastOutput && w.now < w.lastOutput[pane] + ACTIVITY_IDLE_MS
  }

  /** Whenever the timers are on time, the one lazy timer shows what re-arming at every output would. */
  lemma LazyTimerRefinesRearming(states: seq<World>, actions: seq<Action>, i: nat, pane: string)
    requires IsRun(states, actions) && i < |states| && OnTime(states[i])
    ensures pane in states[i].store.active <==> RearmedActive(states[i], pane)
  {
    RunKeepsInv(states, actions, i);
  }

  /** Every callback that a step schedules is due 800 ms after the pane's last output, which is later. */
  lemma ArmedForDeadline(w: World, a: Action, id: nat)
    requires Inv(w) && Enabled(w, a) && id in Next(w, a).store.scheduled && id !in w.store.scheduled
    ensures var v := Next(w, a);
            var pane := v.store.scheduled[id].pane;
            && pane in v.lastOutput && w.now < v.store.scheduled[id].due == v.lastOutput[pane] + ACTIVITY_IDLE_MS
  {
  }

  /** Being on time is possible: a due callback can run, and is then scheduled in the future or gone. */
  lemma FiringCatchesUp(w: World, id: nat)
    requires Inv(w) && Enabled(w, Fire(id))
    ensures id !in Next(w, Fire(id)).store.scheduled
    ensures forall other | other in Next(w, Fire(id)).store.scheduled && other !in w.store.scheduled ::
              w.now < Next(w, Fire(id)).store.scheduled[other].due
  {
  }

  // ---------------------------------------------------------------- the store's variables

  class ActivityStore {
    var active: set<string>
    var everActive: set<string>
    var timers: map<string, Deadline>
    var scheduled: map<nat, Timer>
    var nextId: nat

    ghost function State(): Store
      reads this
    {
      Store(active, everActive, timers, scheduled, nextId)
    }

    constructor ()
      ensures State() == Store({}, {}, map[], map[], 0)
    {
      active, everActive, timers, scheduled, nextId := {}, {}, map[], map[], 0;
    }

    method MarkActivity(pane: string, now: nat)
      modifies this
      ensures State() == Marked(old(State()), pane, now)
    {
      Set(pane, true);
      if pane in timers {
        timers := timers[pane := timers[pane].(lastActivityAt := now)];
        return;
      }
      var entry := nextId;
      nextId := nextId + 1;
      ScheduleIdleCheck(pane, entry, now, now + ACTIVITY_IDLE_MS);
    }

    method ScheduleIdleCheck(pane: string, entry: nat, last: nat, due: nat)
      modifies this
      ensures State() == Scheduled(old(State()), pane, entry, last, due)
    {
      timers := timers[pane := Deadline(entry, last, nextId)];
      scheduled := scheduled[nextId := Timer(pane, entry, due)];
      nextId := nextId + 1;
    }

    method RunTimer(id: nat, now: nat)
      requires id in scheduled
      requires scheduled[id].pane in timers ==> timers[scheduled[id].pane].lastActivityAt <= now
      modifies this
      ensures State() == Fired(old(State()), id, now)
    {
      var timer := scheduled[id];
      scheduled := scheduled - {id};
      if timer.pane !in timers || timers[timer.pane].entry != timer.entry {
        return;
      }
      var last := timers[timer.pane].lastActivityAt;
      var remaining := ActivityIdleDelay(now, last);
      if remaining.Some? {
        ScheduleIdleCheck(timer.pane, timer.entry, last, now + remaining.value);
        return;
      }
      timers := timers - {timer.pane};
      Set(timer.pane, false);
    }

    method ClearActivity(pane: string)
      modifies this
      ensures State() == Cleared(old(State()), pane)
    {
      if pane in timers {
        scheduled := scheduled - {timers[pane].timer};
        timers := timers - {pane};
      }
      active := active - {pane};
      everActive := everActive - {pane};
    }

    method Set(pane: string, on: bool)
      modifies this`active, this`everActive
      ensures active == if on then old(active) + {pane} else old(active) - {pane}
      ensures everActive == if on then old(everActive) + {pane} else old(everActive)
    {
      var inActive := pane in active;
      var newlyEver := on && pane !in everActive;
      if on == inActive && !newlyEver {
        return;
      }
      if on != inActive {
        if on {
          active := active + {pane};
        } else {
          active := active - {pane};
        }
      }
      if newlyEver {
        everActive := everActive + {pane};
      }
    }
  }
}
