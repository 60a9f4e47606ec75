/** Orphan composition commits on WebKitGTK: delivered once, without a trace in the textarea
    (src/lib/terminal-composition-guard.ts). */
module CompositionGuards {
  import opened Common

  /** An event target, compared by identity only. */
  type Target = nat

  /** Committed text, or none because it must be recovered from the mutation, or nothing to deliver. */
  datatype Delivery = Text(text: string) | Recover | RestoreOnly

  datatype Pending = Pending(target: Target, value: string, deliver: Delivery)

  datatype Guard = Guard(compositionTarget: Option<Target>, lastKeydownKeyCode: int, pending: Option<Pending>)

  const FRESH: Guard := Guard(None, -1, None)

  // ---------------------------------------------------------------- the text of a mutation

  /** Where two texts stop agreeing, from a position on. */
  function AgreeTo(a: string, b: string, i: nat): (n: nat)
    requires i <= |a| && i <= |b|
    ensures i <= n <= |a| && n <= |b|
    ensures n < |a| && n < |b| ==> a[n] != b[n]
    decreases |a| - i
  {
    if i < |a| && i < |b| && a[i] == b[i] then AgreeTo(a, b, i + 1) else i
  }

  /** How many characters agree at the ends of two texts, `n` or more, without going before `start`. */
  function AgreeAtEnd(a: string, b: string, start: nat, n: nat): (m: nat)
    requires start + n <= |a| && start + n <= |b|
    ensures n <= m && start + m <= |a| && start + m <= |b|
    ensures start + m < |a| && start + m < |b| ==> a[|a| - 1 - m] != b[|b| - 1 - m]
    decreases |a| - n
  {
    if start + n < |a| && start + n < |b| && a[|a| - 1 - n] == b[|b| - 1 - n] then AgreeAtEnd(a, b, start, n + 1) else n
  }

  lemma {:induction false} Agrees(a: string, b: string, i: nat, k: nat)
    requires i <= |a| && i <= |b| && i <= k < AgreeTo(a, b, i)
    ensures a[k] == b[k]
    decreases k - i
  {
    if i < k {
      Agrees(a, b, i + 1, k);
    }
  }

  lemma {:induction false} AgreesAtEnd(a: string, b: string, start: nat, n: nat, k: nat)
    requires start + n <= |a| && start + n <= |b| && n <= k < AgreeAtEnd(a, b, start, n)
    ensures a[|a| - 1 - k] == b[|b| - 1 - k]
    decreases k - n
  {
    if n < k {
      AgreesAtEnd(a, b, start, n + 1, k);
    }
  }

  /** What is between the common start and the common end of what follows it. */
  function InsertedText(oldValue: string, newValue: string): string {
    var start := AgreeTo(oldValue, newValue, 0);
    newValue[start..|newValue| - AgreeAtEnd(oldValue, newValue, start, 0)]
  }

  method FindInsertedText(oldValue: string, newValue: string) returns (text: string)
    ensures text == InsertedText(oldValue, newValue)
  {
    var start := 0;
    while start < |oldValue| && start < |newValue| && oldValue[start] == newValue[start]
      invariant start <= |oldValue| && start <= |newValue|
      invariant AgreeTo(oldValue, newValue, 0) == AgreeTo(oldValue, newValue, start)
    {
      start := start + 1;
    }
    var oldEnd, newEnd := |oldValue|, |newValue|;
    while oldEnd > start && newEnd > start && oldValue[oldEnd - 1] == newValue[newEnd - 1]
      invariant start <= oldEnd <= |oldValue| && start <= newEnd <= |newValue|
      invariant |newValue| - newEnd == |oldValue| - oldEnd
      invariant AgreeAtEnd(oldValue, newValue, start, 0) == AgreeAtEnd(oldValue, newValue, start, |newValue| - newEnd)
    {
      oldEnd, newEnd := oldEnd - 1, newEnd - 1;
    }
    text := newValue[start..newEnd];
  }

  /** Putting the text in place of the part of the old value that differs gives the new value, and that
      part is as small as can be: where both differ, their first and their last characters do. */
  lemma SpliceLaw(oldValue: string, newValue: string) returns (start: nat, end: nat)
    ensures start <= end <= |oldValue|
    ensures newValue == oldValue[..start] + InsertedText(oldValue, newValue) + oldValue[end..]
    ensures var text := InsertedText(oldValue, newValue);
            start < end && text != "" ==>
              oldValue[start] != text[0] && oldValue[end - 1] != text[|text| - 1]
  {
    start := AgreeTo(oldValue, newValue, 0);
    end := |oldValue| - AgreeAtEnd(oldValue, newValue, start, 0);
    Spliced(oldValue, newValue, start, end);
    DiffersAtEnds(oldValue, newValue, start, end);
  }

  lemma DiffersAtEnds(oldValue: string, newValue: string, start: nat, end: nat)
    requires start == AgreeTo(oldValue, newValue, 0)
    requires end == |oldValue| - AgreeAtEnd(oldValue, newValue, start, 0)
    ensures var text := InsertedText(oldValue, newValue);
            start < end && text != "" ==>
              oldValue[start] != text[0] && oldValue[end - 1] != text[|text| - 1]
  {
  }

  lemma Spliced(oldValue: string, newValue: string, start: nat, end: nat)
    requires start == AgreeTo(oldValue, newValue, 0)
    requires end == |oldValue| - AgreeAtEnd(oldValue, newValue, start, 0)
    ensures newValue == oldValue[..start] + InsertedText(oldValue, newValue) + oldValue[end..]
  {
    var n := |oldValue| - end;
    SameStart(oldValue, newValue);
    SameEnd(oldValue, newValue, start);
    Thirds(newValue, start, |newValue| - n);
  }

  lemma SameStart(a: string, b: string)
    ensures a[..AgreeTo(a, b, 0)] == b[..AgreeTo(a, b, 0)]
  {
    forall k | 0 <= k < AgreeTo(a, b, 0) ensures a[k] == b[k] {
      Agrees(a, b, 0, k);
    }
  }

  lemma SameEnd(a: string, b: string, start: nat)
    requires start <= |a| && start <= |b|
    ensures var n := AgreeAtEnd(a, b, start, 0); a[|a| - n..] == b[|b| - n..]
  {
    var n := AgreeAtEnd(a, b, start, 0);
    var x, y := a[|a| - n..], b[|b| - n..];
    forall k | 0 <= k < n ensures x[k] == y[k] {
      AgreesAtEnd(a, b, start, 0, n - 1 - k);
    }
  }

  lemma Thirds(text: string, i: nat, j: nat)
    requires i <= j <= |text|
    ensures text == text[..i] + text[i..j] + text[j..]
  {
  }

  /** `x` less as many periods as fit. */
  function Wrap(x: nat, period: nat): (r: nat)
    requires period > 0
    ensures r < period
  {
    if x < period then x else Wrap(x - period, period)
  }

  lemma {:induction false} WrapAdd(x: nat, j: nat, period: nat)
    requires j < period
    ensures var r := Wrap(x, period); Wrap(x + j, period) == if r + j < period then r + j else r + j - period
  {
    if x >= period {
      WrapAdd(x - period, j, period);
    } else if x + j >= period {
      assert Wrap(x + j - period, period) == x + j - period;
    }
  }

  /** A pure insertion, and where the scans for it stop. */
  ghost predicate Insertion(oldValue: string, newValue: string, at: nat, text: string) {
    at <= |oldValue| && text != "" && newValue == oldValue[..at] + text + oldValue[at..]
  }

  lemma InsertionAt(oldValue: string, newValue: string, at: nat, text: string, i: nat)
    requires Insertion(oldValue, newValue, at, text) && i < |newValue|
    ensures newValue[i]
            == if i < at then oldValue[i] else if i < at + |text| then text[i - at] else oldValue[i - |text|]
  {
  }

  lemma InsertionStart(oldValue: string, newValue: string, at: nat, text: string)
    requires Insertion(oldValue, newValue, at, text)
    ensures at <= AgreeTo(oldValue, newValue, 0) <= |oldValue|
  {
    var start := AgreeTo(oldValue, newValue, 0);
    if start < at {
      InsertionAt(oldValue, newValue, at, text, start);
    }
  }

  lemma InsertionEnd(oldValue: string, newValue: string, at: nat, text: string, start: nat)
    requires Insertion(oldValue, newValue, at, text) && at <= start <= |oldValue|
    ensures AgreeAtEnd(oldValue, newValue, start, 0) == |oldValue| - start
  {
    var n := AgreeAtEnd(oldValue, newValue, start, 0);
    if start + n < |oldValue| {
      InsertionAt(oldValue, newValue, at, text, |newValue| - 1 - n);
    }
  }

  lemma {:induction false} Periodic(oldValue: string, newValue: string, at: nat, text: string, i: nat)
    requires Insertion(oldValue, newValue, at, text)
    requires at <= i < AgreeTo(oldValue, newValue, 0) + |text|
    ensures i < |newValue| && newValue[i] == text[Wrap(i - at, |text|)]
    decreases i
  {
    InsertionAt(oldValue, newValue, at, text, i);
    if i >= at + |text| {
      Agrees(oldValue, newValue, 0, i - |text|);
      Periodic(oldValue, newValue, at, text, i - |text|);
    }
  }

  /** Text inserted anywhere is recovered up to a rotation: repeated characters hide where it begins. */
  lemma InsertedTextUpToRotation(oldValue: string, newValue: string, at: nat, text: string) returns (r: nat)
    requires Insertion(oldValue, newValue, at, text)
    ensures r < |text| && InsertedText(oldValue, newValue) == text[r..] + text[..r]
    ensures at == |oldValue| ==> r == 0
  {
    var start := AgreeTo(oldValue, newValue, 0);
    InsertionStart(oldValue, newValue, at, text);
    InsertionEnd(oldValue, newValue, at, text, start);
    r := Wrap(start - at, |text|);
    var found := InsertedText(oldValue, newValue);
    assert |found| == |text|;
    forall j | 0 <= j < |text| ensures found[j] == (text[r..] + text[..r])[j] {
      InsertedCharacter(oldValue, newValue, at, text, j);
    }
  }

  lemma InsertedCharacter(oldValue: string, newValue: string, at: nat, text: string, j: nat)
    requires Insertion(oldValue, newValue, at, text) && at <= AgreeTo(oldValue, newValue, 0) && j < |text|
    ensures var start := AgreeTo(oldValue, newValue, 0);
            var r := Wrap(start - at, |text|);
            start + j < |newValue| && newValue[start + j] == (text[r..] + text[..r])[j]
  {
    var start := AgreeTo(oldValue, newValue, 0);
    Periodic(oldValue, newValue, at, text, start + j);
    WrapAdd(start - at, j, |text|);
  }

  /** Text appended to the value is recovered exactly. */
  lemma AppendedTextIsRecovered(oldValue: string, text: string)
    requires text != ""
    ensures InsertedText(oldValue, oldValue + text) == text
  {
    assert oldValue[..|oldValue|] == oldValue && oldValue[|oldValue|..] == "";
    var r := InsertedTextUpToRotation(oldValue, oldValue + text, |oldValue|, text);
  }

  // ---------------------------------------------------------------- the guard

  datatype Decision = Decision(restore: Option<string>, deliver: Option<string>)

  function KeyPressed(g: Guard, keyCode: int): Guard {
    g.(lastKeydownKeyCode := keyCode, pending := None)
  }

  function Started(g: Guard, target: Target): Guard {
    g.(compositionTarget := Some(target), pending := None)
  }

  /** An orphan commit is taken over; so is the echo of a plain key, which is only undone. */
  function Announced(g: Guard, target: Target, inputType: string, data: Option<string>, oldValue: string): Guard {
    if inputType == "insertFromComposition" && g.compositionTarget != Some(target) then
      var deliver := if data.Some? && data.value != "" then Text(data.value) else Recover;
      g.(pending := Some(Pending(target, oldValue, deliver)))
    else if inputType == "insertText" && g.compositionTarget.None? && g.lastKeydownKeyCode != 229 then
      g.(pending := Some(Pending(target, oldValue, RestoreOnly)))
    else g
  }

  predicate TakesOver(g: Guard, target: Target) {
    g.pending.Some? && g.pending.value.target == target
  }

  function Decided(g: Guard, target: Target, newValue: string): Decision {
    if !TakesOver(g, target) then Decision(None, None)
    else
      var committed := match g.pending.value.deliver
                       case Text(text) => text
                       case Recover => InsertedText(g.pending.value.value, newValue)
                       case RestoreOnly => "";
      Decision(Some(g.pending.value.value), if committed != "" then Some(committed) else None)
  }

  function AfterInput(g: Guard, target: Target): Guard {
    if TakesOver(g, target) then g.(pending := None) else g
  }

  predicate Swallows(g: Guard, target: Option<Target>) {
    !(g.compositionTarget.Some? && target == g.compositionTarget)
  }

  class CompositionGuard {
    var compositionTarget: Option<Target>
    var lastKeydownKeyCode: int
    var pending: Option<Pending>

    ghost function State(): Guard
      reads this
    {
      Guard(compositionTarget, lastKeydownKeyCode, pending)
    }

    constructor ()
      ensures State() == FRESH
    {
      compositionTarget, lastKeydownKeyCode, pending := None, -1, None;
    }

    method Keydown(keyCode: int)
      modifies this
      ensures State() == KeyPressed(old(State()), keyCode)
    {
      lastKeydownKeyCode := keyCode;
      pending := None;
    }

    method CompositionStart(target: Target)
      modifies this
      ensures State() == Started(old(State()), target)
    {
      compositionTarget := Some(target);
      pending := None;
    }

    method Reset()
      modifies this
      ensures State() == FRESH
    {
      compositionTarget, lastKeydownKeyCode, pending := None, -1, None;
    }

    method BeforeInput(target: Target, inputType: string, data: Option<string>, oldValue: string)
      modifies this
      ensures State() == Announced(old(State()), target, inputType, data, oldValue)
    {
      if inputType == "insertFromComposition" && compositionTarget != Some(target) {
        if data.Some? && |data.value| > 0 {
          pending := Some(Pending(target, oldValue, Text(data.value)));
        } else {
          pending := Some(Pending(target, oldValue, Recover));
        }
      } else if inputType == "insertText" && compositionTarget.None? && lastKeydownKeyCode != 229 {
        pending := Some(Pending(target, oldValue, RestoreOnly));
      }
    }

    method Input(target: Target, newValue: string) returns (decision: Decision)
      modifies this
      ensures State() == AfterInput(old(State()), target)
      ensures decision == Decided(old(State()), target, newValue)
    {
      if pending.None? || pending.value.target != target {
        return Decision(None, None);
      }
      var taken := pending.value;
      pending := None;
      var committed := "";
      match taken.deliver {
        case Text(text) => committed := text;
        case Recover => committed := FindInsertedText(taken.value, newValue);
        case RestoreOnly =>
      }
      return Decision(Some(taken.value), if committed != "" then Some(committed) else None);
    }

    method CompositionEnd(target: Option<Target>) returns (swallow: bool)
      modifies this
      ensures State() == old(State()).(compositionTarget := None)
      ensures swallow == Swallows(old(State()), target)
    {
      var balanced := compositionTarget.Some? && target == compositionTarget;
      compositionTarget := None;
      return !balanced;
    }
  }

  // ---------------------------------------------------------------- events

  /** The guard with the textareas' values, what it delivered, and the composition ends it swallowed or
      let through to xterm. */
  datatype Screen = Screen(guard: Guard, values: map<Target, string>, delivered: string,
                           swallowed: nat, passed: nat)

  datatype Event =
    | Key(keyCode: int)
    | Start(target: Target)
    | Focus
    | Before(target: Target, inputType: string, data: Option<string>)
    | Mutate(target: Target, value: string)
    | Inputs(target: Target)
    | End(at: Option<Target>)

  function ValueOf(s: Screen, target: Target): string {
    if target in s.values then s.values[target] else ""
  }

  /** What the listeners do; a mutation is the browser's own. */
  function Handled(s: Screen, e: Event): Screen {
    match e
    case Key(keyCode) => s.(guard := KeyPressed(s.guard, keyCode))
    case Start(target) => s.(guard := Started(s.guard, target))
    case Focus => s.(guard := FRESH)
    case Before(target, inputType, data) =>
      s.(guard := Announced(s.guard, target, inputType, data, ValueOf(s, target)))
    case Mutate(target, value) => s.(values := s.values[target := value])
    case Inputs(target) =>
      var decision := Decided(s.guard, target, ValueOf(s, target));
      s.(guard := AfterInput(s.guard, target),
         values := if decision.restore.Some? then s.values[target := decision.restore.value] else s.values,
         delivered := if decision.deliver.Some? then s.delivered + decision.deliver.value else s.delivered)
    case End(at) =>
      var swallow := Swallows(s.guard, at);
      s.(guard := s.guard.(compositionTarget := None),
         swallowed := if swallow then s.swallowed + 1 else s.swallowed,
         passed := if swallow then s.passed else s.passed + 1)
  }

  function HandledAll(s: Screen, events: seq<Event>): Screen
    decreases |events|
  {
    if events == [] then s else HandledAll(Handled(s, events[0]), events[1..])
  }

  // ---------------------------------------------------------------- which ends are swallowed

  /** The composition that is open after some events: the last start that no end or focus follows. */
  function OpenStart(events: seq<Event>): Option<Target> {
    if events == [] then None
    else
      match events[|events| - 1]
      case Start(target) => Some(target)
      case End(_) => None
      case Focus => None
      case _ => OpenStart(events[..|events| - 1])
  }

  lemma {:induction false} HandledLast(s: Screen, events: seq<Event>, e: Event)
    ensures HandledAll(s, events + [e]) == Handled(HandledAll(s, events), e)
    decreases |events|
  {
    if events == [] {
      assert [e][1..] == [] && events + [e] == [e];
    } else {
      assert (events + [e])[0] == events[0] && (events + [e])[1..] == events[1..] + [e];
      HandledLast(Handled(s, events[0]), events[1..], e);
    }
  }

  /** After any events, a composition end reaches xterm exactly when it ends the composition that is
      open; every other one is swallowed. */
  lemma {:induction false} UnmatchedEndsAreSwallowed(s: Screen, events: seq<Event>, at: Option<Target>)
    requires s.guard.compositionTarget.None?
    ensures HandledAll(s, events).guard.compositionTarget == OpenStart(events)
    ensures Swallows(HandledAll(s, events).guard, at) <==> OpenStart(events).None? || at != OpenStart(events)
    decreases |events|
  {
    if events != [] {
      var n := |events| - 1;
      UnmatchedEndsAreSwallowed(s, events[..n], at);
      HandledLast(s, events[..n], events[n]);
      assert events[..n] + [events[n]] == events;
    }
  }

  // ---------------------------------------------------------------- which inputs are taken over

  /** The last key since the focus came. */
  function LastKey(events: seq<Event>): int {
    if events == [] then -1
    else
      match events[|events| - 1]
      case Key(keyCode) => keyCode
      case Focus => -1
      case _ => LastKey(events[..|events| - 1])
  }

  /** Event `i` announces a commit without a composition on its target, or text while no composition is open
      that the last key was not left to an input method to make. */
  predicate Qualifies(events: seq<Event>, i: nat)
    requires i < |events|
  {
    && events[i].Before?
    && ((events[i].inputType == "insertFromComposition" && OpenStart(events[..i]) != Some(events[i].target))
        || (events[i].inputType == "insertText" && OpenStart(events[..i]).None? && LastKey(events[..i]) != 229))
  }

  /** Event `k` ends what event `i` has announced: a key, a composition, the focus, the input itself, or
      another announcement. */
  predicate Overrides(events: seq<Event>, i: nat, k: nat)
    requires i < |events| && events[i].Before? && k < |events|
  {
    events[k].Key? || events[k].Start? || events[k].Focus? || events[k] == Inputs(events[i].target)
    || Qualifies(events, k)
  }

  /** What event `i` announced is still to come. */
  ghost predicate Announces(events: seq<Event>, i: nat) {
    i < |events| && Qualifies(events, i) && forall k | i < k < |events| :: !Overrides(events, i, k)
  }

  /** What is to be done about it: the value goes back to what it was, and a commit is delivered. */
  function PendingOf(s: Screen, events: seq<Event>, i: nat): Pending
    requires i < |events| && events[i].Before?
  {
    Pending(events[i].target, ValueOf(HandledAll(s, events[..i]), events[i].target),
            if events[i].inputType == "insertText" then RestoreOnly
            else if events[i].data.Some? && events[i].data.value != "" then Text(events[i].data.value)
            else Recover)
  }

  lemma AnnouncesLast(s: Screen, events: seq<Event>, i: nat)
    requires events != [] && i < |events| - 1
    ensures Announces(events, i)
            <==> Announces(events[..|events| - 1], i) && !Overrides(events, i, |events| - 1)
    ensures events[i].Before? ==> PendingOf(s, events, i) == PendingOf(s, events[..|events| - 1], i)
  {
    var before := events[..|events| - 1];
    forall k | 0 <= k < |before| ensures before[..k] == events[..k] && before[k] == events[k] {
    }
    assert Qualifies(before, i) == Qualifies(events, i);
    if Qualifies(events, i) {
      forall k | i < k < |before| ensures Overrides(before, i, k) == Overrides(events, i, k) {
        assert before[..k] == events[..k];
      }
    }
  }

  lemma {:induction false} KeyIsLast(s: Screen, events: seq<Event>)
    requires s.guard == FRESH
    ensures HandledAll(s, events).guard.lastKeydownKeyCode == LastKey(events)
    decreases |events|
  {
    if events != [] {
      var n := |events| - 1;
      KeyIsLast(s, events[..n]);
      HandledLast(s, events[..n], events[n]);
      assert events[..n] + [events[n]] == events;
    }
  }

  /** Exactly what is still announced is pending. */
  ghost predicate PendingFits(s: Screen, events: seq<Event>, pending: Option<Pending>) {
    && (pending.Some? ==> exists i: nat :: Announces(events, i))
    && (forall i: nat | Announces(events, i) :: pending == Some(PendingOf(s, events, i)))
  }

  /** What one event makes of what is pending; `own` is what it announces itself. */
  function PendingAfter(was: Option<Pending>, e: Event, own: Option<Pending>): Option<Pending> {
    if e.Key? || e.Start? || e.Focus? then None
    else if own.Some? then own
    else if e.Inputs? && was.Some? && was.value.target == e.target then None
    else was
  }

  lemma HandledPending(s: Screen, events: seq<Event>)
    requires s.guard == FRESH && events != []
    ensures var n := |events| - 1;
            var own := if Qualifies(events, n) then Some(PendingOf(s, events, n)) else None;
            HandledAll(s, events).guard.pending
            == PendingAfter(HandledAll(s, events[..n]).guard.pending, events[n], own)
  {
    var n := |events| - 1;
    HandledLast(s, events[..n], events[n]);
    assert events[..n] + [events[n]] == events;
    KeyIsLast(s, events[..n]);
    UnmatchedEndsAreSwallowed(s, events[..n], None);
  }

  lemma {:induction false} PendingIsAnnounced(s: Screen, events: seq<Event>)
    requires s.guard == FRESH
    ensures PendingFits(s, events, HandledAll(s, events).guard.pending)
    decreases |events|
  {
    if events != [] {
      var n := |events| - 1;
      PendingIsAnnounced(s, events[..n]);
      HandledPending(s, events);
      LastEventFits(s, events, HandledAll(s, events[..n]).guard.pending, HandledAll(s, events).guard.pending);
    }
  }

  lemma LastEventFits(s: Screen, events: seq<Event>, was: Option<Pending>, pending: Option<Pending>)
    requires events != [] && PendingFits(s, events[..|events| - 1], was)
    requires var n := |events| - 1;
             var own := if Qualifies(events, n) then Some(PendingOf(s, events, n)) else None;
             pending == PendingAfter(was, events[n], own)
    ensures PendingFits(s, events, pending)
  {
    var n := |events| - 1;
    forall i: nat | Announces(events, i) ensures pending == Some(PendingOf(s, events, i)) {
      if i < n {
        AnnouncesLast(s, events, i);
        assert !Overrides(events, i, n) && was == Some(PendingOf(s, events, i));
      }
    }
    if pending.Some? {
      if Qualifies(events, n) {
        assert Announces(events, n);
      } else {
        var i: nat :| Announces(events[..n], i);
        AnnouncesLast(s, events, i);
        assert was == Some(PendingOf(s, events, i));
        assert Announces(events, i);
      }
    }
  }

  /** Event `i` announced what is still to come at that textarea. */
  ghost predicate AnnouncesAt(events: seq<Event>, i: nat, target: Target) {
    Announces(events, i) && events[i].target == target
  }

  /** After any events, an input is undone, and the value put back that was there when it was announced, if
      and only if it was announced and nothing has come in between. */
  lemma InputIsUndoneIff(s: Screen, events: seq<Event>, target: Target, newValue: string)
    requires s.guard == FRESH
    ensures var r := Decided(HandledAll(s, events).guard, target, newValue).restore;
            && (r.Some? <==> exists i: nat :: AnnouncesAt(events, i, target))
            && (forall i: nat | AnnouncesAt(events, i, target) ::
                  r == Some(ValueOf(HandledAll(s, events[..i]), target)))
  {
    PendingIsAnnounced(s, events);
    var guard := HandledAll(s, events).guard;
    if TakesOver(guard, target) {
      var i: nat :| Announces(events, i);
      assert AnnouncesAt(events, i, target);
    }
  }

  // ---------------------------------------------------------------- gestures

  /** What the user does: an orphan commit of `text`, for which the browser may report no data; a key
      that xterm has already handled; or a composition with its start. */
  datatype Gesture =
    | Commit(target: Target, text: string, data: Option<string>, mutated: string)
    | Plain(target: Target, keyCode: int, data: Option<string>, mutated: string)
    | Composed(target: Target, data: Option<string>, mutated: string)

  function EventsOf(g: Gesture): seq<Event> {
    match g
    case Commit(target, _, data, mutated) =>
      [Key(229), Before(target, "insertFromComposition", data), Mutate(target, mutated), Inputs(target),
       End(Some(target))]
    case Plain(target, keyCode, data, mutated) =>
      [Key(keyCode), Before(target, "insertText", data), Mutate(target, mutated), Inputs(target)]
    case Composed(target, data, mutated) =>
      [Key(229), Start(target), Before(target, "insertFromComposition", data), Mutate(target, mutated), Inputs(target),
       End(Some(target))]
  }

  /** The commit reports its text, whatever the browser does to the value; or it reports none, and the
      browser appends the text to the value. */
  predicate Recoverable(s: Screen, g: Gesture) {
    && g.target in s.values
    && match g
       case Commit(target, text, data, mutated) =>
         text != ""
         && (data == Some(text) || ((data.None? || data == Some("")) && mutated == ValueOf(s, target) + text))
       case Plain(_, keyCode, _, _) => keyCode != 229
       case Composed(_, _, _) => true
  }

  ghost predicate Ready(s: Screen) {
    s.guard.compositionTarget.None?
  }

  lemma FiveEvents(s: Screen, a: Event, b: Event, c: Event, d: Event, e: Event)
    ensures HandledAll(s, [a, b, c, d, e]) == Handled(Handled(Handled(Handled(Handled(s, a), b), c), d), e)
  {
    FourEvents(s, a, b, c, d);
    assert [a, b, c, d] + [e] == [a, b, c, d, e];
    HandledLast(s, [a, b, c, d], e);
  }

  lemma FourEvents(s: Screen, a: Event, b: Event, c: Event, d: Event)
    ensures HandledAll(s, [a, b, c, d]) == Handled(Handled(Handled(Handled(s, a), b), c), d)
  {
    assert [a, b, c, d][1..] == [b, c, d] && [b, c, d][1..] == [c, d] && [c, d][1..] == [d] && [d][1..] == [];
    assert HandledAll(Handled(Handled(s, a), b), [c, d]) == HandledAll(Handled(Handled(Handled(s, a), b), c), [d]);
  }

  /** An orphan commit is delivered once, leaves the textarea as it was, and its end is swallowed. */
  lemma CommitDeliversOnce(s: Screen, g: Gesture)
    requires Ready(s) && g.Commit? && Recoverable(s, g)
    ensures var after := HandledAll(s, EventsOf(g));
            && Ready(after) && after.values == s.values && after.delivered == s.delivered + g.text
            && after.swallowed == s.swallowed + 1 && after.passed == s.passed
  {
    var t := g.target;
    FiveEvents(s, Key(229), Before(t, "insertFromComposition", g.data), Mutate(t, g.mutated), Inputs(t), End(Some(t)));
    if g.data != Some(g.text) {
      AppendedTextIsRecovered(ValueOf(s, t), g.text);
    }
    assert s.values[t := g.mutated][t := s.values[t]] == s.values;
  }

  /** The echo of a plain key is undone, and nothing is delivered. */
  lemma PlainKeyIsUndone(s: Screen, g: Gesture)
    requires Ready(s) && g.Plain? && Recoverable(s, g)
    ensures var after := HandledAll(s, EventsOf(g));
            && Ready(after) && after.values == s.values && after.delivered == s.delivered
            && after.swallowed == s.swallowed && after.passed == s.passed
  {
    var t := g.target;
    FourEvents(s, Key(g.keyCode), Before(t, "insertText", g.data), Mutate(t, g.mutated), Inputs(t));
    assert s.values[t := g.mutated][t := s.values[t]] == s.values;
  }

  /** A composition with its start is left to xterm. */
  lemma ComposedIsLeftAlone(s: Screen, g: Gesture)
    requires Ready(s) && g.Composed? && Recoverable(s, g)
    ensures var after := HandledAll(s, EventsOf(g));
            && Ready(after) && after.values == s.values[g.target := g.mutated] && after.delivered == s.delivered
            && after.swallowed == s.swallowed && after.passed == s.passed + 1
  {
    var t := g.target;
    var first := [Key(229), Start(t), Before(t, "insertFromComposition", g.data), Mutate(t, g.mutated), Inputs(t)];
    FiveEvents(s, first[0], first[1], first[2], first[3], first[4]);
    assert EventsOf(g) == first + [End(Some(t))];
    HandledLast(s, first, End(Some(t)));
  }

  // ---------------------------------------------------------------- runs of gestures

  function Gestured(s: Screen, gestures: seq<Gesture>): Screen
    decreases |gestures|
  {
    if gestures == [] then s else Gestured(HandledAll(s, EventsOf(gestures[0])), gestures[1..])
  }

  ghost predicate AllRecoverable(s: Screen, gestures: seq<Gesture>)
    decreases |gestures|
  {
    gestures != [] ==>
      Recoverable(s, gestures[0]) && AllRecoverable(HandledAll(s, EventsOf(gestures[0])), gestures[1..])
  }

  /** The texts committed without a start, in order. */
  function Committed(gestures: seq<Gesture>): string {
    if gestures == [] then ""
    else (if gestures[0].Commit? then gestures[0].text else "") + Committed(gestures[1..])
  }

  function Commits(gestures: seq<Gesture>): nat {
    if gestures == [] then 0 else (if gestures[0].Commit? then 1 else 0) + Commits(gestures[1..])
  }

  function Compositions(gestures: seq<Gesture>): nat {
    if gestures == [] then 0 else (if gestures[0].Composed? then 1 else 0) + Compositions(gestures[1..])
  }

  /** Over any run of gestures, what is delivered is the committed texts, once each and in order; the
      orphan ends are swallowed and only they; and without compositions the textareas end as they began. */
  lemma {:induction false} RunsDeliverOnce(s: Screen, gestures: seq<Gesture>)
    requires Ready(s) && AllRecoverable(s, gestures)
    ensures var after := Gestured(s, gestures);
            && Ready(after) && after.delivered == s.delivered + Committed(gestures)
            && after.swallowed == s.swallowed + Commits(gestures)
            && after.passed == s.passed + Compositions(gestures)
            && (Compositions(gestures) == 0 ==> after.values == s.values)
    decreases |gestures|
  {
    if gestures != [] {
      var g := gestures[0];
      match g {
        case Commit(_, _, _, _) => CommitDeliversOnce(s, g);
        case Plain(_, _, _, _) => PlainKeyIsUndone(s, g);
        case Composed(_, _, _) => ComposedIsLeftAlone(s, g);
      }
      var next := HandledAll(s, EventsOf(g));
      RunsDeliverOnce(next, gestures[1..]);
      if g.Commit? {
        assert s.delivered + g.text + Committed(gestures[1..]) == s.delivered + (g.text + Committed(gestures[1..]));
      }
    }
  }
}
