/** The output side of the PTY endpoint (src/lib/pty.ts): replay, live output, parser
    acknowledgements and the sequence numbers from which the stream may be resumed. */
module OutputStream {
  import opened Common
  import opened RemoteSequence

  datatype Event =
    | ReplayBegin(reset: bool, baseSeq: nat)
    | CheckpointChunk(bytes: seq<Byte>)
    | Output(startSeq: nat, bytes: seq<Byte>)
    | ReplayEnd(nextSeq: nat)

  /** A byte array handed to xterm.  The source tells arrays apart by object identity, here `id`;
      `snapshot` records whether it came from a checkpoint and `end` the sequence it reaches, both
      for specification only. */
  datatype Chunk = Chunk(id: nat, bytes: seq<Byte>, snapshot: bool, end: nat)

  /** What the endpoint does to its listeners while it handles an event. */
  datatype Effect =
    | Quiet
    | ResetTerminal(base: nat)
    | Write(chunk: Chunk)
    | GapDetected
    | ReplayComplete

  /** The stream fields of `AgentPty`; `created` counts the arrays created so far. */
  datatype Pty = Pty(
    nextSeq: nat,
    parsedSeq: nat,
    parseEnds: map<nat, nat>,
    replayPending: set<nat>,
    replayActive: bool,
    replayEnded: bool,
    created: nat)

  const FRESH_PTY := Pty(0, 0, map[], {}, false, false, 0)

  predicate ParserIdle(p: Pty) {
    p.parseEnds == map[]
  }

  function MaybeCompleteReplay(p: Pty): (Pty, Effect) {
    if p.replayEnded && p.replayPending == {} then
      (p.(replayEnded := false), ReplayComplete)
    else
      (p, Quiet)
  }

  /** Record a new array in the parser accounting and pass it on. */
  function Emit(p: Pty, bytes: seq<Byte>, snapshot: bool): (Pty, Effect) {
    var id := p.created;
    (p.(parseEnds := p.parseEnds[id := p.nextSeq],
        replayPending := if p.replayActive then p.replayPending + {id} else p.replayPending,
        created := id + 1),
     Write(Chunk(id, bytes, snapshot, p.nextSeq)))
  }

  function Handle(p: Pty, e: Event): (Pty, Effect) {
    match e
    case ReplayBegin(reset, base) =>
      var q := p.(replayActive := true, replayEnded := false, replayPending := {}, nextSeq := base);
      if reset then
        (q.(parsedSeq := base, parseEnds := map[]), ResetTerminal(base))
      else
        (q, Quiet)
    case CheckpointChunk(bytes) =>
      Emit(p, bytes, true)
    case Output(start, bytes) =>
      (match AcceptOutputSequence(p.nextSeq, start, bytes)
       case Duplicate => (p, Quiet)
       case Gap(_, _) => (p, GapDetected)
       case Data(data, _, end) => Emit(p.(nextSeq := end), data, false))
    case ReplayEnd(next) =>
      MaybeCompleteReplay(p.(nextSeq := next, replayActive := false, replayEnded := true))
  }

  function Acknowledge(p: Pty, id: nat): (Pty, Effect) {
    if id !in p.parseEnds then
      (p, Quiet)
    else
      var end := p.parseEnds[id];
      MaybeCompleteReplay(
        p.(parseEnds := p.parseEnds - {id},
           replayPending := p.replayPending - {id},
           parsedSeq := if end > p.parsedSeq then end else p.parsedSeq))
  }

  /** The endpoint as the source writes it: fields updated by event handlers. */
  class AgentPty {
    var nextSeq: nat
    var parsedSeq: nat
    var parseEnds: map<nat, nat>
    var replayPendingData: set<nat>
    var replayActive: bool
    var replayEnded: bool
    var created: nat

    function State(): (p: Pty)
      reads this
      ensures p.nextSeq == nextSeq && p.parsedSeq == parsedSeq && p.parseEnds == parseEnds
    {
      Pty(nextSeq, parsedSeq, parseEnds, replayPendingData, replayActive, replayEnded, created)
    }

    constructor ()
      ensures State() == FRESH_PTY
    {
      nextSeq, parsedSeq, parseEnds := 0, 0, map[];
      replayPendingData, replayActive, replayEnded, created := {}, false, false, 0;
    }

    method HandleEvent(event: Event) returns (effect: Effect)
      modifies this
      ensures (State(), effect) == Handle(old(State()), event)
    {
      effect := Quiet;
      match event {
        case ReplayBegin(reset, base) =>
          replayActive := true;
          replayEnded := false;
          replayPendingData := {};
          nextSeq := base;
          if reset {
            parsedSeq := base;
            parseEnds := map[];
            effect := ResetTerminal(base);
          }
        case CheckpointChunk(bytes) =>
          effect := EmitData(bytes, true);
        case Output(start, bytes) =>
          match AcceptOutputSequence(nextSeq, start, bytes) {
            case Duplicate => return;
            case Gap(_, _) => return GapDetected;
            case Data(data, _, end) =>
              nextSeq := end;
              effect := EmitData(data, false);
          }
        case ReplayEnd(next) =>
          nextSeq := next;
          replayActive := false;
          replayEnded := true;
          effect := CompleteReplayIfDone();
      }
    }

    method EmitData(bytes: seq<Byte>, snapshot: bool) returns (effect: Effect)
      modifies this
      ensures (State(), effect) == Emit(old(State()), bytes, snapshot)
    {
      var data := Chunk(created, bytes, snapshot, nextSeq);
      created := created + 1;
      parseEnds := parseEnds[data.id := nextSeq];
      if replayActive {
        replayPendingData := replayPendingData + {data.id};
      }
      effect := Write(data);
    }

    method AcknowledgeData(id: nat) returns (effect: Effect)
      modifies this
      ensures (State(), effect) == Acknowledge(old(State()), id)
    {
      if id !in parseEnds {
        return Quiet;
      }
      var end := parseEnds[id];
      parseEnds := parseEnds - {id};
      replayPendingData := replayPendingData - {id};
      parsedSeq := if end > parsedSeq then end else parsedSeq;
      effect := CompleteReplayIfDone();
    }

    method CompleteReplayIfDone() returns (effect: Effect)
      modifies this
      ensures (State(), effect) == MaybeCompleteReplay(old(State()))
    {
      if !replayEnded || replayPendingData != {} {
        return Quiet;
      }
      replayEnded := false;
      effect := ReplayComplete;
    }

    /** The `through_seq` under which a serialized screen is uploaded, if it may be uploaded: in every
        exact state there is one just when xterm has parsed all it was given, and it says how far. */
    method Checkpoint() returns (throughSeq: Option<nat>)
      ensures throughSeq.Some? ==> throughSeq.value == parsedSeq
      ensures forall journal: seq<Byte>, c: Client | c.pty == State() && Inv(journal, c) ::
                LabelsScreen(journal, c, throughSeq)
    {
      throughSeq := if parseEnds != map[] then None else Some(parsedSeq);
      forall journal: seq<Byte>, c: Client | c.pty == State() && Inv(journal, c)
        ensures LabelsScreen(journal, c, throughSeq)
      {
        DeliveredExactlyOnce(journal, c);
        IdleMeansAllParsed(journal, c);
      }
    }
  }

  // ---------------------------------------------------------------- what xterm has been given

  /** xterm as the endpoint sees it: arrays are parsed in the order they were written.  `stale`
      holds arrays written before the last reset and not parsed yet, `log` everything written since
      (the first of them has identity `firstId`), of which the first `parsed` arrays are parsed. */
  datatype Terminal = Terminal(base: nat, firstId: nat, stale: seq<Chunk>, log: seq<Chunk>, parsed: nat)

  /** Bookkeeping about replays: whether the latest has begun and not ended, the arrays written during it,
      the replays that ended and the completions reported. */
  datatype Ledger = Ledger(open: bool, replay: set<nat>, ended: nat, completed: nat)

  datatype Client = Client(pty: Pty, term: Terminal, ledger: Ledger)

  function Unparsed(t: Terminal): seq<Chunk>
    requires t.parsed <= |t.log|
  {
    t.stale + t.log[t.parsed..]
  }

  function Observe(c: Client, effect: Effect): Client
    requires c.term.parsed <= |c.term.log|
  {
    match effect
    case Quiet => c
    case ResetTerminal(base) =>
      c.(term := Terminal(base, c.pty.created, Unparsed(c.term), [], 0))
    case Write(chunk) =>
      c.(term := c.term.(log := c.term.log + [chunk]),
         ledger := if c.ledger.open
                   then c.ledger.(replay := c.ledger.replay + {chunk.id}) else c.ledger)
    case GapDetected => c
    case ReplayComplete => c.(ledger := c.ledger.(completed := c.ledger.completed + 1))
  }

  /** An event arrives at the endpoint. */
  function Receive(c: Client, e: Event): Client
    requires c.term.parsed <= |c.term.log|
  {
    var (p, effect) := Handle(c.pty, e);
    var ledger := match e
      case ReplayBegin(_, _) => c.ledger.(open := true, replay := {})
      case ReplayEnd(_) => c.ledger.(open := false, ended := c.ledger.ended + 1)
      case _ => c.ledger;
    Observe(Client(p, c.term, ledger), effect)
  }

  /** xterm parses its oldest array, if any, and acknowledges it. */
  function Parse(c: Client): Client
    requires c.term.parsed <= |c.term.log|
  {
    if c.term.stale != [] then
      var (p, effect) := Acknowledge(c.pty, c.term.stale[0].id);
      Observe(Client(p, c.term.(stale := c.term.stale[1..]), c.ledger), effect)
    else if c.term.parsed < |c.term.log| then
      var (p, effect) := Acknowledge(c.pty, c.term.log[c.term.parsed].id);
      Observe(Client(p, c.term.(parsed := c.term.parsed + 1), c.ledger), effect)
    else
      c
  }

  /** The bytes of all output arrays, in order; checkpoint arrays do not count. */
  function OutputBytes(log: seq<Chunk>): seq<Byte> {
    if log == [] then [] else
    var last := log[|log| - 1];
    OutputBytes(log[..|log| - 1]) + (if last.snapshot then [] else last.bytes)
  }

  /** The bytes of all checkpoint arrays, in order. */
  function SnapshotBytes(log: seq<Chunk>): seq<Byte> {
    if log == [] then [] else
    var last := log[|log| - 1];
    SnapshotBytes(log[..|log| - 1]) + (if last.snapshot then last.bytes else [])
  }

  /** The sequence reached once the first `n` arrays since the reset are parsed. */
  function SeqAfter(t: Terminal, n: nat): nat
    requires n <= |t.log|
  {
    if n == 0 then t.base else t.log[n - 1].end
  }

  /** Identities are never reused: those of the log are consecutive, older ones are smaller. */
  ghost predicate IdsFresh(c: Client) {
    && c.pty.created == c.term.firstId + |c.term.log|
    && (forall i | 0 <= i < |c.term.log| :: c.term.log[i].id == c.term.firstId + i)
    && (forall i | 0 <= i < |c.term.stale| :: c.term.stale[i].id < c.term.firstId)
  }

  /** The array at `i` carries the journal on from where the arrays before it end; a checkpoint
      array carries no journal bytes. */
  ghost predicate Continues(journal: seq<Byte>, t: Terminal, i: nat)
    requires i < |t.log|
  {
    var chunk, from := t.log[i], SeqAfter(t, i);
    if chunk.snapshot then
      chunk.end == from
    else
      from <= chunk.end <= |journal| && chunk.bytes == journal[from..chunk.end]
  }

  ghost predicate Chained(journal: seq<Byte>, c: Client) {
    && c.term.base <= |journal|
    && c.pty.nextSeq == SeqAfter(c.term, |c.term.log|)
    && (forall i | 0 <= i < |c.term.log| :: Continues(journal, c.term, i))
  }

  /** The open ends list exactly the unparsed arrays, each with the sequence reached once it is parsed. */
  ghost predicate EndsFit(t: Terminal, ends: map<nat, nat>) {
    && t.parsed <= |t.log|
    && (forall id :: id in ends <==> t.firstId + t.parsed <= id < t.firstId + |t.log|)
    && (forall id | id in ends :: ends[id] == SeqAfter(t, id - t.firstId + 1))
  }

  /** The parser accounting: and `parsedSeq` is the sequence reached by the parsed arrays. */
  ghost predicate Accounted(c: Client) {
    EndsFit(c.term, c.pty.parseEnds) && c.pty.parsedSeq == SeqAfter(c.term, c.term.parsed)
  }

  ghost predicate ReplayTracked(c: Client) {
    && c.pty.replayActive == c.ledger.open && (c.pty.replayEnded ==> c.pty.replayPending != {})
    && (forall id :: id in c.pty.replayPending <==> id in c.ledger.replay && id in c.pty.parseEnds)
    && (forall id | id in c.ledger.replay :: id < c.pty.created)
    && c.ledger.completed + (if c.pty.replayEnded then 1 else 0) <= c.ledger.ended
  }

  ghost predicate Inv(journal: seq<Byte>, c: Client) {
    IdsFresh(c) && Accounted(c) && Chained(journal, c) && ReplayTracked(c)
  }

  /** There is a label if and only if everything written is parsed; the screen then ends there. */
  ghost predicate LabelsScreen(journal: seq<Byte>, c: Client, through: Option<nat>) {
    && (through.Some? <==> c.term.parsed == |c.term.log|)
    && (through.Some? ==>
          && through.value == c.pty.nextSeq && c.term.base <= through.value <= |journal|
          && OutputBytes(c.term.log) == journal[c.term.base..through.value])
  }

  const FRESH_CLIENT := Client(FRESH_PTY, Terminal(0, 0, [], [], 0), Ledger(false, {}, 0, 0))

  lemma FreshClientIsExact(journal: seq<Byte>)
    ensures Inv(journal, FRESH_CLIENT)
  {
  }

  /** The sequence facts an event must satisfy for the stream to stay exact. */
  ghost predicate Admissible(journal: seq<Byte>, c: Client, e: Event) {
    match e
    case ReplayBegin(reset, base) => if reset then base <= |journal| else base == c.pty.nextSeq
    case CheckpointChunk(_) => true
    case Output(start, bytes) => SliceOf(journal, start, bytes)
    case ReplayEnd(next) => next == c.pty.nextSeq
  }

  /** Parsing one more array never lowers the sequence. */
  lemma SeqAfterGrows(journal: seq<Byte>, c: Client, n: nat)
    requires Chained(journal, c) && n < |c.term.log|
    ensures SeqAfter(c.term, n) <= SeqAfter(c.term, n + 1)
  {
    assert Continues(journal, c.term, n);
  }

  /** Writing one array keeps every part of the invariant. */
  lemma WriteKeepsInv(journal: seq<Byte>, c: Client, p: Pty, bytes: seq<Byte>, snapshot: bool)
    requires Inv(journal, c)
    requires p == c.pty.(nextSeq := p.nextSeq)
    requires p.nextSeq == c.pty.nextSeq + (if snapshot then 0 else |bytes|)
    requires !snapshot ==> SliceOf(journal, c.pty.nextSeq, bytes)
    ensures var (q, effect) := Emit(p, bytes, snapshot);
            Inv(journal, Observe(Client(q, c.term, c.ledger), effect))
  {
    WriteKeepsChain(journal, c, p, bytes, snapshot);
    WriteKeepsAccounts(c, p, bytes, snapshot);
  }

  lemma WriteKeepsChain(journal: seq<Byte>, c: Client, p: Pty, bytes: seq<Byte>, snapshot: bool)
    requires Chained(journal, c) && c.term.parsed <= |c.term.log|
    requires p.nextSeq == c.pty.nextSeq + (if snapshot then 0 else |bytes|)
    requires !snapshot ==> SliceOf(journal, c.pty.nextSeq, bytes)
    ensures var (q, effect) := Emit(p, bytes, snapshot);
            Chained(journal, Observe(Client(q, c.term, c.ledger), effect))
  {
    var (q, effect) := Emit(p, bytes, snapshot);
    var d := Observe(Client(q, c.term, c.ledger), effect);
    forall i | 0 <= i < |d.term.log| ensures Continues(journal, d.term, i) {
      if i < |c.term.log| {
        assert Continues(journal, c.term, i);
      }
    }
  }

  lemma WriteKeepsAccounts(c: Client, p: Pty, bytes: seq<Byte>, snapshot: bool)
    requires IdsFresh(c) && Accounted(c) && ReplayTracked(c) && p == c.pty.(nextSeq := p.nextSeq)
    ensures var (q, effect) := Emit(p, bytes, snapshot);
            var d := Observe(Client(q, c.term, c.ledger), effect);
            IdsFresh(d) && Accounted(d) && ReplayTracked(d)
  {
  }

  /** Acknowledging an array written before the last reset changes nothing. */
  lemma StaleAcknowledgementIgnored(journal: seq<Byte>, c: Client)
    requires Inv(journal, c) && c.term.stale != []
    ensures Parse(c) == c.(term := c.term.(stale := c.term.stale[1..]))
    ensures Inv(journal, Parse(c))
  {
    var d := Parse(c);
    forall i | 0 <= i < |d.term.log| ensures Continues(journal, d.term, i) {
      assert Continues(journal, c.term, i);
    }
  }

  /** Parsing one array keeps every part of the invariant. */
  lemma ParseKeepsInv(journal: seq<Byte>, c: Client)
    requires Inv(journal, c)
    ensures Inv(journal, Parse(c))
  {
    if c.term.stale != [] {
      StaleAcknowledgementIgnored(journal, c);
    } else if c.term.parsed < |c.term.log| {
      SeqAfterGrows(journal, c, c.term.parsed);
      ParseKeepsAccounts(c);
      ParseKeepsChain(journal, c);
    }
  }

  lemma ParseKeepsAccounts(c: Client)
    requires IdsFresh(c) && Accounted(c) && ReplayTracked(c) && c.term.stale == [] && c.term.parsed < |c.term.log|
    requires SeqAfter(c.term, c.term.parsed) <= SeqAfter(c.term, c.term.parsed + 1)
    ensures IdsFresh(Parse(c)) && Accounted(Parse(c)) && ReplayTracked(Parse(c))
  {
    ParseKeepsEnds(c);
    ParseKeepsTracking(c);
  }

  lemma ParseKeepsEnds(c: Client)
    requires IdsFresh(c) && Accounted(c) && c.term.stale == [] && c.term.parsed < |c.term.log|
    requires SeqAfter(c.term, c.term.parsed) <= SeqAfter(c.term, c.term.parsed + 1)
    ensures IdsFresh(Parse(c)) && Accounted(Parse(c))
  {
    ParsedNext(c);
    var d := Parse(c);
    EndsAfter(c.term, d.term, c.pty.parseEnds, d.pty.parseEnds);
    SameSeqAfter(c.term, d.term, d.term.parsed);
  }

  lemma SameSeqAfter(t: Terminal, u: Terminal, n: nat)
    requires n <= |t.log| && u == t.(parsed := t.parsed + 1)
    ensures SeqAfter(u, n) == SeqAfter(t, n)
  {
  }

  lemma EndsAfter(t: Terminal, u: Terminal, ends: map<nat, nat>, left: map<nat, nat>)
    requires EndsFit(t, ends) && t.parsed < |t.log| && u == t.(parsed := t.parsed + 1)
    requires left == ends - {t.firstId + t.parsed}
    ensures EndsFit(u, left)
  {
    forall id | id in left ensures left[id] == SeqAfter(u, id - u.firstId + 1) {
      SameSeqAfter(t, u, id - t.firstId + 1);
    }
  }

  /** The next array written is acknowledged: it leaves the open ends and moves `parsedSeq`. */
  lemma ParsedNext(c: Client)
    requires IdsFresh(c) && Accounted(c) && c.term.stale == [] && c.term.parsed < |c.term.log|
    requires SeqAfter(c.term, c.term.parsed) <= SeqAfter(c.term, c.term.parsed + 1)
    ensures var id, d := c.term.firstId + c.term.parsed, Parse(c);
            && id in c.pty.parseEnds && d.pty.parseEnds == c.pty.parseEnds - {id}
            && d.pty.parsedSeq == SeqAfter(c.term, c.term.parsed + 1)
            && d.pty.created == c.pty.created && d.term == c.term.(parsed := c.term.parsed + 1)
            && d.pty.replayPending == c.pty.replayPending - {id} && d.ledger.replay == c.ledger.replay
  {
    var id := c.term.firstId + c.term.parsed;
    assert c.term.log[c.term.parsed].id == id;
    assert id in c.pty.parseEnds;
  }

  lemma ParseKeepsTracking(c: Client)
    requires IdsFresh(c) && Accounted(c) && ReplayTracked(c) && c.term.stale == [] && c.term.parsed < |c.term.log|
    requires SeqAfter(c.term, c.term.parsed) <= SeqAfter(c.term, c.term.parsed + 1)
    ensures ReplayTracked(Parse(c))
  {
    ParsedNext(c);
  }

  lemma ParseKeepsChain(journal: seq<Byte>, c: Client)
    requires Chained(journal, c) && c.term.stale == [] && c.term.parsed < |c.term.log|
    ensures Chained(journal, Parse(c))
  {
    var d := Parse(c);
    forall i | 0 <= i < |d.term.log| ensures Continues(journal, d.term, i) {
      assert Continues(journal, c.term, i);
    }
  }

  /** One event keeps the stream exact if and only if its sequence facts fit: a replay without a
      reset must begin, and a replay must end, at the next expected byte.  Duplicates, overlaps and
      gaps never matter. */
  lemma ReceiveKeepsInvIff(journal: seq<Byte>, c: Client, e: Event)
    requires Inv(journal, c)
    requires e.Output? ==> SliceOf(journal, e.startSeq, e.bytes)
    ensures Inv(journal, Receive(c, e)) <==> Admissible(journal, c, e)
  {
    match e {
      case CheckpointChunk(bytes) =>
        WriteKeepsInv(journal, c, c.pty, bytes, true);
      case Output(start, bytes) =>
        AcceptDeliversTheMissingSuffix(journal, c.pty.nextSeq, start, bytes);
        var r := AcceptOutputSequence(c.pty.nextSeq, start, bytes);
        if r.Data? {
          WriteKeepsInv(journal, c, c.pty.(nextSeq := r.end), r.data, false);
        }
      case _ =>
        var d := Receive(c, e);
        assert d.term.log == [] || d.term.log == c.term.log;
        forall i | 0 <= i < |d.term.log| ensures Continues(journal, d.term, i) {
          assert Continues(journal, c.term, i);
        }
    }
  }

  // ---------------------------------------------------------------- what the invariant means

  /** The first `n` arrays since the reset spell the journal from `base` to `SeqAfter(n)`. */
  lemma {:induction false} LogSpellsJournal(journal: seq<Byte>, c: Client, n: nat)
    requires Chained(journal, c) && n <= |c.term.log|
    ensures c.term.base <= SeqAfter(c.term, n) <= |journal|
    ensures OutputBytes(c.term.log[..n]) == journal[c.term.base..SeqAfter(c.term, n)]
  {
    if n > 0 {
      LogSpellsJournal(journal, c, n - 1);
      assert c.term.log[..n][..n - 1] == c.term.log[..n - 1];
      assert Continues(journal, c.term, n - 1);
    }
  }

  /** All output handed to xterm since the last reset is exactly journal[base..nextSeq), and the part
      already parsed is exactly journal[base..parsedSeq). */
  lemma DeliveredExactlyOnce(journal: seq<Byte>, c: Client)
    requires Inv(journal, c)
    ensures c.term.base <= c.pty.parsedSeq <= |journal| && c.term.base <= c.pty.nextSeq <= |journal|
    ensures OutputBytes(c.term.log) == journal[c.term.base..c.pty.nextSeq]
    ensures OutputBytes(c.term.log[..c.term.parsed]) == journal[c.term.base..c.pty.parsedSeq]
  {
    LogSpellsJournal(journal, c, |c.term.log|);
    LogSpellsJournal(journal, c, c.term.parsed);
    assert c.term.log[..|c.term.log|] == c.term.log;
  }

  /** The parser is idle exactly when everything written since the reset is parsed; then the sequence
      used for gap recovery, reconnects and checkpoints is the next expected one. */
  lemma IdleMeansAllParsed(journal: seq<Byte>, c: Client)
    requires Inv(journal, c)
    ensures ParserIdle(c.pty) <==> c.term.parsed == |c.term.log|
    ensures ParserIdle(c.pty) ==> c.pty.parsedSeq == c.pty.nextSeq
  {
    if c.term.parsed < |c.term.log| {
      assert c.term.firstId + c.term.parsed in c.pty.parseEnds;
    }
  }

  /** When replay completion is reported, every array of that replay has been parsed. */
  lemma CompletionMeansReplayParsed(journal: seq<Byte>, c: Client, e: Event)
    requires Inv(journal, c) && Admissible(journal, c, e)
    ensures Handle(c.pty, e).1 == ReplayComplete ==>
              forall id | id in c.ledger.replay :: id < c.term.firstId + c.term.parsed
    ensures Parse(c).ledger.completed > c.ledger.completed ==>
              forall id | id in c.ledger.replay :: id < Parse(c).term.firstId + Parse(c).term.parsed
  {
    ParseKeepsInv(journal, c);
  }

  // ---------------------------------------------------------------- runs of the client

  datatype Input = Arrives(event: Event) | ParserAdvances

  function Step(c: Client, i: Input): (d: Client)
    requires c.term.parsed <= |c.term.log|
    ensures d.term.parsed <= |d.term.log|
  {
    match i
    case Arrives(e) => Receive(c, e)
    case ParserAdvances => Parse(c)
  }

  function Run(c: Client, inputs: seq<Input>): (d: Client)
    requires c.term.parsed <= |c.term.log|
    ensures d.term.parsed <= |d.term.log|
    decreases |inputs|
  {
    if inputs == [] then c else Run(Step(c, inputs[0]), inputs[1..])
  }

  ghost predicate AdmissibleRun(journal: seq<Byte>, c: Client, inputs: seq<Input>)
    requires c.term.parsed <= |c.term.log|
    decreases |inputs|
  {
    inputs == []
    || ((inputs[0].Arrives? ==> Admissible(journal, c, inputs[0].event))
        && AdmissibleRun(journal, Step(c, inputs[0]), inputs[1..]))
  }

  /** Any interleaving of admissible events and parser progress keeps the stream exact. */
  lemma {:induction false} RunsStayExact(journal: seq<Byte>, c: Client, inputs: seq<Input>)
    requires Inv(journal, c) && AdmissibleRun(journal, c, inputs)
    ensures Inv(journal, Run(c, inputs))
    decreases |inputs|
  {
    if inputs != [] {
      match inputs[0] {
        case Arrives(e) => ReceiveKeepsInvIff(journal, c, e);
        case ParserAdvances => ParseKeepsInv(journal, c);
      }
      RunsStayExact(journal, Step(c, inputs[0]), inputs[1..]);
    }
  }

  /** From the start, whatever admissible events arrive and whenever xterm parses: the output written
      since the last reset is journal[base..nextSeq), and once the parser is idle `parsedSeq` is as far. */
  lemma EveryAdmissibleRunIsExact(journal: seq<Byte>, inputs: seq<Input>)
    requires AdmissibleRun(journal, FRESH_CLIENT, inputs)
    ensures var c := Run(FRESH_CLIENT, inputs);
            && c.term.base <= c.pty.nextSeq <= |journal|
            && OutputBytes(c.term.log) == journal[c.term.base..c.pty.nextSeq]
            && (ParserIdle(c.pty) ==> c.term.parsed == |c.term.log| && c.pty.parsedSeq == c.pty.nextSeq)
  {
    FreshClientIsExact(journal);
    RunsStayExact(journal, FRESH_CLIENT, inputs);
    var c := Run(FRESH_CLIENT, inputs);
    DeliveredExactlyOnce(journal, c);
    IdleMeansAllParsed(journal, c);
  }

  // ---------------------------------------------------------------- reported exactly when parsed

  lemma {:induction false} RunsJoin(journal: seq<Byte>, c: Client, a: seq<Input>, b: seq<Input>)
    requires c.term.parsed <= |c.term.log|
    ensures Run(c, a + b) == Run(Run(c, a), b)
    ensures AdmissibleRun(journal, c, a + b) <==> AdmissibleRun(journal, c, a) && AdmissibleRun(journal, Run(c, a), b)
    decreases |a|
  {
    if a == [] {
      assert a + b == b;
    } else {
      assert (a + b)[0] == a[0] && (a + b)[1..] == a[1..] + b;
      RunsJoin(journal, Step(c, a[0]), a[1..], b);
    }
  }

  /** A replay begins or ends. */
  predicate Marks(i: Input) {
    i.Arrives? && (i.event.ReplayBegin? || i.event.ReplayEnd?)
  }

  /** Every array written during the latest replay has been parsed. */
  ghost predicate ReplayParsed(c: Client) {
    forall id | id in c.ledger.replay :: id < c.term.firstId + c.term.parsed
  }

  /** The latest replay has ended: since then it has been reported, on top of `before` reports, exactly if
      it is parsed. */
  ghost predicate ReportedIffParsed(c: Client, before: nat) {
    && !c.ledger.open && (c.pty.replayEnded <==> !ReplayParsed(c))
    && c.ledger.completed == before + (if ReplayParsed(c) then 1 else 0)
  }

  /** While the latest replay goes on, nothing is reported. */
  ghost predicate NotReported(c: Client, before: nat) {
    c.ledger.open && !c.pty.replayEnded && c.ledger.completed == before
  }

  lemma NothingPendingIffParsed(journal: seq<Byte>, c: Client)
    requires Inv(journal, c)
    ensures c.pty.replayPending == {} <==> ReplayParsed(c)
  {
    if id :| id in c.ledger.replay && id >= c.term.firstId + c.term.parsed {
      assert id in c.pty.replayPending;
    }
  }

  lemma EndReports(journal: seq<Byte>, c: Client, next: nat)
    requires Inv(journal, c) && Admissible(journal, c, ReplayEnd(next))
    ensures ReportedIffParsed(Receive(c, ReplayEnd(next)), c.ledger.completed)
  {
    NothingPendingIffParsed(journal, c);
  }

  lemma OtherArrivalKeepsReports(journal: seq<Byte>, c: Client, e: Event, before: nat)
    requires Inv(journal, c) && (e.CheckpointChunk? || e.Output?)
    ensures ReportedIffParsed(c, before) ==> ReportedIffParsed(Receive(c, e), before)
    ensures NotReported(c, before) ==> NotReported(Receive(c, e), before)
  {
  }

  lemma ParseKeepsReports(journal: seq<Byte>, c: Client, before: nat)
    requires Inv(journal, c)
    ensures ReportedIffParsed(c, before) ==> ReportedIffParsed(Parse(c), before)
    ensures NotReported(c, before) ==> NotReported(Parse(c), before)
  {
    ParseKeepsInv(journal, c);
    NothingPendingIffParsed(journal, c);
    NothingPendingIffParsed(journal, Parse(c));
  }

  lemma {:induction false} RunKeepsReports(journal: seq<Byte>, c: Client, inputs: seq<Input>, before: nat)
    requires Inv(journal, c) && AdmissibleRun(journal, c, inputs)
    requires forall i | 0 <= i < |inputs| :: !Marks(inputs[i])
    ensures ReportedIffParsed(c, before) ==> ReportedIffParsed(Run(c, inputs), before)
    ensures NotReported(c, before) ==> NotReported(Run(c, inputs), before)
    decreases |inputs|
  {
    if inputs != [] {
      match inputs[0] {
        case Arrives(e) =>
          ReceiveKeepsInvIff(journal, c, e);
          OtherArrivalKeepsReports(journal, c, e, before);
        case ParserAdvances =>
          ParseKeepsInv(journal, c);
          ParseKeepsReports(journal, c, before);
      }
      RunKeepsReports(journal, Step(c, inputs[0]), inputs[1..], before);
    }
  }

  /** In every state of every admissible run, with `mark` the last begin or end of a replay so far: after an
      end, there is one report more than before it if every array of that replay has been parsed, and none
      more until then; after a begin there is none. */
  lemma ReplayIsReportedIffParsed(journal: seq<Byte>, earlier: seq<Input>, mark: Event, later: seq<Input>)
    requires AdmissibleRun(journal, FRESH_CLIENT, earlier + ([Arrives(mark)] + later)) && Marks(Arrives(mark))
    requires forall i | 0 <= i < |later| :: !Marks(later[i])
    ensures var c, d := Run(FRESH_CLIENT, earlier), Run(FRESH_CLIENT, earlier + ([Arrives(mark)] + later));
            && d.ledger.completed == c.ledger.completed + (if mark.ReplayEnd? && ReplayParsed(d) then 1 else 0)
            && (ParserIdle(d.pty) ==> ReplayParsed(d))
  {
    FreshClientIsExact(journal);
    RunsJoin(journal, FRESH_CLIENT, earlier, [Arrives(mark)] + later);
    RunsStayExact(journal, FRESH_CLIENT, earlier);
    RunsStayExact(journal, FRESH_CLIENT, earlier + ([Arrives(mark)] + later));
    var c := Run(FRESH_CLIENT, earlier);
    assert ([Arrives(mark)] + later)[1..] == later;
    ReceiveKeepsInvIff(journal, c, mark);
    if mark.ReplayEnd? {
      EndReports(journal, c, mark.nextSeq);
    }
    RunKeepsReports(journal, Receive(c, mark), later, c.ledger.completed);
  }

  function ReplayEnds(inputs: seq<Input>): nat {
    if inputs == [] then 0 else
    (if inputs[0].Arrives? && inputs[0].event.ReplayEnd? then 1 else 0) + ReplayEnds(inputs[1..])
  }

  lemma CompletionStep(c: Client, i: Input)
    requires c.term.parsed <= |c.term.log|
    ensures var d := Step(c, i);
            d.ledger.completed + (if d.pty.replayEnded then 1 else 0)
            <= c.ledger.completed + (if c.pty.replayEnded then 1 else 0)
               + (if i.Arrives? && i.event.ReplayEnd? then 1 else 0)
  {
  }

  /** Completion is reported at most once per replay: from any state, whatever arrives, the number of
      reports is bounded by the replays that end, plus one if an ended replay is still owed. */
  lemma {:induction false} CompletedAtMostOncePerReplay(c: Client, inputs: seq<Input>)
    requires c.term.parsed <= |c.term.log|
    ensures var d := Run(c, inputs);
            d.ledger.completed + (if d.pty.replayEnded then 1 else 0)
            <= c.ledger.completed + (if c.pty.replayEnded then 1 else 0) + ReplayEnds(inputs)
    decreases |inputs|
  {
    if inputs != [] {
      CompletionStep(c, inputs[0]);
      CompletedAtMostOncePerReplay(Step(c, inputs[0]), inputs[1..]);
    }
  }
}
