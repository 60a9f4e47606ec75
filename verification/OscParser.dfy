/** The streaming parser for OSC sequences in terminal output (src-tauri/src/agent/osc.rs). */
module OscParsing {
  import opened Common

  const MAX_PENDING_BYTES: nat := 64 * 1024
  const ESC: Byte := 0x1b
  const BEL: Byte := 0x07
  const BRACKET: Byte := 0x5d
  const BACKSLASH: Byte := 0x5c

  /** Texts are their UTF-8 bytes. */
  datatype OscUpdate =
    | Cwd(path: seq<Byte>)
    | Title(title: seq<Byte>)
    | RuntimeStatus(status: Option<seq<Byte>>)

  /** What the content of one terminated sequence means, if anything: UTF-8 decoding, then
      `parse_content`. */
  type Meaning = seq<Byte> -> Option<OscUpdate>

  // ---------------------------------------------------------------- introducers and terminators

  predicate IntroducerAt(bytes: seq<Byte>, i: nat) {
    i + 1 < |bytes| && bytes[i] == ESC && bytes[i + 1] == BRACKET
  }

  /** The length of the terminator at `i`, or 0. */
  function TerminatorAt(bytes: seq<Byte>, i: nat): nat {
    if i < |bytes| && bytes[i] == BEL then 1
    else if i + 1 < |bytes| && bytes[i] == ESC && bytes[i + 1] == BACKSLASH then 2
    else 0
  }

  // ---------------------------------------------------------------- one pass, byte by byte

  /** Where a pass stands: outside any sequence, or inside the one that starts at `start`. */
  datatype Mode = Outside | Inside(start: nat)

  /** The contents of the sequences that are closed from position `i` on. */
  function Contents(bytes: seq<Byte>, i: nat, mode: Mode): seq<seq<Byte>>
    requires i <= |bytes| && (mode.Inside? ==> mode.start + 2 <= i)
    decreases |bytes| - i
  {
    if i == |bytes| then
      []
    else if mode.Outside? then
      if IntroducerAt(bytes, i) then Contents(bytes, i + 2, Inside(i)) else Contents(bytes, i + 1, Outside)
    else
      var n := TerminatorAt(bytes, i);
      if n == 0 then
        Contents(bytes, i + 1, mode)
      else
        [bytes[mode.start + 2..i]] + Contents(bytes, i + n, Outside)
  }

  /** What must be carried to the next chunk: the open sequence, or a final ESC that may start one. */
  function Carry(bytes: seq<Byte>, i: nat, mode: Mode): seq<Byte>
    requires i <= |bytes| && (mode.Inside? ==> mode.start + 2 <= i)
    decreases |bytes| - i
  {
    if i == |bytes| then
      if mode.Inside? then bytes[mode.start..]
      else if i > 0 && bytes[i - 1] == ESC then [ESC]
      else []
    else if mode.Outside? then
      if IntroducerAt(bytes, i) then Carry(bytes, i + 2, Inside(i)) else Carry(bytes, i + 1, Outside)
    else
      var n := TerminatorAt(bytes, i);
      if n == 0 then Carry(bytes, i + 1, mode) else Carry(bytes, i + n, Outside)
  }

  lemma {:induction false} SkipOutside(bytes: seq<Byte>, i: nat, until: nat)
    requires i <= until <= |bytes|
    requires forall j | i <= j < until :: !IntroducerAt(bytes, j)
    ensures Contents(bytes, i, Outside) == Contents(bytes, until, Outside)
    ensures Carry(bytes, i, Outside) == Carry(bytes, until, Outside)
    decreases until - i
  {
    if i < until {
      SkipOutside(bytes, i + 1, until);
    }
  }

  lemma {:induction false} SkipInside(bytes: seq<Byte>, start: nat, i: nat, until: nat)
    requires start + 2 <= i <= until <= |bytes|
    requires forall j | i <= j < until :: TerminatorAt(bytes, j) == 0
    ensures Contents(bytes, i, Inside(start)) == Contents(bytes, until, Inside(start))
    ensures Carry(bytes, i, Inside(start)) == Carry(bytes, until, Inside(start))
    decreases until - i
  {
    if i < until {
      SkipInside(bytes, start, i + 1, until);
    }
  }

  /** Being inside a sequence at `i` is having met its introducer and no terminator since. */
  ghost predicate Reached(bytes: seq<Byte>, i: nat, mode: Mode) {
    mode.Inside? ==>
      && IntroducerAt(bytes, mode.start) && mode.start + 2 <= i
      && forall j | mode.start + 2 <= j < i :: TerminatorAt(bytes, j) == 0
  }

  /** Scanning on inside a sequence is scanning again from its start. */
  lemma Rewind(bytes: seq<Byte>, i: nat, start: nat)
    requires i <= |bytes| && Reached(bytes, i, Inside(start))
    ensures Contents(bytes, i, Inside(start)) == Contents(bytes, start, Outside)
    ensures Carry(bytes, i, Inside(start)) == Carry(bytes, start, Outside)
  {
    SkipInside(bytes, start, start + 2, i);
  }

  // ---------------------------------------------------------------- what is reported and kept

  function Understood(meaning: Meaning, content: seq<Byte>): seq<OscUpdate> {
    var update := meaning(content);
    if update.Some? then [update.value] else []
  }

  /** The updates that a list of contents means. */
  function Meant(meaning: Meaning, contents: seq<seq<Byte>>): seq<OscUpdate> {
    if contents == [] then [] else Understood(meaning, contents[0]) + Meant(meaning, contents[1..])
  }

  lemma {:induction false} MeantJoins(meaning: Meaning, a: seq<seq<Byte>>, b: seq<seq<Byte>>)
    ensures Meant(meaning, a + b) == Meant(meaning, a) + Meant(meaning, b)
    decreases |a|
  {
    if a == [] {
      assert a + b == b;
    } else {
      assert (a + b)[0] == a[0] && (a + b)[1..] == a[1..] + b;
      MeantJoins(meaning, a[1..], b);
      assert Meant(meaning, a + b) == Understood(meaning, a[0]) + (Meant(meaning, a[1..]) + Meant(meaning, b));
    }
  }

  lemma MeantOne(meaning: Meaning, content: seq<Byte>)
    ensures Meant(meaning, [content]) == Understood(meaning, content)
  {
    assert [content][1..] == [];
  }

  function Bounded(carry: seq<Byte>): (r: seq<Byte>)
    ensures |r| <= MAX_PENDING_BYTES
  {
    if |carry| > MAX_PENDING_BYTES then carry[|carry| - MAX_PENDING_BYTES..] else carry
  }

  // ---------------------------------------------------------------- the parser

  method FindSubslice(bytes: seq<Byte>, from: nat) returns (start: nat)
    requires from <= |bytes|
    ensures from <= start <= |bytes| && (start < |bytes| ==> IntroducerAt(bytes, start))
    ensures forall j | from <= j < start :: !IntroducerAt(bytes, j)
  {
    start := from;
    while start < |bytes| && !IntroducerAt(bytes, start)
      invariant from <= start <= |bytes|
      invariant forall j | from <= j < start :: !IntroducerAt(bytes, j)
    {
      start := start + 1;
    }
  }

  method FindTerminator(bytes: seq<Byte>, from: nat) returns (found: Option<(nat, nat)>)
    requires from <= |bytes|
    ensures found.None? ==> forall j | from <= j < |bytes| :: TerminatorAt(bytes, j) == 0
    ensures found.Some? ==> from <= found.value.0 < |bytes|
    ensures found.Some? ==> found.value.1 == TerminatorAt(bytes, found.value.0) > 0
    ensures found.Some? ==> forall j | from <= j < found.value.0 :: TerminatorAt(bytes, j) == 0
  {
    var index := from;
    while index < |bytes|
      invariant from <= index <= |bytes|
      invariant forall j | from <= j < index :: TerminatorAt(bytes, j) == 0
    {
      if bytes[index] == BEL {
        return Some((index, 1));
      }
      if bytes[index] == ESC && index + 1 < |bytes| && bytes[index + 1] == BACKSLASH {
        return Some((index, 2));
      }
      index := index + 1;
    }
    return None;
  }

  class OscParser {
    const meaning: Meaning
    var pending: seq<Byte>

    constructor (meaning: Meaning)
      ensures this.meaning == meaning && pending == []
    {
      this.meaning := meaning;
      pending := [];
    }

    /** Observes one chunk: the carry stays within its bound whatever arrives. */
    method Push(chunk: seq<Byte>) returns (updates: seq<OscUpdate>)
      modifies this`pending
      ensures updates == Meant(meaning, Contents(old(pending) + chunk, 0, Outside))
      ensures pending == Bounded(Carry(old(pending) + chunk, 0, Outside))
      ensures |pending| <= MAX_PENDING_BYTES
    {
      var bytes := pending + chunk;
      updates, pending := Observe(meaning, bytes);
    }
  }

  method Observe(meaning: Meaning, bytes: seq<Byte>) returns (updates: seq<OscUpdate>, pending: seq<Byte>)
    ensures updates == Meant(meaning, Contents(bytes, 0, Outside))
    ensures pending == Bounded(Carry(bytes, 0, Outside))
  {
    pending := [];
    updates := [];
    ghost var taken: seq<seq<Byte>> := [];
    var cursor := 0;
    var start := FindSubslice(bytes, cursor);
    while start < |bytes|
      invariant pending == [] && cursor <= start <= |bytes|
      invariant start < |bytes| ==> IntroducerAt(bytes, start)
      invariant forall j | cursor <= j < start :: !IntroducerAt(bytes, j)
      invariant Contents(bytes, 0, Outside) == taken + Contents(bytes, cursor, Outside)
      invariant updates == Meant(meaning, taken)
      invariant Carry(bytes, 0, Outside) == Carry(bytes, cursor, Outside)
      decreases |bytes| - cursor
    {
      var found := FindTerminator(bytes, start + 2);
      if found.None? {
        SkipOutside(bytes, cursor, start);
        OpenNow(bytes, start);
        assert taken + [] == taken;
        pending := KeepLast(bytes[start..]);
        return;
      }
      var end, next := found.value.0, found.value.0 + found.value.1;
      TakeClosed(bytes, cursor, start, end, next, taken);
      updates := Note(meaning, updates, bytes[start + 2..end], taken);
      taken := taken + [bytes[start + 2..end]];
      cursor := next;
      start := FindSubslice(bytes, cursor);
    }
    SkipOutside(bytes, cursor, |bytes|);
    assert taken + [] == taken;
    if bytes != [] && bytes[|bytes| - 1] == ESC {
      pending := [ESC];
    }
  }

  lemma OpenNow(bytes: seq<Byte>, start: nat)
    requires IntroducerAt(bytes, start)
    requires forall j | start + 2 <= j < |bytes| :: TerminatorAt(bytes, j) == 0
    ensures Contents(bytes, start, Outside) == [] && Carry(bytes, start, Outside) == bytes[start..]
  {
    SkipInside(bytes, start, start + 2, |bytes|);
  }

  lemma ClosedNow(bytes: seq<Byte>, start: nat, end: nat, next: nat)
    requires IntroducerAt(bytes, start) && start + 2 <= end < |bytes|
    requires forall j | start + 2 <= j < end :: TerminatorAt(bytes, j) == 0
    requires TerminatorAt(bytes, end) > 0 && next == end + TerminatorAt(bytes, end)
    ensures Contents(bytes, start, Outside) == [bytes[start + 2..end]] + Contents(bytes, next, Outside)
    ensures Carry(bytes, start, Outside) == Carry(bytes, next, Outside)
  {
    Rewind(bytes, end, start);
  }

  /** Taking a closed sequence moves its content from what is to come to what was taken. */
  lemma TakeClosed(bytes: seq<Byte>, cursor: nat, start: nat, end: nat, next: nat, taken: seq<seq<Byte>>)
    requires cursor <= start < |bytes| && forall j | cursor <= j < start :: !IntroducerAt(bytes, j)
    requires IntroducerAt(bytes, start) && start + 2 <= end < |bytes|
    requires forall j | start + 2 <= j < end :: TerminatorAt(bytes, j) == 0
    requires TerminatorAt(bytes, end) > 0 && next == end + TerminatorAt(bytes, end)
    ensures next <= |bytes|
    ensures taken + Contents(bytes, cursor, Outside)
            == taken + [bytes[start + 2..end]] + Contents(bytes, next, Outside)
    ensures Carry(bytes, cursor, Outside) == Carry(bytes, next, Outside)
  {
    SkipOutside(bytes, cursor, start);
    ClosedNow(bytes, start, end, next);
  }

  method KeepLast(open: seq<Byte>) returns (pending: seq<Byte>)
    ensures pending == Bounded(open)
  {
    pending := open;
    if |pending| > MAX_PENDING_BYTES {
      var keepFrom := |pending| - MAX_PENDING_BYTES;
      pending := pending[keepFrom..];
    }
  }

  method Note(meaning: Meaning, updates: seq<OscUpdate>, content: seq<Byte>, ghost taken: seq<seq<Byte>>)
    returns (more: seq<OscUpdate>)
    requires updates == Meant(meaning, taken)
    ensures more == Meant(meaning, taken + [content])
  {
    MeantJoins(meaning, taken, [content]);
    MeantOne(meaning, content);
    more := updates;
    var update := meaning(content);
    if update.Some? {
      more := more + [update.value];
    }
  }

  // ---------------------------------------------------------------- chunk boundaries do not matter

  function Moved(mode: Mode, n: nat): Mode {
    if mode.Inside? then Inside(n + mode.start) else Outside
  }

  /** Scanning a suffix finds what scanning from its position finds. */
  lemma {:induction false} ShiftContents(bytes: seq<Byte>, n: nat, rest: seq<Byte>, k: nat, mode: Mode)
    requires n <= |bytes| && rest == bytes[n..] && k <= |rest| && (mode.Inside? ==> mode.start + 2 <= k)
    ensures Contents(bytes, n + k, Moved(mode, n)) == Contents(rest, k, mode)
    decreases |rest| - k
  {
    if k < |rest| {
      assert IntroducerAt(bytes, n + k) <==> IntroducerAt(rest, k);
      assert TerminatorAt(bytes, n + k) == TerminatorAt(rest, k);
      if mode.Outside? && IntroducerAt(rest, k) {
        ShiftContents(bytes, n, rest, k + 2, Inside(k));
      } else if mode.Outside? || TerminatorAt(rest, k) == 0 {
        ShiftContents(bytes, n, rest, k + 1, mode);
      } else {
        ShiftContents(bytes, n, rest, k + TerminatorAt(rest, k), Outside);
        assert bytes[n + mode.start + 2..n + k] == rest[mode.start + 2..k];
      }
    }
  }

  lemma {:induction false} ShiftCarry(bytes: seq<Byte>, n: nat, rest: seq<Byte>, k: nat, mode: Mode)
    requires n <= |bytes| && rest == bytes[n..] && k <= |rest| && (mode.Inside? ==> mode.start + 2 <= k)
    requires rest != [] || n == 0 || bytes[n - 1] != ESC
    ensures Carry(bytes, n + k, Moved(mode, n)) == Carry(rest, k, mode)
    decreases |rest| - k
  {
    if k == |rest| {
      ShiftEnd(bytes, n, rest, mode);
    } else {
      assert IntroducerAt(bytes, n + k) <==> IntroducerAt(rest, k);
      assert TerminatorAt(bytes, n + k) == TerminatorAt(rest, k);
      if mode.Outside? && IntroducerAt(rest, k) {
        ShiftCarry(bytes, n, rest, k + 2, Inside(k));
      } else if mode.Outside? || TerminatorAt(rest, k) == 0 {
        ShiftCarry(bytes, n, rest, k + 1, mode);
      } else {
        ShiftCarry(bytes, n, rest, k + TerminatorAt(rest, k), Outside);
      }
    }
  }

  lemma ShiftEnd(bytes: seq<Byte>, n: nat, rest: seq<Byte>, mode: Mode)
    requires n <= |bytes| && rest == bytes[n..] && (mode.Inside? ==> mode.start + 2 <= |rest|)
    requires rest != [] || n == 0 || bytes[n - 1] != ESC
    ensures Carry(bytes, |bytes|, Moved(mode, n)) == Carry(rest, |rest|, mode)
  {
    if mode.Inside? {
      assert bytes[n + mode.start..] == rest[mode.start..];
    }
  }

  /** The positions a pass over `a` can stand at without having looked past the end of `a`. */
  ghost predicate Stands(a: seq<Byte>, i: nat, mode: Mode) {
    i <= |a| && Reached(a, i, mode) && (i == |a| > 0 ==> a[i - 1] != ESC)
  }

  /** Nothing of `a` is left to decide: its end is reached, or only a final ESC is left. */
  predicate AtEnd(a: seq<Byte>, i: nat) {
    i == |a| || (i + 1 == |a| && a[i] == ESC)
  }

  lemma CarriedFrom(a: seq<Byte>, i: nat, mode: Mode)
    requires Stands(a, i, mode) && AtEnd(a, i)
    ensures Contents(a, i, mode) == []
    ensures Carry(a, i, mode) == a[if mode.Inside? then mode.start else i..]
  {
  }

  /** At the end of `a`, the bytes that follow are met as if they followed the carry. */
  lemma FollowCarry(a: seq<Byte>, b: seq<Byte>, i: nat, mode: Mode)
    requires Stands(a, i, mode) && AtEnd(a, i)
    ensures Contents(a + b, i, mode) == Contents(Carry(a, i, mode) + b, 0, Outside)
    ensures Carry(a + b, i, mode) == Carry(Carry(a, i, mode) + b, 0, Outside)
  {
    var from := if mode.Inside? then mode.start else i;
    CarriedFrom(a, i, mode);
    assert (a + b)[from..] == a[from..] + b;
    ToStart(a, b, i, mode);
    ShiftContents(a + b, from, a[from..] + b, 0, Outside);
    ShiftCarry(a + b, from, a[from..] + b, 0, Outside);
  }

  lemma ToStart(a: seq<Byte>, b: seq<Byte>, i: nat, mode: Mode)
    requires Stands(a, i, mode)
    ensures var from := if mode.Inside? then mode.start else i;
            && Contents(a + b, i, mode) == Contents(a + b, from, Outside)
            && Carry(a + b, i, mode) == Carry(a + b, from, Outside)
  {
    if mode.Inside? {
      assert IntroducerAt(a + b, mode.start) by {
        assert IntroducerAt(a, mode.start);
      }
      assert forall j | mode.start + 2 <= j < i :: TerminatorAt(a + b, j) == TerminatorAt(a, j);
      Rewind(a + b, i, mode.start);
    }
  }

  lemma SameStep(a: seq<Byte>, b: seq<Byte>, i: nat)
    requires i < |a| && !AtEnd(a, i)
    ensures IntroducerAt(a + b, i) <==> IntroducerAt(a, i)
    ensures TerminatorAt(a + b, i) == TerminatorAt(a, i)
    ensures forall from: nat | from <= i :: (a + b)[from..i] == a[from..i]
  {
  }

  /** One step of a pass over `a` is one step over `a + b`. */
  lemma StepInTwoParts(a: seq<Byte>, b: seq<Byte>, i: nat, mode: Mode)
    requires Stands(a, i, mode) && !AtEnd(a, i)
    ensures var n := TerminatorAt(a, i);
            if mode.Outside? && IntroducerAt(a, i) then
              && Contents(a, i, mode) == Contents(a, i + 2, Inside(i))
              && Contents(a + b, i, mode) == Contents(a + b, i + 2, Inside(i))
            else if mode.Outside? || n == 0 then
              && Contents(a, i, mode) == Contents(a, i + 1, mode)
              && Contents(a + b, i, mode) == Contents(a + b, i + 1, mode)
            else
              && Contents(a, i, mode) == [a[mode.start + 2..i]] + Contents(a, i + n, Outside)
              && Contents(a + b, i, mode) == [a[mode.start + 2..i]] + Contents(a + b, i + n, Outside)
  {
    SameStep(a, b, i);
  }

  lemma {:induction false} ContentsInTwoParts(a: seq<Byte>, b: seq<Byte>, i: nat, mode: Mode)
    requires Stands(a, i, mode)
    ensures Contents(a + b, i, mode) == Contents(a, i, mode) + Contents(Carry(a, i, mode) + b, 0, Outside)
    decreases |a| - i
  {
    if AtEnd(a, i) {
      CarriedFrom(a, i, mode);
      FollowCarry(a, b, i, mode);
    } else {
      StepInTwoParts(a, b, i, mode);
      if mode.Outside? && IntroducerAt(a, i) {
        ContentsInTwoParts(a, b, i + 2, Inside(i));
      } else if mode.Outside? || TerminatorAt(a, i) == 0 {
        ContentsInTwoParts(a, b, i + 1, mode);
      } else {
        var next := i + TerminatorAt(a, i);
        ContentsInTwoParts(a, b, next, Outside);
        Associative([a[mode.start + 2..i]], Contents(a, next, Outside),
                    Contents(Carry(a, next, Outside) + b, 0, Outside));
      }
    }
  }

  lemma {:induction false} CarryInTwoParts(a: seq<Byte>, b: seq<Byte>, i: nat, mode: Mode)
    requires Stands(a, i, mode)
    ensures Carry(a + b, i, mode) == Carry(Carry(a, i, mode) + b, 0, Outside)
    decreases |a| - i
  {
    if AtEnd(a, i) {
      CarriedFrom(a, i, mode);
      FollowCarry(a, b, i, mode);
    } else {
      assert IntroducerAt(a + b, i) <==> IntroducerAt(a, i);
      assert TerminatorAt(a + b, i) == TerminatorAt(a, i);
      if mode.Outside? && IntroducerAt(a, i) {
        CarryInTwoParts(a, b, i + 2, Inside(i));
      } else if mode.Outside? || TerminatorAt(a, i) == 0 {
        CarryInTwoParts(a, b, i + 1, mode);
      } else {
        CarryInTwoParts(a, b, i + TerminatorAt(a, i), Outside);
      }
    }
  }

  /** Scanning in two parts, carrying over, is scanning at once. */
  lemma ScanInTwoParts(a: seq<Byte>, b: seq<Byte>)
    ensures Contents(a + b, 0, Outside) == Contents(a, 0, Outside) + Contents(Carry(a, 0, Outside) + b, 0, Outside)
    ensures Carry(a + b, 0, Outside) == Carry(Carry(a, 0, Outside) + b, 0, Outside)
  {
    ContentsInTwoParts(a, b, 0, Outside);
    CarryInTwoParts(a, b, 0, Outside);
  }

  function Flat(chunks: seq<seq<Byte>>): seq<Byte> {
    if chunks == [] then [] else chunks[0] + Flat(chunks[1..])
  }

  /** The contents that a parser that carries `pending` meets over a list of pushes. */
  function Met(pending: seq<Byte>, chunks: seq<seq<Byte>>): seq<seq<Byte>>
    decreases |chunks|
  {
    if chunks == [] then
      []
    else
      var bytes := pending + chunks[0];
      Contents(bytes, 0, Outside) + Met(Bounded(Carry(bytes, 0, Outside)), chunks[1..])
  }

  /** What a parser that carries `pending` reports over a list of pushes. */
  function Reported(meaning: Meaning, pending: seq<Byte>, chunks: seq<seq<Byte>>): seq<OscUpdate>
    decreases |chunks|
  {
    if chunks == [] then
      []
    else
      var bytes := pending + chunks[0];
      Meant(meaning, Contents(bytes, 0, Outside))
      + Reported(meaning, Bounded(Carry(bytes, 0, Outside)), chunks[1..])
  }

  /** What a parser that carries `pending` carries after a list of pushes. */
  function Held(pending: seq<Byte>, chunks: seq<seq<Byte>>): seq<Byte>
    decreases |chunks|
  {
    if chunks == [] then pending else Held(Bounded(Carry(pending + chunks[0], 0, Outside)), chunks[1..])
  }

  lemma {:induction false} ReportedIsMeant(meaning: Meaning, pending: seq<Byte>, chunks: seq<seq<Byte>>)
    ensures Reported(meaning, pending, chunks) == Meant(meaning, Met(pending, chunks))
    decreases |chunks|
  {
    if chunks != [] {
      var bytes := pending + chunks[0];
      var next := Bounded(Carry(bytes, 0, Outside));
      ReportedIsMeant(meaning, next, chunks[1..]);
      MeantJoins(meaning, Contents(bytes, 0, Outside), Met(next, chunks[1..]));
    }
  }

  /** After every push, the sequence still open in the stream so far is within the bound. */
  ghost predicate CarryFits(pending: seq<Byte>, chunks: seq<seq<Byte>>) {
    forall i | 0 < i <= |chunks| :: |Carry(pending + Flat(chunks[..i]), 0, Outside)| <= MAX_PENDING_BYTES
  }

  lemma FlatFirst(chunks: seq<seq<Byte>>, i: nat)
    requires i < |chunks|
    ensures Flat(chunks[..i + 1]) == chunks[0] + Flat(chunks[1..][..i])
  {
    assert chunks[..i + 1][1..] == chunks[1..][..i];
  }

  lemma CarryFitsFirst(pending: seq<Byte>, chunks: seq<seq<Byte>>)
    requires chunks != [] && CarryFits(pending, chunks)
    ensures |Carry(pending + chunks[0], 0, Outside)| <= MAX_PENDING_BYTES
  {
    FlatFirst(chunks, 0);
    assert pending + Flat(chunks[..1]) == pending + chunks[0];
  }

  lemma CarryFitsRest(pending: seq<Byte>, chunks: seq<seq<Byte>>)
    requires chunks != [] && CarryFits(pending, chunks)
    ensures CarryFits(Carry(pending + chunks[0], 0, Outside), chunks[1..])
  {
    var head, tail := pending + chunks[0], chunks[1..];
    forall i | 0 < i <= |tail|
      ensures |Carry(Carry(head, 0, Outside) + Flat(tail[..i]), 0, Outside)| <= MAX_PENDING_BYTES
    {
      FlatFirst(chunks, i);
      assert pending + Flat(chunks[..i + 1]) == head + Flat(tail[..i]);
      ScanInTwoParts(head, Flat(tail[..i]));
    }
  }

  /** Scanning only what was carried finds nothing and carries it again. */
  lemma {:induction false} CarryIsStable(bytes: seq<Byte>, i: nat, mode: Mode)
    requires Stands(bytes, i, mode)
    ensures Contents(Carry(bytes, i, mode), 0, Outside) == []
    ensures Carry(Carry(bytes, i, mode), 0, Outside) == Carry(bytes, i, mode)
    decreases |bytes| - i
  {
    if AtEnd(bytes, i) {
      CarriedFrom(bytes, i, mode);
      FollowCarry(bytes, [], i, mode);
      assert Carry(bytes, i, mode) + [] == Carry(bytes, i, mode) && bytes + [] == bytes;
    } else if mode.Outside? && IntroducerAt(bytes, i) {
      CarryIsStable(bytes, i + 2, Inside(i));
    } else if mode.Outside? || TerminatorAt(bytes, i) == 0 {
      CarryIsStable(bytes, i + 1, mode);
    } else {
      CarryIsStable(bytes, i + TerminatorAt(bytes, i), Outside);
    }
  }

  lemma {:induction false} MetInOneScan(pending: seq<Byte>, chunks: seq<seq<Byte>>)
    requires Contents(pending, 0, Outside) == [] && Carry(pending, 0, Outside) == pending
    requires CarryFits(pending, chunks)
    ensures Met(pending, chunks) == Contents(pending + Flat(chunks), 0, Outside)
    ensures Held(pending, chunks) == Carry(pending + Flat(chunks), 0, Outside)
    decreases |chunks|
  {
    if chunks == [] {
      assert pending + Flat(chunks) == pending;
    } else {
      var carry := Carry(pending + chunks[0], 0, Outside);
      CarryFitsRest(pending, chunks);
      CarryIsStable(pending + chunks[0], 0, Outside);
      MetInOneScan(carry, chunks[1..]);
      MetFirst(pending, chunks, carry);
    }
  }

  lemma MetFirst(pending: seq<Byte>, chunks: seq<seq<Byte>>, carry: seq<Byte>)
    requires chunks != [] && CarryFits(pending, chunks) && carry == Carry(pending + chunks[0], 0, Outside)
    requires Met(carry, chunks[1..]) == Contents(carry + Flat(chunks[1..]), 0, Outside)
    requires Held(carry, chunks[1..]) == Carry(carry + Flat(chunks[1..]), 0, Outside)
    ensures Met(pending, chunks) == Contents(pending + Flat(chunks), 0, Outside)
    ensures Held(pending, chunks) == Carry(pending + Flat(chunks), 0, Outside)
  {
    CarryFitsFirst(pending, chunks);
    assert Bounded(carry) == carry;
    ScanInTwoParts(pending + chunks[0], Flat(chunks[1..]));
    assert pending + Flat(chunks) == pending + chunks[0] + Flat(chunks[1..]);
  }

  /** However a stream is cut into chunks, the pushes together report what one push of the whole
      stream reports and leave the same carry, as long as the carry fits. */
  lemma ChunksDoNotMatter(meaning: Meaning, chunks: seq<seq<Byte>>)
    requires CarryFits([], chunks)
    ensures Reported(meaning, [], chunks) == Meant(meaning, Contents(Flat(chunks), 0, Outside))
    ensures Held([], chunks) == Carry(Flat(chunks), 0, Outside)
  {
    ReportedIsMeant(meaning, [], chunks);
    MetInOneScan([], chunks);
    assert [] + Flat(chunks) == Flat(chunks);
  }

  /** After every push, the parser holds the whole open sequence of the stream so far. */
  ghost predicate HoldsAll(chunks: seq<seq<Byte>>) {
    forall i | 0 <= i <= |chunks| :: Held([], chunks[..i]) == Carry(Flat(chunks[..i]), 0, Outside)
  }

  lemma {:induction false} HeldOneMore(pending: seq<Byte>, chunks: seq<seq<Byte>>)
    requires chunks != []
    ensures var last := |chunks| - 1;
            Held(pending, chunks) == Bounded(Carry(Held(pending, chunks[..last]) + chunks[last], 0, Outside))
    decreases |chunks|
  {
    if |chunks| > 1 {
      HeldOneMore(Bounded(Carry(pending + chunks[0], 0, Outside)), chunks[1..]);
      assert chunks[..|chunks| - 1][1..] == chunks[1..][..|chunks| - 2];
    } else {
      assert chunks[..0] == [] && chunks[1..] == [];
    }
  }

  lemma {:induction false} FlatOneMore(chunks: seq<seq<Byte>>)
    requires chunks != []
    ensures Flat(chunks) == Flat(chunks[..|chunks| - 1]) + chunks[|chunks| - 1]
    decreases |chunks|
  {
    if |chunks| > 1 {
      FlatOneMore(chunks[1..]);
      assert chunks[..|chunks| - 1][1..] == chunks[1..][..|chunks| - 2];
      Associative(chunks[0], Flat(chunks[1..][..|chunks| - 2]), chunks[|chunks| - 1]);
    } else {
      assert chunks[..0] == [] && chunks[1..] == [];
    }
  }

  lemma HeldFits(chunks: seq<seq<Byte>>, i: nat)
    requires 0 < i <= |chunks| && HoldsAll(chunks)
    ensures |Carry([] + Flat(chunks[..i]), 0, Outside)| <= MAX_PENDING_BYTES
  {
    assert [] + Flat(chunks[..i]) == Flat(chunks[..i]);
    HeldOneMore([], chunks[..i]);
  }

  /** The open sequence fits after every push if and only if nothing of it is ever dropped. */
  lemma CarryFitsIff(chunks: seq<seq<Byte>>)
    ensures CarryFits([], chunks) <==> HoldsAll(chunks)
  {
    if HoldsAll(chunks) {
      forall i | 0 < i <= |chunks| ensures |Carry([] + Flat(chunks[..i]), 0, Outside)| <= MAX_PENDING_BYTES {
        HeldFits(chunks, i);
      }
    }
    if CarryFits([], chunks) {
      forall i | 0 <= i <= |chunks| ensures Held([], chunks[..i]) == Carry(Flat(chunks[..i]), 0, Outside) {
        assert forall k | 0 < k <= i :: chunks[..i][..k] == chunks[..k];
        MetInOneScan([], chunks[..i]);
        assert [] + Flat(chunks[..i]) == Flat(chunks[..i]);
      }
    }
  }

  /** A fresh parser: any two ways of cutting a stream report the same updates. */
  lemma AnyTwoCutsAgree(meaning: Meaning, one: seq<seq<Byte>>, other: seq<seq<Byte>>)
    requires Flat(one) == Flat(other) && CarryFits([], one) && CarryFits([], other)
    ensures Reported(meaning, [], one) == Reported(meaning, [], other) && Held([], one) == Held([], other)
  {
    ChunksDoNotMatter(meaning, one);
    ChunksDoNotMatter(meaning, other);
  }

  // ---------------------------------------------------------------- the bound is needed

  /** A sequence that one push would report is lost when it is cut while longer than the bound. */
  lemma OverlongSequenceIsLost(meaning: Meaning, content: seq<Byte>)
    requires |content| == MAX_PENDING_BYTES && meaning(content).Some?
    requires forall i | 0 <= i < |content| :: content[i] != ESC && content[i] != BEL
    ensures Meant(meaning, Contents([ESC, BRACKET] + content + [BEL], 0, Outside)) == [meaning(content).value]
    ensures Reported(meaning, [], [[ESC, BRACKET] + content, [BEL]]) == []
  {
    WholeIsMet(content, [BEL]);
    MeantOne(meaning, content);
    ReportedIsMeant(meaning, [], [[ESC, BRACKET] + content, [BEL]]);
    CutIsLost(content);
  }

  /** Either terminator ends a sequence, and is not part of it. */
  lemma WholeIsMet(content: seq<Byte>, end: seq<Byte>)
    requires forall i | 0 <= i < |content| :: content[i] != ESC && content[i] != BEL
    requires end == [BEL] || end == [ESC, BACKSLASH]
    ensures Contents([ESC, BRACKET] + content + end, 0, Outside) == [content]
  {
    var whole, n := [ESC, BRACKET] + content + end, |content| + 2;
    assert whole[n] == end[0] && (end != [BEL] ==> whole[n + 1] == end[1]);
    assert forall j | 2 <= j < n :: whole[j] == content[j - 2];
    ClosedNow(whole, 0, n, n + |end|);
    assert whole[2..n] == content;
  }

  lemma CutIsLost(content: seq<Byte>)
    requires |content| == MAX_PENDING_BYTES
    requires forall i | 0 <= i < |content| :: content[i] != ESC && content[i] != BEL
    ensures Met([], [[ESC, BRACKET] + content, [BEL]]) == []
  {
    var head, tail := [ESC, BRACKET] + content, content + [BEL];
    var chunks := [head, [BEL]];
    assert chunks[1..] == [[BEL]] && [[BEL]][1..] == [] && [] + head == head;
    OpenNow(head, 0);
    assert head[0..] == head;
    assert Bounded(head) == content;
    SkipOutside(tail, 0, |tail|);
    assert Met(content, [[BEL]]) == Contents(tail, 0, Outside) + [];
  }
}
