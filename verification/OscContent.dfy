/** What the content of an OSC sequence means (src-tauri/src/agent/osc.rs); texts are their UTF-8 bytes. */
module OscContents {
  import opened Common
  import opened OscParsing

  const PERCENT: Byte := 0x25
  const SLASH: Byte := 0x2f
  const SEMICOLON: Byte := 0x3b

  /** What Rust's library decides about bytes and characters: whether bytes are UTF-8, and a title
      without control characters, cut to 200 characters and trimmed. */
  datatype Library = Library(isUtf8: seq<Byte> -> bool, sanitizeTitle: seq<Byte> -> seq<Byte>)

  /** The bytes of a text of ASCII characters. */
  function Ascii(text: string): (bytes: seq<Byte>)
    ensures |bytes| == |text|
  {
    if text == "" then [] else [text[0] as int % 0x100] + Ascii(text[1..])
  }

  lemma {:induction false} AsciiInTwo(a: string, b: string)
    ensures Ascii(a + b) == Ascii(a) + Ascii(b)
    decreases |a|
  {
    if a == "" {
      assert a + b == b;
    } else {
      AsciiInTwo(a[1..], b);
      assert (a + b)[0] == a[0] && (a + b)[1..] == a[1..] + b;
      Associative([a[0] as int % 0x100], Ascii(a[1..]), Ascii(b));
    }
  }

  // ---------------------------------------------------------------- percent decoding

  function Hex(value: Byte): (digit: Option<nat>)
    ensures digit.Some? ==> digit.value < 16
  {
    if 0x30 <= value <= 0x39 then Some(value - 0x30)
    else if 0x61 <= value <= 0x66 then Some(value - 0x61 + 10)
    else if 0x41 <= value <= 0x46 then Some(value - 0x41 + 10)
    else None
  }

  /** The byte that a position spells and how many bytes that takes, if it spells one. */
  function Unit(value: seq<Byte>, index: nat): (r: Option<(Byte, nat)>)
    requires index < |value|
    ensures r.Some? ==> 0 < r.value.1 && index + r.value.1 <= |value|
  {
    if value[index] != PERCENT then Some((value[index], 1))
    else if index + 2 >= |value| then None
    else
      var high, low := Hex(value[index + 1]), Hex(value[index + 2]);
      if high.Some? && low.Some? then Some((16 * high.value + low.value, 3)) else None
  }

  function Decoded(value: seq<Byte>, index: nat): Option<seq<Byte>>
    requires index <= |value|
    decreases |value| - index
  {
    if index == |value| then Some([])
    else
      var unit := Unit(value, index);
      if unit.None? then None
      else
        var rest := Decoded(value, index + unit.value.1);
        if rest.None? then None else Some([unit.value.0] + rest.value)
  }

  lemma TakeUnit(value: seq<Byte>, index: nat, before: seq<Byte>)
    requires index < |value| && Unit(value, index).Some?
    ensures var (byte, n) := Unit(value, index).value;
            && (Decoded(value, index).Some? <==> Decoded(value, index + n).Some?)
            && (Decoded(value, index).Some? ==>
                  before + Decoded(value, index).value == before + [byte] + Decoded(value, index + n).value)
  {
    var (byte, n) := Unit(value, index).value;
    if Decoded(value, index).Some? {
      Associative(before, [byte], Decoded(value, index + n).value);
    }
  }

  method DecodeUnits(value: seq<Byte>) returns (decoded: Option<seq<Byte>>)
    ensures decoded == Decoded(value, 0)
  {
    var bytes: seq<Byte>, index := [], 0;
    while index < |value|
      invariant index <= |value|
      invariant Decoded(value, 0).Some? <==> Decoded(value, index).Some?
      invariant Decoded(value, 0).Some? ==> Decoded(value, 0).value == bytes + Decoded(value, index).value
    {
      if value[index] == PERCENT {
        if index + 1 >= |value| || index + 2 >= |value| {
          return None;
        }
        var high, low := Hex(value[index + 1]), Hex(value[index + 2]);
        if high.None? || low.None? {
          return None;
        }
        TakeUnit(value, index, bytes);
        bytes := bytes + [16 * high.value + low.value];
        index := index + 3;
      } else {
        TakeUnit(value, index, bytes);
        bytes := bytes + [value[index]];
        index := index + 1;
      }
    }
    assert bytes + [] == bytes;
    return Some(bytes);
  }

  method PercentDecode(library: Library, value: seq<Byte>) returns (decoded: Option<seq<Byte>>)
    ensures var bytes := Decoded(value, 0);
            decoded == if bytes.Some? && library.isUtf8(bytes.value) then bytes else None
  {
    decoded := DecodeUnits(value);
    if decoded.Some? && !library.isUtf8(decoded.value) {
      decoded := None;
    }
  }

  /** A percent-encoding of some bytes: each stands for itself, unless it is a percent sign, or is
      written as a percent sign and two hexadecimal digits. */
  ghost predicate Encodes(value: seq<Byte>, bytes: seq<Byte>)
    decreases |bytes|
  {
    if bytes == [] then value == []
    else
      || (value != [] && value[0] == bytes[0] != PERCENT && Encodes(value[1..], bytes[1..]))
      || (|value| >= 3 && value[0] == PERCENT && Hex(value[1]) == Some(bytes[0] / 16)
          && Hex(value[2]) == Some(bytes[0] % 16) && Encodes(value[3..], bytes[1..]))
  }

  lemma DecodedSuffix(value: seq<Byte>, n: nat, k: nat)
    requires n + k <= |value|
    ensures Decoded(value, n + k) == Decoded(value[n..], k)
    decreases |value| - n - k
  {
    if n + k < |value| {
      var rest := value[n..];
      assert rest[k] == value[n + k];
      assert n + k + 1 < |value| ==> rest[k + 1] == value[n + k + 1];
      assert n + k + 2 < |value| ==> rest[k + 2] == value[n + k + 2];
      assert Unit(rest, k) == Unit(value, n + k);
      if Unit(rest, k).Some? {
        DecodedSuffix(value, n, k + Unit(rest, k).value.1);
      }
    }
  }

  lemma DecodedUnit(value: seq<Byte>, bytes: seq<Byte>)
    requires value != []
    ensures var unit := Unit(value, 0);
            Decoded(value, 0) == Some(bytes)
            <==> unit.Some? && bytes != [] && bytes[0] == unit.value.0
                 && Decoded(value[unit.value.1..], 0) == Some(bytes[1..])
  {
    var unit := Unit(value, 0);
    if unit.Some? {
      DecodedSuffix(value, unit.value.1, 0);
      assert bytes != [] ==> [bytes[0]] + bytes[1..] == bytes;
    }
  }

  lemma EncodesUnit(value: seq<Byte>, bytes: seq<Byte>)
    requires value != []
    ensures var unit := Unit(value, 0);
            Encodes(value, bytes)
            <==> unit.Some? && bytes != [] && bytes[0] == unit.value.0 && Encodes(value[unit.value.1..], bytes[1..])
  {
  }

  /** Whatever encoding was used, decoding gives the bytes back; and what decodes is an encoding. */
  lemma {:induction false} DecodesIffEncodes(value: seq<Byte>, bytes: seq<Byte>)
    ensures Decoded(value, 0) == Some(bytes) <==> Encodes(value, bytes)
    decreases |value|
  {
    if value != [] {
      DecodedUnit(value, bytes);
      EncodesUnit(value, bytes);
      if Unit(value, 0).Some? && bytes != [] {
        DecodesIffEncodes(value[Unit(value, 0).value.1..], bytes[1..]);
      }
    }
  }

  // ---------------------------------------------------------------- contents

  function IndexOf(bytes: seq<Byte>, byte: Byte): (i: nat)
    ensures i <= |bytes| && (i < |bytes| ==> bytes[i] == byte)
    ensures forall j | 0 <= j < i :: bytes[j] != byte
  {
    if bytes == [] || bytes[0] == byte then 0 else 1 + IndexOf(bytes[1..], byte)
  }

  /** What follows a prefix, if it is there. */
  function StripPrefix(bytes: seq<Byte>, prefix: seq<Byte>): Option<seq<Byte>> {
    if prefix <= bytes then Some(bytes[|prefix|..]) else None
  }

  function ParseCwd(library: Library, payload: seq<Byte>): Option<seq<Byte>> {
    var rest := StripPrefix(payload, Ascii("file://"));
    if rest.None? || IndexOf(rest.value, SLASH) == |rest.value| then None
    else
      var path := Decoded(rest.value[IndexOf(rest.value, SLASH)..], 0);
      if path.Some? && library.isUtf8(path.value) then path else None
  }

  function ParseRuntimeStatus(payload: seq<Byte>): Option<Option<seq<Byte>>> {
    var state := StripPrefix(payload, Ascii("notify;yt-agent;"));
    if state.None? then None
    else if state.value == Ascii("working") || state.value == Ascii("idle") || state.value == Ascii("permission") then
      Some(state)
    else if state.value == Ascii("ended") then Some(None)
    else None
  }

  function ParseContent(library: Library, content: seq<Byte>): Option<OscUpdate> {
    var split := IndexOf(content, SEMICOLON);
    if split == |content| then None
    else
      var command, payload := content[..split], content[split + 1..];
      if command == Ascii("7") then
        var path := ParseCwd(library, payload);
        if path.Some? then Some(Cwd(path.value)) else None
      else if command == Ascii("0") || command == Ascii("2") then
        var title := library.sanitizeTitle(payload);
        if title != [] then Some(Title(title)) else None
      else if command == Ascii("777") then
        var status := ParseRuntimeStatus(payload);
        if status.Some? then Some(RuntimeStatus(status.value)) else None
      else
        None
  }

  /** What `push` makes of the bytes between introducer and terminator. */
  function MeaningOf(library: Library): Meaning {
    content => if library.isUtf8(content) then ParseContent(library, content) else None
  }

  // ---------------------------------------------------------------- a working directory arrives

  /** The sequence by which a shell on `host` reports a directory, its path encoded in some way. */
  function Report(host: seq<Byte>, encoded: seq<Byte>): seq<Byte> {
    Ascii("7;file://") + host + encoded
  }

  lemma SplitReport(host: seq<Byte>, encoded: seq<Byte>)
    ensures var content := Report(host, encoded);
            && IndexOf(content, SEMICOLON) == 1 && content[..1] == Ascii("7")
            && content[2..] == Ascii("file://") + (host + encoded)
  {
    var content := Report(host, encoded);
    assert "7;" + "file://" == "7;file://" && "7" + ";" == "7;";
    AsciiInTwo("7;", "file://");
    AsciiInTwo("7", ";");
    assert Ascii("7") == [0x37] && Ascii(";") == [SEMICOLON];
    Associative(Ascii("7;"), Ascii("file://"), host + encoded);
    Associative(Ascii("7;file://"), host, encoded);
    FirstSemicolon(content, Ascii("file://") + (host + encoded));
  }

  lemma FirstSemicolon(content: seq<Byte>, rest: seq<Byte>)
    requires content == [0x37, SEMICOLON] + rest
    ensures IndexOf(content, SEMICOLON) == 1 && content[..1] == [0x37] && content[2..] == rest
  {
    assert content[1..][0] == SEMICOLON;
  }

  lemma PayloadIsUnderstood(library: Library, host: seq<Byte>, encoded: seq<Byte>, path: seq<Byte>)
    requires SLASH !in host && encoded != [] && encoded[0] == SLASH && Encodes(encoded, path)
    requires library.isUtf8(path)
    ensures ParseCwd(library, Ascii("file://") + (host + encoded)) == Some(path)
  {
    var prefix, rest := Ascii("file://"), host + encoded;
    DecodesIffEncodes(encoded, path);
    HostEnds(host, encoded);
    assert rest[|host|..] == encoded;
    assert (prefix + rest)[|prefix|..] == rest && prefix <= prefix + rest;
  }

  /** Whatever encoding of the path was used, the report means that directory. */
  lemma ReportIsUnderstood(library: Library, host: seq<Byte>, encoded: seq<Byte>, path: seq<Byte>)
    requires SLASH !in host && encoded != [] && encoded[0] == SLASH && Encodes(encoded, path)
    requires library.isUtf8(path)
    ensures ParseContent(library, Report(host, encoded)) == Some(Cwd(path))
  {
    SplitReport(host, encoded);
    PayloadIsUnderstood(library, host, encoded, path);
  }

  lemma {:induction false} HostEnds(host: seq<Byte>, encoded: seq<Byte>)
    requires SLASH !in host && encoded != [] && encoded[0] == SLASH
    ensures IndexOf(host + encoded, SLASH) == |host|
    decreases |host|
  {
    if host == [] {
      assert host + encoded == encoded;
    } else {
      HostEnds(host[1..], encoded);
      assert (host + encoded)[0] == host[0] && (host + encoded)[1..] == host[1..] + encoded;
    }
  }

  // ---------------------------------------------------------------- exactly what is understood

  lemma FieldsOf(command: seq<Byte>, payload: seq<Byte>)
    requires SEMICOLON !in command
    ensures var content := command + [SEMICOLON] + payload;
            && IndexOf(content, SEMICOLON) == |command|
            && content[..|command|] == command && content[|command| + 1..] == payload
  {
    var content := command + [SEMICOLON] + payload;
    assert content[|command|] == SEMICOLON;
    assert forall k | 0 <= k < |command| :: content[k] == command[k] && command[k] in command;
  }

  lemma CommandsHaveNoSemicolon()
    ensures Ascii("7") == [0x37] && Ascii("0") == [0x30] && Ascii("2") == [0x32]
    ensures Ascii("777") == [0x37, 0x37, 0x37] && Ascii(";") == [SEMICOLON]
  {
    AsciiInTwo("7", "77");
    AsciiInTwo("7", "7");
    assert "7" + "77" == "777" && "7" + "7" == "77";
  }

  /** A payload under a command says this, in one of the forms that programs use. */
  ghost predicate Says(library: Library, command: seq<Byte>, payload: seq<Byte>, update: OscUpdate) {
    match update
    case Cwd(path) =>
      command == Ascii("7") && exists host, encoded :: SaysDirectory(library, payload, host, encoded, path)
    case Title(title) =>
      (command == Ascii("0") || command == Ascii("2")) && title != [] && library.sanitizeTitle(payload) == title
    case RuntimeStatus(status) => command == Ascii("777") && SaysStatus(payload, status)
  }

  ghost predicate SaysDirectory(library: Library, payload: seq<Byte>, host: seq<Byte>, encoded: seq<Byte>,
                                path: seq<Byte>)
  {
    && payload == Ascii("file://") + (host + encoded)
    && SLASH !in host && encoded != [] && encoded[0] == SLASH && Encodes(encoded, path) && library.isUtf8(path)
  }

  /** One of three words for a state, and a fourth one for none. */
  predicate SaysStatus(payload: seq<Byte>, status: Option<seq<Byte>>) {
    && (status.Some? ==> IsState(status.value))
    && payload == Ascii("notify;yt-agent;") + (if status.Some? then status.value else Ascii("ended"))
  }

  predicate IsState(state: seq<Byte>) {
    state == Ascii("working") || state == Ascii("idle") || state == Ascii("permission")
  }

  /** What a payload means under each command. */
  lemma CommandMeans(library: Library, command: seq<Byte>, payload: seq<Byte>)
    requires SEMICOLON !in command
    ensures var r := ParseContent(library, command + [SEMICOLON] + payload);
            && (command == Ascii("7") ==> r == if ParseCwd(library, payload).Some?
                                               then Some(Cwd(ParseCwd(library, payload).value)) else None)
            && (command == Ascii("0") || command == Ascii("2") ==>
                  var title := library.sanitizeTitle(payload);
                  r == if title != [] then Some(Title(title)) else None)
            && (command == Ascii("777") ==> r == if ParseRuntimeStatus(payload).Some?
                                                 then Some(RuntimeStatus(ParseRuntimeStatus(payload).value)) else None)
            && (command != Ascii("7") && command != Ascii("0") && command != Ascii("2") && command != Ascii("777") ==>
                  r.None?)
  {
    FieldsOf(command, payload);
    CommandsHaveNoSemicolon();
  }

  lemma StripPrefixIff(bytes: seq<Byte>, prefix: seq<Byte>, rest: seq<Byte>)
    ensures StripPrefix(bytes, prefix) == Some(rest) <==> bytes == prefix + rest
  {
  }

  lemma CwdIff(library: Library, payload: seq<Byte>, path: seq<Byte>)
    ensures ParseCwd(library, payload) == Some(path)
            <==> exists host, encoded :: SaysDirectory(library, payload, host, encoded, path)
  {
    if ParseCwd(library, payload) == Some(path) {
      var rest := StripPrefix(payload, Ascii("file://")).value;
      StripPrefixIff(payload, Ascii("file://"), rest);
      var i := IndexOf(rest, SLASH);
      DecodesIffEncodes(rest[i..], path);
      assert rest == rest[..i] + rest[i..];
      assert SaysDirectory(library, payload, rest[..i], rest[i..], path);
    }
    if exists host, encoded :: SaysDirectory(library, payload, host, encoded, path) {
      var host, encoded :| SaysDirectory(library, payload, host, encoded, path);
      PayloadIsUnderstood(library, host, encoded, path);
    }
  }

  lemma EndedIsNoState()
    ensures !IsState(Ascii("ended"))
  {
  }

  lemma StatusIff(payload: seq<Byte>, status: Option<seq<Byte>>)
    ensures ParseRuntimeStatus(payload) == Some(status) <==> SaysStatus(payload, status)
  {
    var word := if status.Some? then status.value else Ascii("ended");
    StripPrefixIff(payload, Ascii("notify;yt-agent;"), word);
    EndedIsNoState();
    var state := StripPrefix(payload, Ascii("notify;yt-agent;"));
    assert ParseRuntimeStatus(payload)
        == if state.None? then None
           else if IsState(state.value) then Some(state)
           else if state.value == Ascii("ended") then Some(None)
           else None;
  }

  lemma DirectoryIffSaid(library: Library, command: seq<Byte>, payload: seq<Byte>, path: seq<Byte>)
    requires SEMICOLON !in command
    ensures ParseContent(library, command + [SEMICOLON] + payload) == Some(Cwd(path))
            <==> Says(library, command, payload, Cwd(path))
  {
    CommandMeans(library, command, payload);
    CommandsHaveNoSemicolon();
    CwdIff(library, payload, path);
  }

  lemma TitleIffSaid(library: Library, command: seq<Byte>, payload: seq<Byte>, title: seq<Byte>)
    requires SEMICOLON !in command
    ensures ParseContent(library, command + [SEMICOLON] + payload) == Some(Title(title))
            <==> Says(library, command, payload, Title(title))
  {
    CommandMeans(library, command, payload);
    CommandsHaveNoSemicolon();
  }

  lemma StatusCommand(library: Library, command: seq<Byte>, payload: seq<Byte>, status: Option<seq<Byte>>)
    requires SEMICOLON !in command
    ensures ParseContent(library, command + [SEMICOLON] + payload) == Some(RuntimeStatus(status))
            <==> command == Ascii("777") && ParseRuntimeStatus(payload) == Some(status)
  {
    CommandMeans(library, command, payload);
    CommandsHaveNoSemicolon();
  }

  lemma StatusIffSaid(library: Library, command: seq<Byte>, payload: seq<Byte>, status: Option<seq<Byte>>)
    requires SEMICOLON !in command
    ensures ParseContent(library, command + [SEMICOLON] + payload) == Some(RuntimeStatus(status))
            <==> Says(library, command, payload, RuntimeStatus(status))
  {
    StatusCommand(library, command, payload, status);
    StatusIff(payload, status);
  }

  lemma CommandIffSays(library: Library, command: seq<Byte>, payload: seq<Byte>, update: OscUpdate)
    requires SEMICOLON !in command
    ensures ParseContent(library, command + [SEMICOLON] + payload) == Some(update)
            <==> Says(library, command, payload, update)
  {
    match update
    case Cwd(path) => DirectoryIffSaid(library, command, payload, path);
    case Title(title) => TitleIffSaid(library, command, payload, title);
    case RuntimeStatus(status) => StatusIffSaid(library, command, payload, status);
  }

  ghost predicate IsSaid(library: Library, content: seq<Byte>, command: seq<Byte>, payload: seq<Byte>,
                         update: OscUpdate)
  {
    SEMICOLON !in command && content == command + [SEMICOLON] + payload && Says(library, command, payload, update)
  }

  lemma HasSemicolon(library: Library, content: seq<Byte>)
    requires ParseContent(library, content).Some?
    ensures IndexOf(content, SEMICOLON) < |content|
  {
  }

  lemma InFields(content: seq<Byte>) returns (command: seq<Byte>, payload: seq<Byte>)
    requires IndexOf(content, SEMICOLON) < |content|
    ensures SEMICOLON !in command && content == command + [SEMICOLON] + payload
  {
    var split := IndexOf(content, SEMICOLON);
    command, payload := content[..split], content[split + 1..];
  }

  lemma FieldsSay(library: Library, content: seq<Byte>, command: seq<Byte>, payload: seq<Byte>, update: OscUpdate)
    requires SEMICOLON !in command && content == command + [SEMICOLON] + payload
    ensures ParseContent(library, content) == Some(update) <==> IsSaid(library, content, command, payload, update)
  {
    CommandIffSays(library, command, payload, update);
  }

  lemma UnderstoodIsSaid(library: Library, content: seq<Byte>, update: OscUpdate)
    returns (command: seq<Byte>, payload: seq<Byte>)
    requires ParseContent(library, content) == Some(update)
    ensures IsSaid(library, content, command, payload, update)
  {
    HasSemicolon(library, content);
    command, payload := InFields(content);
    FieldsSay(library, content, command, payload, update);
  }

  /** What a sequence means, if it is UTF-8: a command and a payload that say a directory, a title or a state
      in exactly these forms, and nothing else. */
  lemma UnderstoodIffSaid(library: Library, content: seq<Byte>, update: OscUpdate)
    ensures ParseContent(library, content) == Some(update)
            <==> exists command, payload :: IsSaid(library, content, command, payload, update)
  {
    if ParseContent(library, content) == Some(update) {
      var _, _ := UnderstoodIsSaid(library, content, update);
    }
    forall command, payload | IsSaid(library, content, command, payload, update)
      ensures ParseContent(library, content) == Some(update)
    {
      FieldsSay(library, content, command, payload, update);
    }
  }

  lemma {:induction false} CarryNotLonger(bytes: seq<Byte>, i: nat, mode: Mode)
    requires i <= |bytes| && (mode.Inside? ==> mode.start + 2 <= i)
    ensures |Carry(bytes, i, mode)| <= |bytes|
    decreases |bytes| - i
  {
    if i < |bytes| {
      if mode.Outside? && IntroducerAt(bytes, i) {
        CarryNotLonger(bytes, i + 2, Inside(i));
      } else if mode.Outside? || TerminatorAt(bytes, i) == 0 {
        CarryNotLonger(bytes, i + 1, mode);
      } else {
        CarryNotLonger(bytes, i + TerminatorAt(bytes, i), Outside);
      }
    }
  }

  lemma {:induction false} FlatPrefix(chunks: seq<seq<Byte>>, i: nat)
    requires i <= |chunks|
    ensures |Flat(chunks[..i])| <= |Flat(chunks)|
    decreases |chunks|
  {
    if i > 0 {
      FlatFirst(chunks, i - 1);
      FlatPrefix(chunks[1..], i - 1);
    }
  }

  lemma ShortStreamsFit(chunks: seq<seq<Byte>>)
    requires |Flat(chunks)| <= MAX_PENDING_BYTES
    ensures CarryFits([], chunks)
  {
    forall i | 0 < i <= |chunks| ensures |Carry([] + Flat(chunks[..i]), 0, Outside)| <= MAX_PENDING_BYTES {
      FlatPrefix(chunks, i);
      CarryNotLonger([] + Flat(chunks[..i]), 0, Outside);
    }
  }

  /** A short sequence is understood once, however the terminal cut it into chunks. */
  lemma SequenceArrives(meaning: Meaning, content: seq<Byte>, end: seq<Byte>, chunks: seq<seq<Byte>>)
    requires ESC !in content && BEL !in content && (end == [BEL] || end == [ESC, BACKSLASH])
    requires Flat(chunks) == [ESC, BRACKET] + content + end && |content| + 2 + |end| <= MAX_PENDING_BYTES
    ensures Reported(meaning, [], chunks) == Understood(meaning, content)
  {
    ShortStreamsFit(chunks);
    ChunksDoNotMatter(meaning, chunks);
    WholeIsMet(content, end);
    MeantOne(meaning, content);
  }

  /** From the shell to the agent: a reported directory arrives as that directory, once, however its path
      was encoded, ended and cut into chunks. */
  lemma DirectoryArrives(library: Library, host: seq<Byte>, encoded: seq<Byte>, path: seq<Byte>,
                         end: seq<Byte>, chunks: seq<seq<Byte>>)
    requires SLASH !in host && encoded != [] && encoded[0] == SLASH && Encodes(encoded, path)
    requires library.isUtf8(path) && library.isUtf8(Report(host, encoded))
    requires ESC !in Report(host, encoded) && BEL !in Report(host, encoded)
    requires end == [BEL] || end == [ESC, BACKSLASH]
    requires Flat(chunks) == [ESC, BRACKET] + Report(host, encoded) + end
    requires |Report(host, encoded)| + 2 + |end| <= MAX_PENDING_BYTES
    ensures Reported(MeaningOf(library), [], chunks) == [Cwd(path)]
  {
    SequenceArrives(MeaningOf(library), Report(host, encoded), end, chunks);
    ReportIsUnderstood(library, host, encoded, path);
  }

  /** Every directory can be reported: the encoding that escapes every byte but slashes. */
  function Escaped(path: seq<Byte>): seq<Byte> {
    if path == [] then []
    else
      (if path[0] == SLASH then [SLASH] else [PERCENT, Digit(path[0] / 16), Digit(path[0] % 16)]) + Escaped(path[1..])
  }

  function Digit(value: nat): (digit: Byte)
    requires value < 16
    ensures Hex(digit) == Some(value)
  {
    if value < 10 then 0x30 + value else 0x41 + value - 10
  }

  lemma {:induction false} EscapedEncodes(path: seq<Byte>)
    ensures Encodes(Escaped(path), path)
    ensures Decoded(Escaped(path), 0) == Some(path)
    decreases |path|
  {
    if path != [] {
      EscapedEncodes(path[1..]);
      var encoded := Escaped(path);
      assert encoded[if path[0] == SLASH then 1 else 3..] == Escaped(path[1..]);
    }
    DecodesIffEncodes(Escaped(path), path);
  }
}
