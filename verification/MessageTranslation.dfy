/** Chat messages between the OpenAI and the Anthropic shapes (src-tauri/src/main.rs); parsing and
    printing JSON are parameters. */
module MessageTranslation {
  import opened Common

  datatype Json =
    | Null
    | Bool(value: bool)
    | Number(number: real)
    | Str(text: string)
    | Arr(items: seq<Json>)
    | Obj(fields: map<string, Json>)

  /** Parsing text and printing values, as the JSON library does. */
  datatype Codec = Codec(parse: string -> Option<Json>, format: Json -> string)

  /** A printed value parses to itself. */
  ghost predicate Lawful(codec: Codec) {
    forall value :: codec.parse(codec.format(value)) == Some(value)
  }

  const EMPTY: Json := Obj(map[])

  // ---------------------------------------------------------------- access

  function Get(value: Json, key: string): Option<Json> {
    if value.Obj? && key in value.fields then Some(value.fields[key]) else None
  }

  function AsStr(value: Option<Json>): Option<string> {
    if value.Some? && value.value.Str? then Some(value.value.text) else None
  }

  function AsArray(value: Option<Json>): Option<seq<Json>> {
    if value.Some? && value.value.Arr? then Some(value.value.items) else None
  }

  /** A string field, or a default. */
  function StrOr(value: Json, key: string, otherwise: string): string {
    var text := AsStr(Get(value, key));
    if text.Some? then text.value else otherwise
  }

  // ---------------------------------------------------------------- one message

  function ToolResult(m: Json): Json {
    Obj(map["type" := Str("tool_result"), "tool_use_id" := Str(StrOr(m, "tool_call_id", "")),
            "content" := Str(StrOr(m, "content", ""))])
  }

  function TextBlock(text: string): Json {
    Obj(map["type" := Str("text"), "text" := Str(text)])
  }

  function Arguments(call: Json): string {
    var func := Get(call, "function");
    if func.Some? then StrOr(func.value, "arguments", "{}") else "{}"
  }

  function CallName(call: Json): string {
    var func := Get(call, "function");
    if func.Some? then StrOr(func.value, "name", "") else ""
  }

  function ParsedOr(codec: Codec, text: string): Json {
    var value := codec.parse(text);
    if value.Some? then value.value else EMPTY
  }

  function ToolUse(codec: Codec, call: Json): Json {
    Obj(map["type" := Str("tool_use"), "id" := Str(StrOr(call, "id", "")), "name" := Str(CallName(call)),
            "input" := ParsedOr(codec, Arguments(call))])
  }

  function ToolUses(codec: Codec, calls: seq<Json>): seq<Json> {
    if calls == [] then [] else ToolUses(codec, calls[..|calls| - 1]) + [ToolUse(codec, calls[|calls| - 1])]
  }

  function Calls(m: Json): seq<Json> {
    var calls := AsArray(Get(m, "tool_calls"));
    if calls.Some? then calls.value else []
  }

  /** The text and the tool uses of an assistant turn. */
  function AssistantBlocks(codec: Codec, m: Json): seq<Json> {
    var text := StrOr(m, "content", "");
    (if text != "" then [TextBlock(text)] else []) + ToolUses(codec, Calls(m))
  }

  function Message(role: string, content: Json): Json {
    Obj(map["role" := Str(role), "content" := content])
  }

  function UserContent(m: Json): Json {
    var content := Get(m, "content");
    if content.Some? then content.value else Str("")
  }

  // ---------------------------------------------------------------- all messages

  predicate TakesResults(m: Json) {
    AsStr(Get(m, "role")) == Some("user") && AsArray(Get(m, "content")).Some?
  }

  /** A tool result joins the user message before it, if that one holds a list of blocks. */
  function WithResult(out: seq<Json>, block: Json): seq<Json> {
    if out != [] && TakesResults(out[|out| - 1]) then
      var last := out[|out| - 1];
      out[..|out| - 1] + [Obj(last.fields["content" := Arr(last.fields["content"].items + [block])])]
    else
      out + [Message("user", Arr([block]))]
  }

  function Step(codec: Codec, out: seq<Json>, m: Json): seq<Json> {
    var role := StrOr(m, "role", "");
    if role == "system" then out
    else if role == "tool" then WithResult(out, ToolResult(m))
    else if role == "assistant" then out + [Message("assistant", Arr(AssistantBlocks(codec, m)))]
    else out + [Message("user", UserContent(m))]
  }

  function Translated(codec: Codec, messages: seq<Json>): seq<Json> {
    if messages == [] then []
    else Step(codec, Translated(codec, messages[..|messages| - 1]), messages[|messages| - 1])
  }

  function SystemStep(system: string, m: Json): string {
    var text := AsStr(Get(m, "content"));
    if StrOr(m, "role", "") != "system" || text.None? then system
    else (if system != "" then system + "\n\n" else system) + text.value
  }

  function SystemOf(messages: seq<Json>): string {
    if messages == [] then "" else SystemStep(SystemOf(messages[..|messages| - 1]), messages[|messages| - 1])
  }

  method AnthropicFromOpenaiMessages(codec: Codec, messages: Json) returns (system: string, out: seq<Json>)
    ensures messages.Arr? ==> system == SystemOf(messages.items) && out == Translated(codec, messages.items)
    ensures !messages.Arr? ==> system == "" && out == []
  {
    system, out := "", [];
    if !messages.Arr? {
      return;
    }
    var arr := messages.items;
    for i := 0 to |arr|
      invariant system == SystemOf(arr[..i]) && out == Translated(codec, arr[..i])
    {
      assert arr[..i + 1][..i] == arr[..i];
      var m := arr[i];
      var role := StrOr(m, "role", "");
      if role == "system" {
        var text := AsStr(Get(m, "content"));
        if text.Some? {
          if system != "" {
            system := system + "\n\n";
          }
          system := system + text.value;
        }
      } else if role == "tool" {
        out := PushResult(out, ToolResult(m));
      } else if role == "assistant" {
        var blocks := BuildBlocks(codec, m);
        out := out + [Message("assistant", Arr(blocks))];
      } else {
        out := out + [Message("user", UserContent(m))];
      }
    }
    assert arr[..|arr|] == arr;
  }

  method PushResult(messages: seq<Json>, block: Json) returns (out: seq<Json>)
    ensures out == WithResult(messages, block)
  {
    out := messages;
    if out != [] && TakesResults(out[|out| - 1]) {
      var last := out[|out| - 1];
      out := out[|out| - 1 := Obj(last.fields["content" := Arr(last.fields["content"].items + [block])])];
    } else {
      out := out + [Message("user", Arr([block]))];
    }
  }

  method BuildBlocks(codec: Codec, m: Json) returns (blocks: seq<Json>)
    ensures blocks == AssistantBlocks(codec, m)
  {
    blocks := [];
    var text := AsStr(Get(m, "content"));
    if text.Some? && text.value != "" {
      blocks := [TextBlock(text.value)];
    }
    ghost var first := blocks;
    var calls := AsArray(Get(m, "tool_calls"));
    if calls.Some? {
      for k := 0 to |calls.value|
        invariant blocks == first + ToolUses(codec, calls.value[..k])
      {
        assert calls.value[..k + 1][..k] == calls.value[..k];
        blocks := blocks + [ToolUse(codec, calls.value[k])];
      }
      assert calls.value[..|calls.value|] == calls.value;
    }
  }

  // ---------------------------------------------------------------- nothing is lost or reordered

  datatype Call = Call(id: string, name: string, input: Json)

  /** What messages say, one item after the other: what an assistant says and calls, what a user says, a
      part of what a user says, or the result of a tool. */
  datatype Item =
    | Assistant(text: string, calls: seq<Call>)
    | User(content: Json)
    | Part(part: Json)
    | Answer(id: string, text: string)

  /** Reading the blocks of an Anthropic message. */
  function ItemOf(block: Json): Item {
    if AsStr(Get(block, "type")) == Some("tool_result") then
      Answer(StrOr(block, "tool_use_id", ""), StrOr(block, "content", ""))
    else
      Part(block)
  }

  function ItemsOfBlocks(blocks: seq<Json>): seq<Item> {
    if blocks == [] then [] else ItemsOfBlocks(blocks[..|blocks| - 1]) + [ItemOf(blocks[|blocks| - 1])]
  }

  function BlockText(block: Json): string {
    if AsStr(Get(block, "type")) == Some("text") then StrOr(block, "text", "") else ""
  }

  function TextOf(blocks: seq<Json>): string {
    if blocks == [] then "" else TextOf(blocks[..|blocks| - 1]) + BlockText(blocks[|blocks| - 1])
  }

  function CallOf(block: Json): seq<Call> {
    if AsStr(Get(block, "type")) == Some("tool_use") && Get(block, "input").Some? then
      [Call(StrOr(block, "id", ""), StrOr(block, "name", ""), Get(block, "input").value)]
    else
      []
  }

  function CallsIn(blocks: seq<Json>): seq<Call> {
    if blocks == [] then [] else CallsIn(blocks[..|blocks| - 1]) + CallOf(blocks[|blocks| - 1])
  }

  function ItemsOf(message: Json): seq<Item> {
    var content, role := UserContent(message), StrOr(message, "role", "");
    if role == "user" then if content.Arr? then ItemsOfBlocks(content.items) else [User(content)]
    else if role == "assistant" && content.Arr? then [Assistant(TextOf(content.items), CallsIn(content.items))]
    else []
  }

  function Flattened(out: seq<Json>): seq<Item> {
    if out == [] then [] else Flattened(out[..|out| - 1]) + ItemsOf(out[|out| - 1])
  }

  /** Arguments that do not parse mean an empty object. */
  function Meant(parsed: Option<Json>): Json {
    match parsed
    case Some(value) => value
    case None => Obj(map[])
  }

  /** What one original message says. */
  function WantedCalls(codec: Codec, calls: seq<Json>): seq<Call> {
    if calls == [] then []
    else
      var call := calls[|calls| - 1];
      WantedCalls(codec, calls[..|calls| - 1])
      + [Call(StrOr(call, "id", ""), CallName(call), Meant(codec.parse(Arguments(call))))]
  }

  function Said(codec: Codec, m: Json): seq<Item> {
    var role := StrOr(m, "role", "");
    if role == "system" then []
    else if role == "tool" then [Answer(StrOr(m, "tool_call_id", ""), StrOr(m, "content", ""))]
    else if role == "assistant" then [Assistant(StrOr(m, "content", ""), WantedCalls(codec, Calls(m)))]
    else
      match Get(m, "content")
      case None => [User(Str(""))]
      case Some(content) => if content.Arr? then ItemsOfBlocks(content.items) else [User(content)]
  }

  function SaidAll(codec: Codec, messages: seq<Json>): seq<Item> {
    if messages == [] then []
    else SaidAll(codec, messages[..|messages| - 1]) + Said(codec, messages[|messages| - 1])
  }

  lemma OneMoreMessage(out: seq<Json>, message: Json)
    ensures Flattened(out + [message]) == Flattened(out) + ItemsOf(message)
  {
    assert (out + [message])[..|out|] == out;
  }

  lemma OneMoreBlock(blocks: seq<Json>, block: Json)
    ensures ItemsOfBlocks(blocks + [block]) == ItemsOfBlocks(blocks) + [ItemOf(block)]
  {
    assert (blocks + [block])[..|blocks|] == blocks;
  }

  lemma ResultIsRead(m: Json)
    ensures ItemOf(ToolResult(m)) == Answer(StrOr(m, "tool_call_id", ""), StrOr(m, "content", ""))
  {
    var block := ToolResult(m);
    assert AsStr(Get(block, "type")) == Some("tool_result");
    assert AsStr(Get(block, "tool_use_id")) == Some(StrOr(m, "tool_call_id", ""));
    assert AsStr(Get(block, "content")) == Some(StrOr(m, "content", ""));
  }

  lemma JoinedResult(last: Json, block: Json)
    requires TakesResults(last)
    ensures var joined := Obj(last.fields["content" := Arr(last.fields["content"].items + [block])]);
            ItemsOf(joined) == ItemsOf(last) + [ItemOf(block)]
  {
    OneMoreBlock(last.fields["content"].items, block);
  }

  lemma NewResult(out: seq<Json>, block: Json)
    ensures Flattened(out + [Message("user", Arr([block]))]) == Flattened(out) + [ItemOf(block)]
  {
    OneMoreMessage(out, Message("user", Arr([block])));
    OneMoreBlock([], block);
    assert [] + [block] == [block];
  }

  lemma ResultIsAppended(out: seq<Json>, block: Json)
    ensures Flattened(WithResult(out, block)) == Flattened(out) + [ItemOf(block)]
  {
    if out != [] && TakesResults(out[|out| - 1]) {
      var before, last := out[..|out| - 1], out[|out| - 1];
      var joined := Obj(last.fields["content" := Arr(last.fields["content"].items + [block])]);
      OneMoreMessage(before, joined);
      JoinedResult(last, block);
      assert WithResult(out, block) == before + [joined];
      assert Flattened(out) == Flattened(before) + ItemsOf(last);
      Associative(Flattened(before), ItemsOf(last), [ItemOf(block)]);
    } else {
      NewResult(out, block);
    }
  }

  lemma UserIsAppended(out: seq<Json>, content: Json)
    ensures Flattened(out + [Message("user", content)])
            == Flattened(out) + if content.Arr? then ItemsOfBlocks(content.items) else [User(content)]
  {
    OneMoreMessage(out, Message("user", content));
  }

  lemma AssistantIsAppended(codec: Codec, out: seq<Json>, m: Json)
    ensures Flattened(out + [Message("assistant", Arr(AssistantBlocks(codec, m)))])
            == Flattened(out) + [Assistant(StrOr(m, "content", ""), WantedCalls(codec, Calls(m)))]
  {
    var blocks := AssistantBlocks(codec, m);
    OneMoreMessage(out, Message("assistant", Arr(blocks)));
    BlocksAreRead(codec, m);
    assert ItemsOf(Message("assistant", Arr(blocks))) == [Assistant(TextOf(blocks), CallsIn(blocks))];
  }

  lemma StepSays(codec: Codec, out: seq<Json>, m: Json)
    ensures Flattened(Step(codec, out, m)) == Flattened(out) + Said(codec, m)
  {
    var role := StrOr(m, "role", "");
    if role == "system" {
      assert Flattened(out) + [] == Flattened(out);
    } else if role == "tool" {
      ResultIsAppended(out, ToolResult(m));
      ResultIsRead(m);
    } else if role == "assistant" {
      AssistantIsAppended(codec, out, m);
    } else {
      UserIsAppended(out, UserContent(m));
    }
  }

  /** Flattening the translated messages gives every turn and every tool result of the original that is
      not a system message, in order, each with its text, its ids and its calls. */
  lemma {:induction false} NothingLostOrReordered(codec: Codec, messages: seq<Json>)
    ensures Flattened(Translated(codec, messages)) == SaidAll(codec, messages)
    decreases |messages|
  {
    if messages != [] {
      var n := |messages| - 1;
      NothingLostOrReordered(codec, messages[..n]);
      StepSays(codec, Translated(codec, messages[..n]), messages[n]);
    }
  }

  /** A content that survives in a tool result or an assistant turn. */
  predicate IsText(content: Json) {
    content.Str? && content.text != ""
  }

  function WithContent(fields: map<string, Json>, content: Json): Json {
    Obj(fields["content" := content])
  }

  lemma SameButContent(codec: Codec, fields: map<string, Json>, a: Json, b: Json)
    requires "role" in fields && fields["role"] in {Str("tool"), Str("assistant")}
    ensures Said(codec, WithContent(fields, a)) == Said(codec, WithContent(fields, b))
            <==> a == b || (!IsText(a) && !IsText(b))
  {
    var m, n := WithContent(fields, a), WithContent(fields, b);
    assert StrOr(m, "role", "") == StrOr(n, "role", "") && Calls(m) == Calls(n);
    assert StrOr(m, "tool_call_id", "") == StrOr(n, "tool_call_id", "");
    assert StrOr(m, "content", "") == if a.Str? then a.text else "";
    assert StrOr(n, "content", "") == if b.Str? then b.text else "";
  }

  /** In tool results and assistant turns only text is kept: two contents of one message are told apart in
      the translation if and only if they differ and one of them is a string that is not empty.  A list of
      parts is lost. */
  lemma ContentIsKeptIff(codec: Codec, out: seq<Json>, fields: map<string, Json>, a: Json, b: Json)
    requires "role" in fields && fields["role"] in {Str("tool"), Str("assistant")}
    ensures Flattened(Step(codec, out, WithContent(fields, a))) != Flattened(Step(codec, out, WithContent(fields, b)))
            <==> a != b && (IsText(a) || IsText(b))
  {
    var m, n := WithContent(fields, a), WithContent(fields, b);
    StepSays(codec, out, m);
    StepSays(codec, out, n);
    SameButContent(codec, fields, a, b);
    SamePrefix(Flattened(out), Said(codec, m), Said(codec, n));
  }

  lemma SamePrefix(prefix: seq<Item>, a: seq<Item>, b: seq<Item>)
    ensures prefix + a == prefix + b <==> a == b
  {
    assert (prefix + a)[|prefix|..] == a && (prefix + b)[|prefix|..] == b;
  }

  // ---------------------------------------------------------------- reading an assistant's blocks

  lemma TextOneMore(blocks: seq<Json>, block: Json)
    ensures TextOf(blocks + [block]) == TextOf(blocks) + BlockText(block)
  {
    assert (blocks + [block])[..|blocks|] == blocks;
  }

  lemma CallsInOneMore(blocks: seq<Json>, block: Json)
    ensures CallsIn(blocks + [block]) == CallsIn(blocks) + CallOf(block)
  {
    assert (blocks + [block])[..|blocks|] == blocks;
  }

  lemma ToolUseIsRead(codec: Codec, call: Json)
    ensures BlockText(ToolUse(codec, call)) == ""
    ensures CallOf(ToolUse(codec, call))
            == [Call(StrOr(call, "id", ""), CallName(call), ParsedOr(codec, Arguments(call)))]
  {
    assert "tool_use" != "text";
  }

  lemma LastToolUse(codec: Codec, first: seq<Json>, calls: seq<Json>)
    requires calls != []
    ensures first + ToolUses(codec, calls)
            == first + ToolUses(codec, calls[..|calls| - 1]) + [ToolUse(codec, calls[|calls| - 1])]
  {
  }

  lemma {:induction false} ToolUsesAreRead(codec: Codec, first: seq<Json>, calls: seq<Json>)
    ensures TextOf(first + ToolUses(codec, calls)) == TextOf(first)
    ensures CallsIn(first) == [] ==> CallsIn(first + ToolUses(codec, calls)) == WantedCalls(codec, calls)
    decreases |calls|
  {
    if calls == [] {
      assert first + [] == first;
    } else {
      var n := |calls| - 1;
      ToolUsesAreRead(codec, first, calls[..n]);
      TextOneMore(first + ToolUses(codec, calls[..n]), ToolUse(codec, calls[n]));
      CallsInOneMore(first + ToolUses(codec, calls[..n]), ToolUse(codec, calls[n]));
      LastToolUse(codec, first, calls);
      ToolUseIsRead(codec, calls[n]);
    }
  }

  lemma FirstBlockIsRead(text: string)
    ensures var first := if text != "" then [TextBlock(text)] else [];
            TextOf(first) == text && CallsIn(first) == []
  {
    if text != "" {
      TextOneMore([], TextBlock(text));
      CallsInOneMore([], TextBlock(text));
      assert [] + [TextBlock(text)] == [TextBlock(text)];
    }
  }

  lemma BlocksAreRead(codec: Codec, m: Json)
    ensures TextOf(AssistantBlocks(codec, m)) == StrOr(m, "content", "")
    ensures CallsIn(AssistantBlocks(codec, m)) == WantedCalls(codec, Calls(m))
  {
    var text := StrOr(m, "content", "");
    FirstBlockIsRead(text);
    ToolUsesAreRead(codec, if text != "" then [TextBlock(text)] else [], Calls(m));
  }

  /** Consecutive tool results share one user message. */
  lemma ResultsAreMerged(codec: Codec, messages: seq<Json>, first: Json, second: Json)
    requires StrOr(first, "role", "") == "tool" && StrOr(second, "role", "") == "tool"
    ensures |Translated(codec, messages + [first, second])| == |Translated(codec, messages + [first])|
  {
    var one, two := messages + [first], messages + [first, second];
    assert one[..|messages|] == messages && two[..|messages| + 1] == one && two[|messages| + 1] == second;
    assert TakesResults(Translated(codec, one)[|Translated(codec, one)| - 1]);
  }

  // ---------------------------------------------------------------- the system prompt

  /** The texts of the system messages. */
  function SystemTexts(messages: seq<Json>): seq<string> {
    if messages == [] then []
    else
      var m := messages[|messages| - 1];
      var text := AsStr(Get(m, "content"));
      SystemTexts(messages[..|messages| - 1])
      + if StrOr(m, "role", "") == "system" && text.Some? then [text.value] else []
  }

  function Paragraphs(texts: seq<string>): string {
    if texts == [] then ""
    else if |texts| == 1 then texts[0]
    else Paragraphs(texts[..|texts| - 1]) + "\n\n" + texts[|texts| - 1]
  }

  lemma ParagraphAdded(texts: seq<string>, text: string)
    ensures Paragraphs(texts + [text]) == if texts == [] then text else Paragraphs(texts) + "\n\n" + text
  {
    assert (texts + [text])[..|texts|] == texts;
  }

  /** Without the empty texts at the front. */
  function Trimmed(texts: seq<string>): seq<string> {
    if texts == [] || texts[0] != "" then texts else Trimmed(texts[1..])
  }

  lemma {:induction false} TrimmedAdded(texts: seq<string>, text: string)
    ensures Trimmed(texts + [text])
            == if Trimmed(texts) != [] then Trimmed(texts) + [text] else if text == "" then [] else [text]
    decreases |texts|
  {
    if texts == [] {
      assert [] + [text] == [text] && [text][1..] == [];
    } else if texts[0] == "" {
      TrimmedAdded(texts[1..], text);
      assert (texts + [text])[1..] == texts[1..] + [text];
    }
  }

  /** The system prompt is the system messages' texts as paragraphs, after those at the front that are empty. */
  lemma {:induction false} SystemIsParagraphs(messages: seq<Json>)
    ensures SystemOf(messages) == Paragraphs(Trimmed(SystemTexts(messages)))
    ensures SystemOf(messages) == "" <==> Trimmed(SystemTexts(messages)) == []
    decreases |messages|
  {
    if messages != [] {
      SystemIsParagraphs(messages[..|messages| - 1]);
      OneMoreSystemText(messages);
    }
  }

  lemma ParagraphIsStep(texts: seq<string>, text: string)
    ensures var before, after := Paragraphs(Trimmed(texts)), Paragraphs(Trimmed(texts + [text]));
            (before == "" <==> Trimmed(texts) == []) ==>
              && after == (if before != "" then before + "\n\n" else before) + text
              && (after == "" <==> Trimmed(texts + [text]) == [])
  {
    TrimmedAdded(texts, text);
    ParagraphAdded(Trimmed(texts), text);
  }

  lemma OneMoreSystemText(messages: seq<Json>)
    requires messages != []
    requires var before := messages[..|messages| - 1];
             && SystemOf(before) == Paragraphs(Trimmed(SystemTexts(before)))
             && (SystemOf(before) == "" <==> Trimmed(SystemTexts(before)) == [])
    ensures SystemOf(messages) == Paragraphs(Trimmed(SystemTexts(messages)))
    ensures SystemOf(messages) == "" <==> Trimmed(SystemTexts(messages)) == []
  {
    var n := |messages| - 1;
    var before, text := SystemTexts(messages[..n]), AsStr(Get(messages[n], "content"));
    if StrOr(messages[n], "role", "") == "system" && text.Some? {
      ParagraphIsStep(before, text.value);
      assert SystemTexts(messages) == before + [text.value];
    } else {
      assert SystemTexts(messages) == before;
    }
  }

  // ---------------------------------------------------------------- and back

  function OpenaiCall(codec: Codec, block: Json): Json {
    var input := Get(block, "input");
    Obj(map["id" := Str(StrOr(block, "id", "")), "type" := Str("function"),
            "function" := Obj(map["name" := Str(StrOr(block, "name", "")),
                                  "arguments" := Str(codec.format(if input.Some? then input.value else EMPTY))])])
  }

  function BlockCall(codec: Codec, block: Json): seq<Json> {
    if AsStr(Get(block, "type")) == Some("tool_use") then [OpenaiCall(codec, block)] else []
  }

  function CallsOf(codec: Codec, blocks: seq<Json>): seq<Json> {
    if blocks == [] then []
    else CallsOf(codec, blocks[..|blocks| - 1]) + BlockCall(codec, blocks[|blocks| - 1])
  }

  function OpenaiMessage(text: string, calls: seq<Json>): Json {
    var content := if text == "" then Null else Str(text);
    if calls == [] then Obj(map["role" := Str("assistant"), "content" := content])
    else Obj(map["role" := Str("assistant"), "content" := content, "tool_calls" := Arr(calls)])
  }

  method AnthropicResponseToOpenaiMessage(codec: Codec, resp: Json) returns (message: Json)
    ensures var content := AsArray(Get(resp, "content"));
            var blocks := if content.Some? then content.value else [];
            message == OpenaiMessage(TextOf(blocks), CallsOf(codec, blocks))
  {
    var text, calls := "", [];
    var content := AsArray(Get(resp, "content"));
    if content.Some? {
      var arr := content.value;
      for i := 0 to |arr|
        invariant text == TextOf(arr[..i]) && calls == CallsOf(codec, arr[..i])
      {
        assert arr[..i + 1][..i] == arr[..i];
        var block := arr[i];
        var kind := AsStr(Get(block, "type"));
        if kind == Some("text") {
          var t := AsStr(Get(block, "text"));
          if t.Some? {
            text := text + t.value;
          }
        } else if kind == Some("tool_use") {
          calls := calls + [OpenaiCall(codec, block)];
        }
      }
      assert arr[..|arr|] == arr;
    }
    var fields := map["role" := Str("assistant")];
    fields := fields["content" := if text == "" then Null else Str(text)];
    if calls != [] {
      fields := fields["tool_calls" := Arr(calls)];
    }
    message := Obj(fields);
    assert message == OpenaiMessage(text, calls);
  }

  lemma CallsOneMore(codec: Codec, blocks: seq<Json>, block: Json)
    ensures CallsOf(codec, blocks + [block]) == CallsOf(codec, blocks) + BlockCall(codec, block)
  {
    assert (blocks + [block])[..|blocks|] == blocks;
  }

  function Back(codec: Codec, calls: seq<Json>): seq<Json> {
    seq(|calls|, k requires 0 <= k < |calls| => OpenaiCall(codec, ToolUse(codec, calls[k])))
  }

  lemma LastBack(codec: Codec, calls: seq<Json>)
    requires calls != []
    ensures Back(codec, calls)
            == Back(codec, calls[..|calls| - 1]) + [OpenaiCall(codec, ToolUse(codec, calls[|calls| - 1]))]
  {
  }

  lemma ToolUseComesBack(codec: Codec, call: Json)
    ensures BlockCall(codec, ToolUse(codec, call)) == [OpenaiCall(codec, ToolUse(codec, call))]
  {
  }

  lemma {:induction false} EveryCallComesBack(codec: Codec, first: seq<Json>, calls: seq<Json>)
    requires CallsOf(codec, first) == []
    ensures CallsOf(codec, first + ToolUses(codec, calls)) == Back(codec, calls)
    decreases |calls|
  {
    if calls == [] {
      assert first + [] == first;
    } else {
      var n := |calls| - 1;
      EveryCallComesBack(codec, first, calls[..n]);
      CallsOneMore(codec, first + ToolUses(codec, calls[..n]), ToolUse(codec, calls[n]));
      LastToolUse(codec, first, calls);
      LastBack(codec, calls);
      ToolUseComesBack(codec, calls[n]);
    }
  }

  /** The assistant's turn after going to the Anthropic shape and back. */
  function ThereAndBack(codec: Codec, m: Json): Json {
    var blocks := AssistantBlocks(codec, m);
    OpenaiMessage(TextOf(blocks), CallsOf(codec, blocks))
  }

  /** An assistant turn comes back with its text and its tool calls in order, each with its id, its name
      and, as a JSON value, its arguments; arguments that do not parse come back as an empty object. */
  lemma AssistantRoundTrip(codec: Codec, m: Json)
    requires Lawful(codec)
    ensures var r := ThereAndBack(codec, m);
            && StrOr(r, "role", "") == "assistant"
            && StrOr(r, "content", "") == StrOr(m, "content", "")
            && (Get(r, "content") == Some(Null) <==> StrOr(m, "content", "") == "")
            && |Calls(r)| == |Calls(m)| && (Get(r, "tool_calls").None? <==> Calls(m) == [])
            && forall k | 0 <= k < |Calls(m)| :: SameCall(codec, Calls(m)[k], Calls(r)[k])
  {
    BackBlocks(codec, m);
    OpenaiMessageHolds(StrOr(m, "content", ""), Back(codec, Calls(m)));
    forall k | 0 <= k < |Calls(m)| ensures SameCall(codec, Calls(m)[k], Back(codec, Calls(m))[k]) {
      CallRoundTrip(codec, Calls(m)[k]);
    }
  }

  lemma BackBlocks(codec: Codec, m: Json)
    ensures ThereAndBack(codec, m) == OpenaiMessage(StrOr(m, "content", ""), Back(codec, Calls(m)))
  {
    var text := StrOr(m, "content", "");
    var first := if text != "" then [TextBlock(text)] else [];
    BlocksAreRead(codec, m);
    FirstMakesNoCall(codec, text);
    EveryCallComesBack(codec, first, Calls(m));
  }

  lemma FirstMakesNoCall(codec: Codec, text: string)
    ensures CallsOf(codec, if text != "" then [TextBlock(text)] else []) == []
  {
    if text != "" {
      CallsOneMore(codec, [], TextBlock(text));
      assert [] + [TextBlock(text)] == [TextBlock(text)];
    }
  }

  lemma OpenaiMessageHolds(text: string, calls: seq<Json>)
    ensures var r := OpenaiMessage(text, calls);
            && StrOr(r, "role", "") == "assistant" && StrOr(r, "content", "") == text && Calls(r) == calls
            && (Get(r, "content") == Some(Null) <==> text == "") && (Get(r, "tool_calls").None? <==> calls == [])
  {
  }

  predicate SameCall(codec: Codec, call: Json, back: Json) {
    && StrOr(back, "id", "") == StrOr(call, "id", "") && CallName(back) == CallName(call)
    && StrOr(back, "type", "") == "function"
    && codec.parse(Arguments(back)) == Some(Meant(codec.parse(Arguments(call))))
  }

  lemma CallRoundTrip(codec: Codec, call: Json)
    requires Lawful(codec)
    ensures SameCall(codec, call, OpenaiCall(codec, ToolUse(codec, call)))
  {
    var input := ParsedOr(codec, Arguments(call));
    assert Arguments(OpenaiCall(codec, ToolUse(codec, call))) == codec.format(input);
  }
}
