/** Two encodings of a step transcript: the OpenAI-compatible one (`src/brains/openai-wire.ts`)
    and the Anthropic one (`src/brains/anthropic-wire.ts`). */
module StepWire {
  import opened Contract
  import opened Selections
  import opened Transcript
  import T = Text

  datatype Tool = Tool(name: string, description: string, parameters: string)

  datatype WireMessage =
    | System(content: string)
    | User(content: string)
    | AssistantTurn(content: string, toolCalls: Option<seq<ToolCall>>)
    | Tooled(toolCallId: string, content: string)

  datatype StepRequest = StepRequest(messages: seq<WireMessage>, tools: Option<seq<Tool>>, jsonObject: bool)

  predicate CallsTools(m: StepMessage) {
    m.Assistant? && m.toolCalls.Some? && m.toolCalls.value != []
  }

  function CallsText(calls: seq<ToolCall>): string {
    T.Join(seq(|calls|, i requires 0 <= i < |calls| => calls[i].name + "(" + calls[i].argsJson + ")"), ", ")
  }

  function CalledText(m: StepMessage): string
    requires CallsTools(m)
  {
    T.Trim(m.content + "\n[called tools: " + CallsText(m.toolCalls.value) + "]")
  }

  function ResultText(m: StepMessage): string
    requires m.ToolResult?
  {
    "[tool result " + m.callId + "]\n" + m.content
  }

  /** One message on the wire; the first context message of a transcript is the system's. */
  function Encoded(m: StepMessage, first: bool, plainText: bool): WireMessage {
    match m
    case Context(content) => if first then System(content) else User(content)
    case Assistant(content, toolCalls) =>
      if !CallsTools(m) then AssistantTurn(content, None)
      else if plainText then AssistantTurn(CalledText(m), None)
      else AssistantTurn(content, toolCalls)
    case ToolResult(callId, content) =>
      if plainText then User(ResultText(m)) else Tooled(callId, content)
  }

  function Contexts(t: seq<StepMessage>, n: nat): nat
    requires n <= |t|
  {
    if n == 0 then 0 else Contexts(t, n - 1) + (if t[n - 1].Context? then 1 else 0)
  }

  function Messages(t: seq<StepMessage>, plainText: bool): (r: seq<WireMessage>)
    ensures |r| == |t|
  {
    seq(|t|, i requires 0 <= i < |t| => Encoded(t[i], Contexts(t, i) == 0, plainText))
  }

  /** One turn of the encoding loop. */
  method EncodeMessage(msg: StepMessage, contextCount: nat, plainTextHistory: bool) returns (w: WireMessage)
    ensures w == Encoded(msg, contextCount == 0, plainTextHistory)
  {
    match msg {
      case Context(content) =>
        if contextCount == 0 { return System(content); }
        return User(content);
      case Assistant(content, toolCalls) =>
        if toolCalls.Some? && |toolCalls.value| > 0 {
          if plainTextHistory { return AssistantTurn(CalledText(msg), None); }
          return AssistantTurn(content, toolCalls);
        }
        return AssistantTurn(content, None);
      case ToolResult(callId, content) =>
        if plainTextHistory { return User(ResultText(msg)); }
        return Tooled(callId, content);
    }
  }

  lemma {:induction false} MessagesStep(t: seq<StepMessage>, plainText: bool, i: nat)
    requires i < |t|
    ensures Messages(t, plainText)[..i + 1] ==
      Messages(t, plainText)[..i] + [Encoded(t[i], Contexts(t, i) == 0, plainText)]
  {
  }

  /** `buildStepRequest`: tools and the JSON mode never travel together. */
  method BuildStepRequest(transcript: seq<StepMessage>, tools: seq<Tool>, outputSchema: Option<string>)
    returns (r: StepRequest)
    ensures r.messages == Messages(transcript, tools == [])
    ensures r.tools == if tools == [] then None else Some(tools)
    ensures r.jsonObject <==> outputSchema.Some? && tools == []
  {
    var contextCount := 0;
    var messages: seq<WireMessage> := [];
    var plainTextHistory := |tools| == 0;
    for i := 0 to |transcript|
      invariant contextCount == Contexts(transcript, i)
      invariant messages == Messages(transcript, plainTextHistory)[..i]
    {
      MessagesStep(transcript, plainTextHistory, i);
      var w := EncodeMessage(transcript[i], contextCount, plainTextHistory);
      messages := messages + [w];
      if transcript[i].Context? { contextCount := contextCount + 1; }
    }
    assert Messages(transcript, plainTextHistory)[..|transcript|] == Messages(transcript, plainTextHistory);
    return StepRequest(messages, if |tools| > 0 then Some(tools) else None, outputSchema.Some? && |tools| == 0);
  }

  // ----- The messages, written out -----

  /** A turn that spells its calls out: its content without the white space around it, and
      below it each call as its name with its arguments in parentheses. */
  ghost predicate SpellsCalls(content: string, calls: seq<ToolCall>, text: string) {
    var parts := seq(|calls|, i requires 0 <= i < |calls| => calls[i].name + "(" + calls[i].argsJson + ")");
    var list := "[called tools: " + T.Join(parts, ", ") + "]";
    && (T.Blank(content) ==> text == list)
    && (forall lead, core | content == lead + core && T.Blank(lead) && core != "" && !T.IsSpace(core[0]) ::
          text == core + "\n" + list)
  }

  lemma {:induction false} TrimmedList(lead: string, core: string, list: string)
    requires T.Blank(lead) && (core == "" || !T.IsSpace(core[0])) && T.Tight(list)
    ensures T.Trim(lead + core + "\n" + list) == if core == "" then list else core + "\n" + list
  {
    if core == "" {
      assert lead + core + "\n" + list == (lead + "\n") + list + "";
      T.TrimIs(lead + "\n", list, "");
    } else {
      assert lead + core + "\n" + list == lead + (core + "\n" + list) + "";
      T.TrimIs(lead, core + "\n" + list, "");
    }
  }

  lemma {:induction false} CalledTextSpells(m: StepMessage)
    requires CallsTools(m)
    ensures SpellsCalls(m.content, m.toolCalls.value, CalledText(m))
  {
    var calls := m.toolCalls.value;
    var parts := seq(|calls|, i requires 0 <= i < |calls| => calls[i].name + "(" + calls[i].argsJson + ")");
    var list := "[called tools: " + T.Join(parts, ", ") + "]";
    assert parts == seq(|calls|, i requires 0 <= i < |calls| => calls[i].name + "(" + calls[i].argsJson + ")");
    var whole := m.content + "\n[called tools: " + T.Join(parts, ", ") + "]";
    assert CalledText(m) == T.Trim(whole);
    assert whole == m.content + "\n" + list;
    if T.Blank(m.content) {
      assert m.content + "" + "\n" + list == whole;
      TrimmedList(m.content, "", list);
    }
    forall lead, core | m.content == lead + core && T.Blank(lead) && core != "" && !T.IsSpace(core[0])
      ensures CalledText(m) == core + "\n" + list
    {
      TrimmedList(lead, core, list);
    }
  }

  /** What stands for message `i` on the wire. */
  ghost predicate Stands(t: seq<StepMessage>, i: nat, plainText: bool, w: WireMessage)
    requires i < |t|
  {
    match t[i]
    case Context(content) =>
      w == if forall j | 0 <= j < i :: !t[j].Context? then System(content) else User(content)
    case Assistant(content, toolCalls) =>
      if toolCalls == None || toolCalls == Some([]) then w == AssistantTurn(content, None)
      else if plainText then
        w.AssistantTurn? && w.toolCalls == None && SpellsCalls(content, toolCalls.value, w.content)
      else w == AssistantTurn(content, toolCalls)
    case ToolResult(callId, content) =>
      w == if plainText then User("[tool result " + callId + "]\n" + content) else Tooled(callId, content)
  }

  /** Message by message, what is sent. */
  lemma {:induction false} MessagesStand(t: seq<StepMessage>, plainText: bool, i: nat)
    requires i < |t|
    ensures |Messages(t, plainText)| == |t| && Stands(t, i, plainText, Messages(t, plainText)[i])
  {
    NoContextsIff(t, i);
    if CallsTools(t[i]) { CalledTextSpells(t[i]); }
  }

  // ----- With tools: invertible and prefix stable -----

  function Decoded(w: WireMessage): StepMessage {
    match w
    case System(content) => Context(content)
    case User(content) => Context(content)
    case AssistantTurn(content, toolCalls) => Assistant(content, toolCalls)
    case Tooled(callId, content) => ToolResult(callId, content)
  }

  function Transcribed(ws: seq<WireMessage>): seq<StepMessage> {
    seq(|ws|, i requires 0 <= i < |ws| => Decoded(ws[i]))
  }

  predicate HasEmptyCalls(m: StepMessage) {
    m.Assistant? && m.toolCalls == Some([])
  }

  /** With tools the transcript can be read back from the wire, exactly when no assistant turn
      carries an empty list of calls. */
  lemma {:induction false} RoundTripsIff(t: seq<StepMessage>)
    ensures Transcribed(Messages(t, false)) == t <==> forall m :: m in t ==> !HasEmptyCalls(m)
  {
    forall i | 0 <= i < |t|
      ensures Transcribed(Messages(t, false))[i] == t[i] <==> !HasEmptyCalls(t[i])
    {
    }
    if Transcribed(Messages(t, false)) == t {
      forall m | m in t
        ensures !HasEmptyCalls(m)
      {
        var i :| 0 <= i < |t| && t[i] == m;
        assert Transcribed(Messages(t, false))[i] == t[i];
      }
    } else {
      assert exists i | 0 <= i < |t| :: Transcribed(Messages(t, false))[i] != t[i];
    }
  }

  lemma {:induction false} ContextsPrefix(t: seq<StepMessage>, more: seq<StepMessage>, n: nat)
    requires n <= |t|
    ensures Contexts(t + more, n) == Contexts(t, n)
  {
    if n > 0 { ContextsPrefix(t, more, n - 1); }
  }

  /** Appending to the transcript only appends to the messages. */
  lemma {:induction false} EncodingIsPrefixStable(t: seq<StepMessage>, more: seq<StepMessage>, plainText: bool)
    ensures Messages(t, plainText) <= Messages(t + more, plainText)
  {
    forall i | 0 <= i < |t|
      ensures Messages(t + more, plainText)[i] == Messages(t, plainText)[i]
    {
      ContextsPrefix(t, more, i);
    }
  }

  /** Exactly one system message when there is any context, at the first of them. */
  lemma {:induction false} FirstContextIsSystem(t: seq<StepMessage>, plainText: bool, i: nat)
    requires i < |t|
    ensures Messages(t, plainText)[i].System? <==> t[i].Context? && forall j | 0 <= j < i :: !t[j].Context?
  {
    NoContextsIff(t, i);
  }

  lemma {:induction false} NoContextsIff(t: seq<StepMessage>, n: nat)
    requires n <= |t|
    ensures Contexts(t, n) == 0 <==> forall j | 0 <= j < n :: !t[j].Context?
  {
    if n > 0 { NoContextsIff(t, n - 1); }
  }

  // ----- Without tools: an ordinary chat -----

  /** No tool machinery on a request without tools. */
  lemma {:induction false} PlainTextHasNoTools(t: seq<StepMessage>)
    ensures forall w :: w in Messages(t, true) ==> !w.Tooled? && (w.AssistantTurn? ==> w.toolCalls.None?)
  {
  }

  /** The price: a tool result reads like a context message that spells it out. */
  lemma {:induction false} PlainTextForgetsRoles(before: seq<StepMessage>, m: StepMessage)
    requires m.ToolResult? && (exists i | 0 <= i < |before| :: before[i].Context?)
    ensures Messages(before + [m], true) == Messages(before + [Context(ResultText(m))], true)
  {
    var n := |before|;
    forall i | 0 <= i <= n
      ensures Messages(before + [m], true)[i] == Messages(before + [Context(ResultText(m))], true)[i]
    {
      ContextsPrefix(before, [m], if i < n then i else n);
      ContextsPrefix(before, [Context(ResultText(m))], if i < n then i else n);
      NoContextsIff(before, n);
    }
  }

  // ----- The Anthropic encoding -----

  datatype Block = TextBlock(text: string) | ToolUse(call: ToolCall)

  datatype AnthropicMessage =
    | UserText(content: string)
    | AssistantText(content: string)
    | AssistantBlocks(blocks: seq<Block>)
    | UserToolResult(toolUseId: string, content: string)

  function ToolUses(calls: seq<ToolCall>): seq<Block> {
    seq(|calls|, i requires 0 <= i < |calls| => ToolUse(calls[i]))
  }

  /** The same message in the other dialect; blank text beside tool calls is dropped. */
  function Rephrased(w: WireMessage): AnthropicMessage {
    match w
    case System(content) => UserText(content)
    case User(content) => UserText(content)
    case AssistantTurn(content, toolCalls) =>
      (match toolCalls
       case None => AssistantText(content)
       case Some(calls) =>
         AssistantBlocks((if T.Trim(content) == "" then [] else [TextBlock(content)]) + ToolUses(calls)))
    case Tooled(callId, content) => UserToolResult(callId, content)
  }

  /** Every message but the system one, turned by `f`. */
  function LiftedBy<A>(ws: seq<WireMessage>, f: WireMessage -> A): seq<A> {
    if ws == [] then []
    else LiftedBy(ws[..|ws| - 1], f) + (if ws[|ws| - 1].System? then [] else [f(ws[|ws| - 1])])
  }

  /** Every message but the system one, rephrased. */
  function RephrasedAll(ws: seq<WireMessage>): seq<AnthropicMessage> {
    LiftedBy(ws, Rephrased)
  }

  function SystemOf(ws: seq<WireMessage>): Option<string> {
    if ws == [] then None
    else if ws[|ws| - 1].System? then Some(ws[|ws| - 1].content)
    else SystemOf(ws[..|ws| - 1])
  }

  /** What one turn of the Anthropic loop adds: the system string, or one message. */
  function Lifted(w: WireMessage): (Option<string>, seq<AnthropicMessage>) {
    if w.System? then (Some(w.content), []) else (None, [Rephrased(w)])
  }

  /** One turn of the encoding loop. */
  method EncodeAnthropic(msg: StepMessage, contextCount: nat, plainTextHistory: bool)
    returns (system: Option<string>, added: seq<AnthropicMessage>)
    ensures (system, added) == Lifted(Encoded(msg, contextCount == 0, plainTextHistory))
  {
    match msg {
      case Context(content) =>
        if contextCount == 0 { return Some(content), []; }
        return None, [UserText(content)];
      case Assistant(content, toolCalls) =>
        if toolCalls.Some? && |toolCalls.value| > 0 {
          if plainTextHistory { return None, [AssistantText(CalledText(msg))]; }
          var blocks := Blocks(content, toolCalls.value);
          return None, [AssistantBlocks(blocks)];
        }
        return None, [AssistantText(content)];
      case ToolResult(callId, content) =>
        if plainTextHistory { return None, [UserText(ResultText(msg))]; }
        return None, [UserToolResult(callId, content)];
    }
  }

  lemma {:induction false} RephrasedStep(ws: seq<WireMessage>, i: nat)
    requires i < |ws|
    ensures RephrasedAll(ws[..i + 1]) == RephrasedAll(ws[..i]) + Lifted(ws[i]).1
    ensures SystemOf(ws[..i + 1]) == if Lifted(ws[i]).0.Some? then Lifted(ws[i]).0 else SystemOf(ws[..i])
  {
    assert ws[..i + 1][..i] == ws[..i];
  }

  /** `buildAnthropicMessages`: the OpenAI messages with the system message lifted out. */
  method BuildAnthropicMessages(transcript: seq<StepMessage>, plainTextHistory: bool)
    returns (system: Option<string>, messages: seq<AnthropicMessage>)
    ensures messages == RephrasedAll(Messages(transcript, plainTextHistory))
    ensures system == SystemOf(Messages(transcript, plainTextHistory))
  {
    system := None;
    var contextCount := 0;
    messages := [];
    for i := 0 to |transcript|
      invariant contextCount == Contexts(transcript, i)
      invariant messages == RephrasedAll(Messages(transcript, plainTextHistory)[..i])
      invariant system == SystemOf(Messages(transcript, plainTextHistory)[..i])
    {
      RephrasedStep(Messages(transcript, plainTextHistory), i);
      assert Messages(transcript, plainTextHistory)[i] ==
        Encoded(transcript[i], contextCount == 0, plainTextHistory);
      var first, added := EncodeAnthropic(transcript[i], contextCount, plainTextHistory);
      if first.Some? { system := first; }
      messages := messages + added;
      if transcript[i].Context? { contextCount := contextCount + 1; }
    }
    assert Messages(transcript, plainTextHistory)[..|transcript|] == Messages(transcript, plainTextHistory);
  }

  method Blocks(content: string, calls: seq<ToolCall>) returns (blocks: seq<Block>)
    ensures blocks == (if T.Trim(content) == "" then [] else [TextBlock(content)]) + ToolUses(calls)
  {
    blocks := [];
    if |T.Trim(content)| > 0 {
      blocks := blocks + [TextBlock(content)];
    }
    ghost var text := blocks;
    for i := 0 to |calls|
      invariant blocks == text + ToolUses(calls)[..i]
    {
      blocks := blocks + [ToolUse(calls[i])];
    }
  }

  // ----- The Anthropic messages, written out -----

  /** A turn in the other dialect: its text, when it is not blank, and then its calls in order. */
  predicate BlocksOf(content: string, calls: seq<ToolCall>, blocks: seq<Block>) {
    var first := if T.Blank(content) then 0 else 1;
    && |blocks| == first + |calls|
    && (first == 1 ==> blocks[0] == TextBlock(content))
    && forall k | 0 <= k < |calls| :: blocks[first + k] == ToolUse(calls[k])
  }

  /** What stands for message `i` in the other dialect, unless it is the system's. */
  ghost predicate StandsRephrased(t: seq<StepMessage>, i: nat, plainText: bool, a: AnthropicMessage)
    requires i < |t|
  {
    match t[i]
    case Context(content) => a == UserText(content)
    case Assistant(content, toolCalls) =>
      if toolCalls == None || toolCalls == Some([]) then a == AssistantText(content)
      else if plainText then a.AssistantText? && SpellsCalls(content, toolCalls.value, a.content)
      else a.AssistantBlocks? && BlocksOf(content, toolCalls.value, a.blocks)
    case ToolResult(callId, content) =>
      a == if plainText then UserText("[tool result " + callId + "]\n" + content) else UserToolResult(callId, content)
  }

  predicate IsFirstContext(t: seq<StepMessage>, i: nat)
    requires i < |t|
  {
    t[i].Context? && forall j | 0 <= j < i :: !t[j].Context?
  }

  ghost function NotTheSystems(t: seq<StepMessage>): seq<bool> {
    seq(|t|, i requires 0 <= i < |t| => !IsFirstContext(t, i))
  }

  lemma {:induction false} LiftedSelected<A>(ws: seq<WireMessage>, f: WireMessage -> A) returns (picks: seq<nat>)
    ensures Selects(seq(|ws|, i requires 0 <= i < |ws| => !ws[i].System?), picks)
    ensures |LiftedBy(ws, f)| == |picks| && forall n: nat | n < |picks| :: LiftedBy(ws, f)[n] == f(ws[picks[n]])
  {
    picks := [];
    if ws != [] {
      var front, last := ws[..|ws| - 1], ws[|ws| - 1];
      picks := LiftedSelected(front, f);
      var flags := seq(|front|, i requires 0 <= i < |front| => !front[i].System?);
      assert seq(|ws|, i requires 0 <= i < |ws| => !ws[i].System?) == flags + [!last.System?];
      SelectsSnoc(flags, !last.System?, picks);
      if !last.System? { picks := picks + [|front|]; }
    }
  }

  lemma {:induction false} RephrasedStands(t: seq<StepMessage>, plainText: bool, i: nat)
    requires i < |t| && !IsFirstContext(t, i)
    ensures StandsRephrased(t, i, plainText, Rephrased(Messages(t, plainText)[i]))
  {
    MessagesStand(t, plainText, i);
    if t[i].Assistant? { T.TrimEmptyIffBlank(t[i].content); }
  }

  lemma {:induction false} OnlySystem(ws: seq<WireMessage>, i: nat)
    requires i < |ws| && ws[i].System? && forall j | 0 <= j < |ws| && j != i :: !ws[j].System?
    ensures SystemOf(ws) == Some(ws[i].content)
  {
    if i < |ws| - 1 { OnlySystem(ws[..|ws| - 1], i); }
  }

  lemma {:induction false} SystemIs(t: seq<StepMessage>, plainText: bool)
    ensures (forall i | 0 <= i < |t| :: !t[i].Context?) ==> SystemOf(Messages(t, plainText)) == None
    ensures forall i | 0 <= i < |t| && IsFirstContext(t, i) :: SystemOf(Messages(t, plainText)) == Some(t[i].content)
  {
    var ws := Messages(t, plainText);
    SomeSystemIff(ws);
    forall i: nat | i < |t|
      ensures ws[i].System? <==> IsFirstContext(t, i)
    {
      FirstContextIsSystem(t, plainText, i);
    }
    forall i | 0 <= i < |t| && IsFirstContext(t, i)
      ensures SystemOf(ws) == Some(t[i].content)
    {
      OnlySystem(ws, i);
    }
  }

  /** What the Anthropic form holds: the first context as the system text, and every other
      message in order, rephrased. */
  lemma {:induction false} AnthropicWrittenOut(t: seq<StepMessage>, plainText: bool) returns (picks: seq<nat>)
    ensures var system, messages := SystemOf(Messages(t, plainText)), RephrasedAll(Messages(t, plainText));
      && ((forall i | 0 <= i < |t| :: !t[i].Context?) ==> system == None)
      && (forall i | 0 <= i < |t| && IsFirstContext(t, i) :: system == Some(t[i].content))
      && Selects(NotTheSystems(t), picks) && |messages| == |picks|
      && forall n: nat | n < |picks| :: StandsRephrased(t, picks[n], plainText, messages[n])
  {
    var ws := Messages(t, plainText);
    picks := LiftedSelected(ws, Rephrased);
    forall i: nat | i < |t|
      ensures ws[i].System? <==> IsFirstContext(t, i)
    {
      FirstContextIsSystem(t, plainText, i);
    }
    assert NotTheSystems(t) == seq(|ws|, i requires 0 <= i < |ws| => !ws[i].System?);
    forall n: nat | n < |picks|
      ensures StandsRephrased(t, picks[n], plainText, RephrasedAll(ws)[n])
    {
      assert NotTheSystems(t)[picks[n]];
      RephrasedStands(t, plainText, picks[n]);
    }
    SystemIs(t, plainText);
  }

  // ----- Reading the Anthropic encoding back -----

  function CallsOf(blocks: seq<Block>): seq<ToolCall> {
    if blocks == [] then []
    else (if blocks[0].ToolUse? then [blocks[0].call] else []) + CallsOf(blocks[1..])
  }

  function Restored(a: AnthropicMessage): StepMessage {
    match a
    case UserText(content) => Context(content)
    case AssistantText(content) => Assistant(content, None)
    case AssistantBlocks(blocks) =>
      Assistant(if blocks != [] && blocks[0].TextBlock? then blocks[0].text else "", Some(CallsOf(blocks)))
    case UserToolResult(callId, content) => ToolResult(callId, content)
  }

  /** The system message first, then the others in order. */
  function RestoredAll(system: Option<string>, messages: seq<AnthropicMessage>): seq<StepMessage> {
    (if system.Some? then [Context(system.value)] else []) +
      seq(|messages|, i requires 0 <= i < |messages| => Restored(messages[i]))
  }

  /** A turn whose blank text is lost beside its tool calls. */
  predicate LosesText(m: StepMessage) {
    CallsTools(m) && m.content != "" && T.Trim(m.content) == ""
  }

  lemma {:induction false} CallsOfToolUses(calls: seq<ToolCall>)
    ensures CallsOf(ToolUses(calls)) == calls
  {
    if calls != [] {
      assert ToolUses(calls)[1..] == ToolUses(calls[1..]);
      CallsOfToolUses(calls[1..]);
      assert calls == [calls[0]] + calls[1..];
    }
  }

  lemma {:induction false} RestoresIff(m: StepMessage)
    ensures Restored(Rephrased(Encoded(m, false, false))) == m <==> !HasEmptyCalls(m) && !LosesText(m)
  {
    if CallsTools(m) {
      var uses := ToolUses(m.toolCalls.value);
      CallsOfToolUses(m.toolCalls.value);
      if T.Trim(m.content) != "" {
        var blocks := [TextBlock(m.content)] + uses;
        assert blocks[1..] == uses;
        assert CallsOf(blocks) == [] + CallsOf(uses) == m.toolCalls.value;
      } else {
        assert [] + uses == uses;
        assert uses[0].ToolUse?;
      }
    }
  }

  /** Every message as an Anthropic turn, the first context included. */
  function Turns(t: seq<StepMessage>): (r: seq<AnthropicMessage>)
    ensures |r| == |t|
  {
    seq(|t|, i requires 0 <= i < |t| => Rephrased(Encoded(t[i], false, false)))
  }

  predicate NoSystem(ws: seq<WireMessage>) {
    forall i | 0 <= i < |ws| :: !ws[i].System?
  }

  function Each<A>(ws: seq<WireMessage>, f: WireMessage -> A): (r: seq<A>)
    ensures |r| == |ws|
  {
    seq(|ws|, i requires 0 <= i < |ws| => f(ws[i]))
  }

  lemma {:induction false} NothingLifted<A>(ws: seq<WireMessage>, f: WireMessage -> A)
    requires NoSystem(ws)
    ensures LiftedBy(ws, f) == Each(ws, f) && SystemOf(ws).None?
  {
    if ws != [] {
      var front := ws[..|ws| - 1];
      NothingLifted(front, f);
      assert Each(ws, f) == Each(front, f) + [f(ws[|ws| - 1])];
    }
  }

  lemma {:induction false} FirstLifted<A>(ws: seq<WireMessage>, f: WireMessage -> A)
    requires ws != [] && ws[0].System? && NoSystem(ws[1..])
    ensures LiftedBy(ws, f) == Each(ws[1..], f) && SystemOf(ws) == Some(ws[0].content)
  {
    if |ws| == 1 {
      assert ws[..0] == [];
    } else {
      var front := ws[..|ws| - 1];
      assert front[1..] == ws[1..][..|ws| - 2];
      FirstLifted(front, f);
      assert Each(ws[1..], f) == Each(front[1..], f) + [f(ws[|ws| - 1])];
    }
  }

  lemma {:induction false} SomeSystemIff(ws: seq<WireMessage>)
    ensures SystemOf(ws).Some? <==> !NoSystem(ws)
  {
    if ws != [] {
      var front := ws[..|ws| - 1];
      SomeSystemIff(front);
      assert forall i | 0 <= i < |front| :: front[i] == ws[i];
    }
  }

  /** Only the first context message is the system's. */
  lemma {:induction false} SystemOnlyFirst(t: seq<StepMessage>)
    ensures Contexts(t, |t|) == 0 ==> NoSystem(Messages(t, false))
    ensures t != [] && t[0].Context? ==>
      Messages(t, false)[0] == System(t[0].content) && NoSystem(Messages(t, false)[1..])
    ensures SystemOf(Messages(t, false)).Some? <==> Contexts(t, |t|) > 0
  {
    NoContextsIff(t, |t|);
    SomeSystemIff(Messages(t, false));
    forall i | 0 <= i < |t|
      ensures Messages(t, false)[i].System? <==> t[i].Context? && forall j | 0 <= j < i :: !t[j].Context?
    {
      FirstContextIsSystem(t, false, i);
    }
    if Contexts(t, |t|) > 0 {
      var i := FirstContext(t, |t|);
      assert Messages(t, false)[i].System?;
    }
  }

  lemma {:induction false} FirstContext(t: seq<StepMessage>, n: nat) returns (i: nat)
    requires n <= |t| && Contexts(t, n) > 0
    ensures i < n && t[i].Context? && forall j | 0 <= j < i :: !t[j].Context?
  {
    if Contexts(t, n - 1) > 0 {
      i := FirstContext(t, n - 1);
    } else {
      i := n - 1;
      NoContextsIff(t, n - 1);
    }
  }

  lemma {:induction false} TurnsAre(t: seq<StepMessage>, i: nat)
    requires i < |t| && !Messages(t, false)[i].System?
    ensures Turns(t)[i] == Rephrased(Messages(t, false)[i])
  {
  }

  lemma {:induction false} NothingToLift(t: seq<StepMessage>)
    requires Contexts(t, |t|) == 0
    ensures RephrasedAll(Messages(t, false)) == Turns(t) && SystemOf(Messages(t, false)).None?
  {
    var ws := Messages(t, false);
    SystemOnlyFirst(t);
    NothingLifted(ws, Rephrased);
    forall i | 0 <= i < |t|
      ensures Each(ws, Rephrased)[i] == Turns(t)[i]
    {
      TurnsAre(t, i);
    }
  }

  lemma {:induction false} LiftsTheFirst(t: seq<StepMessage>)
    requires t != [] && t[0].Context?
    ensures RephrasedAll(Messages(t, false)) == Turns(t)[1..]
    ensures SystemOf(Messages(t, false)) == Some(t[0].content)
  {
    var ws := Messages(t, false);
    SystemOnlyFirst(t);
    FirstLifted(ws, Rephrased);
    forall i | 0 <= i < |t| - 1
      ensures Each(ws[1..], Rephrased)[i] == Turns(t)[1..][i]
    {
      assert !ws[1..][i].System?;
      TurnsAre(t, i + 1);
    }
  }

  function Recovered(t: seq<StepMessage>): seq<StepMessage> {
    var ws := Messages(t, false);
    RestoredAll(SystemOf(ws), RephrasedAll(ws))
  }

  lemma {:induction false} WithSystem(content: string, turns: seq<AnthropicMessage>)
    requires turns != [] && Restored(turns[0]) == Context(content)
    ensures var r := RestoredAll(Some(content), turns[1..]);
      |r| == |turns| && forall i | 0 <= i < |turns| :: r[i] == Restored(turns[i])
  {
  }

  lemma {:induction false} WithoutSystem(turns: seq<AnthropicMessage>)
    ensures var r := RestoredAll(None, turns);
      |r| == |turns| && forall i | 0 <= i < |turns| :: r[i] == Restored(turns[i])
  {
  }

  lemma {:induction false} RecoveredTurns(t: seq<StepMessage>)
    requires t == [] || t[0].Context? || Contexts(t, |t|) == 0
    ensures |Recovered(t)| == |t|
    ensures forall i | 0 <= i < |t| :: Recovered(t)[i] == Restored(Turns(t)[i])
  {
    if t != [] && t[0].Context? {
      LiftsTheFirst(t);
      WithSystem(t[0].content, Turns(t));
    } else {
      NothingToLift(t);
      WithoutSystem(Turns(t));
    }
  }

  /** With tools the Anthropic form can be read back too, exactly when the first context
      message leads the transcript or there is none, no turn carries an empty list of calls,
      and no turn has only white space beside its calls. */
  lemma {:induction false} AnthropicRoundTripsIff(t: seq<StepMessage>)
    ensures Recovered(t) == t <==>
      && (t == [] || t[0].Context? || forall m :: m in t ==> !m.Context?)
      && (forall m :: m in t ==> !HasEmptyCalls(m) && !LosesText(m))
  {
    NoContextsIff(t, |t|);
    SystemOnlyFirst(t);
    if t == [] || t[0].Context? || Contexts(t, |t|) == 0 {
      RecoveredTurns(t);
      EachRestores(t);
    } else {
      assert Recovered(t)[0].Context?;
      var i :| 0 <= i < |t| && t[i].Context?;
      assert t[i] in t;
    }
  }

  lemma {:induction false} EachRestores(t: seq<StepMessage>)
    requires |Recovered(t)| == |t|
    requires forall i | 0 <= i < |t| :: Recovered(t)[i] == Restored(Turns(t)[i])
    ensures Recovered(t) == t <==> forall m :: m in t ==> !HasEmptyCalls(m) && !LosesText(m)
  {
    forall i | 0 <= i < |t|
      ensures Recovered(t)[i] == t[i] <==> !HasEmptyCalls(t[i]) && !LosesText(t[i])
    {
      RestoresIff(t[i]);
    }
    if Recovered(t) == t {
      forall m | m in t
        ensures !HasEmptyCalls(m) && !LosesText(m)
      {
        var i :| 0 <= i < |t| && t[i] == m;
        assert Recovered(t)[i] == t[i];
      }
    } else {
      var i :| 0 <= i < |t| && Recovered(t)[i] != t[i];
      assert t[i] in t;
    }
  }
}
