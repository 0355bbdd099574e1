/** The decoder for Anthropic's typed event stream.

    As for the OpenAI decoder, byte decoding and JSON parsing are parameters. */
module AnthropicStream {
  import opened Wrappers
  import opened Messages
  import opened Events
  import opened SseLines
  import F = ThinkFilter
  import T = Text

  datatype Delta =
    | TextPart(text: string)
    | ThinkingPart(text: string)
    | InputPart(fragment: string)
    | OtherPart

  /** A parsed event, as far as the decoder reads it; missing numbers read as zero. */
  datatype Event =
    | MessageStart(inputTokens: nat)
    | BlockStart(index: nat, tool: Option<(string, string)>)
    | BlockDelta(index: nat, delta: Delta)
    | BlockStop(index: nat)
    | MessageDelta(outputTokens: Option<nat>, stopReason: Option<string>)
    | MessageStop
    | StreamError(message: string)
    | OtherEvent

  datatype Codec = Codec(
    decode: seq<Byte> -> string,
    parse: string -> Result<Event, string>,
    parseInput: string -> Result<Json, string>)

  datatype Accum = Accum(id: string, name: string, input: string)

  const EMPTY_ACCUM := Accum("", "", "")

  datatype Decoder = Decoder(
    thinking: F.Filter,
    tools: map<nat, Accum>,
    openBlocks: set<nat>,
    closedBlocks: nat,
    sawContentDelta: bool,
    inputTokens: nat,
    done: bool,
    warnedStopReason: bool,
    sawStopReason: bool)

  const FRESH := Decoder(F.FRESH, map[], {}, 0, false, 0, false, false, false)

  function AccumAt(d: Decoder, index: nat): Accum {
    if index in d.tools then d.tools[index] else EMPTY_ACCUM
  }

  predicate ContentComplete(d: Decoder) {
    !d.sawContentDelta || d.closedBlocks > 0
  }

  function FlushThinking(d: Decoder): (Decoder, seq<Item>) {
    var (filter, events) := F.Finish(d.thinking);
    (d.(thinking := filter), AsItems(events))
  }

  function EmitDone(d: Decoder): (Decoder, seq<Item>) {
    if d.done then (d, [])
    else
      var (d', items) := FlushThinking(d);
      (d'.(done := true), items + [Ok(Done)])
  }

  /** What one accumulator turns into when its block stops. */
  function FlushOne(codec: Codec, acc: Accum): seq<Item> {
    if acc.name == "" then []
    else
      var input := if T.Trim(acc.input) == "" then Ok(Json("{}", true)) else codec.parseInput(acc.input);
      match input
      case Ok(json) => [Ok(ToolCall(acc.id, acc.name, json))]
      case Err(detail) => [Err(BadToolInput(detail))]
  }

  function FlushTool(codec: Codec, d: Decoder, index: nat): (Decoder, seq<Item>) {
    if index !in d.tools then (d, [])
    else (d.(tools := d.tools - {index}), FlushOne(codec, d.tools[index]))
  }

  function StopWarning(reason: string): Option<string> {
    if reason == "end_turn" || reason == "tool_use" then None
    else if reason == "pause_turn" then
      Some("provider paused during server-tool processing; a continuation may be required")
    else if reason == "refusal" then Some("provider refused the request")
    else if reason == "stop_sequence" then
      Some("provider stopped at a configured stop sequence; output may be partial")
    else if T.Trim(reason) == "" then None
    else Some("provider stopped with reason `" + reason + "`")
  }

  function WarnForStop(d: Decoder, reason: string): (Decoder, seq<Item>) {
    if d.warnedStopReason then (d, [])
    else if reason == "max_tokens" then
      (d.(warnedStopReason := true), [Ok(OutputLimit("provider stopped at max_tokens; output may be truncated"))])
    else
      var message := StopWarning(reason);
      if message.None? then (d, [])
      else (d.(warnedStopReason := true), [Ok(ProviderWarning(message.value))])
  }

  function HandleBlockStart(d: Decoder, index: nat, tool: Option<(string, string)>): Decoder {
    var d1 := d.(openBlocks := d.openBlocks + {index});
    if tool.None? then d1
    else d1.(tools := d.tools[index := AccumAt(d, index).(id := tool.value.0, name := tool.value.1)])
  }

  function HandleDelta(d: Decoder, index: nat, delta: Delta): (Decoder, seq<Item>) {
    match delta
    case TextPart(text) =>
      if text == "" then (d, [])
      else
        var (filter, events) := F.Push(d.thinking, text);
        (d.(thinking := filter), AsItems(events))
    case ThinkingPart(text) => (d, if text == "" then [] else [Ok(ReasoningDelta(text))])
    case InputPart(fragment) =>
      var acc := AccumAt(d, index);
      (d.(tools := d.tools[index := acc.(input := acc.input + fragment)]), [])
    case OtherPart => (d, [])
  }

  function HandleBlockStop(codec: Codec, d: Decoder, index: nat): (Decoder, seq<Item>) {
    var d1 := if index in d.openBlocks
              then d.(openBlocks := d.openBlocks - {index}, closedBlocks := d.closedBlocks + 1)
              else d;
    FlushTool(codec, d1, index)
  }

  function HandleMessageDelta(d: Decoder, outputTokens: Option<nat>, stopReason: Option<string>): (Decoder, seq<Item>) {
    var usage := if outputTokens.Some? then [Ok(Usage(d.inputTokens, outputTokens.value))] else [];
    if stopReason.None? then (d, usage)
    else
      var (d1, warning) := WarnForStop(d.(sawStopReason := true), stopReason.value);
      (d1, usage + warning)
  }

  function HandleEvent(codec: Codec, d: Decoder, event: Event): (Decoder, seq<Item>) {
    match event
    case MessageStart(inputTokens) => (d.(inputTokens := inputTokens), [])
    case BlockStart(index, tool) => (HandleBlockStart(d, index, tool), [])
    case BlockDelta(index, delta) => HandleDelta(d.(sawContentDelta := true), index, delta)
    case BlockStop(index) => HandleBlockStop(codec, d, index)
    case MessageDelta(outputTokens, stopReason) => HandleMessageDelta(d, outputTokens, stopReason)
    case MessageStop =>
      if d.openBlocks == {} && ContentComplete(d) then EmitDone(d)
      else (d.(done := true), [Err(LifecycleIncomplete)])
    case StreamError(message) => (d, [Err(ServerError(message))])
    case OtherEvent => (d, [])
  }

  const DATA := "data:"

  /** The event a line carries, if it carries one. */
  function EventOf(codec: Codec, line: string): Option<Result<Event, string>> {
    if !(DATA <= line) then None
    else
      var payload := T.Trim(line[|DATA|..]);
      if payload == "" then None else Some(codec.parse(payload))
  }

  function ProcessLine(codec: Codec, d: Decoder, line: string): (Decoder, seq<Item>) {
    match EventOf(codec, line)
    case None => (d, [])
    case Some(Ok(event)) => HandleEvent(codec, d, event)
    case Some(Err(detail)) => (d, [Err(BadPayload(detail))])
  }

  function ProcessRaw(codec: Codec, d: Decoder, raw: seq<Byte>): (Decoder, seq<Item>) {
    ProcessLine(codec, d, T.Trim(codec.decode(raw)))
  }

  /** The decoder behind the line layer. */
  function Step(codec: Codec): (Decoder, seq<Byte>) -> (Decoder, seq<Item>) {
    (d, raw) => ProcessRaw(codec, d, raw)
  }

  function ProcessTail(codec: Codec, st: Stream<Decoder>): (Decoder, seq<Item>) {
    if st.buf == [] then (st.decoder, []) else ProcessRaw(codec, st.decoder, st.buf)
  }

  function Conclude(d: Decoder): (Decoder, seq<Item>) {
    if d.done then (d, [])
    else if d.sawStopReason && d.openBlocks == {} && ContentComplete(d) then EmitDone(d)
    else (d.(done := true), [Err(NoCompletionMarker)])
  }

  function Finish(codec: Codec, st: Stream<Decoder>): (Stream<Decoder>, seq<Item>) {
    var (d1, tail) := ProcessTail(codec, st);
    var (d2, text) := FlushThinking(d1);
    var (d3, end) := Conclude(d2);
    (Stream([], d3), tail + text + end)
  }

  // ---------------------------------------------------------------------------
  // The object

  class SseDecoder {
    const codec: Codec
    const thinking: F.InlineThinkingFilter
    var buf: seq<Byte>
    var tools: map<nat, Accum>
    var openBlocks: set<nat>
    var closedBlocks: nat
    var sawContentDelta: bool
    var inputTokens: nat
    var done: bool
    var warnedStopReason: bool
    var sawStopReason: bool

    function State(): Decoder
      reads this, thinking
    {
      Decoder(thinking.State(), tools, openBlocks, closedBlocks, sawContentDelta, inputTokens, done,
              warnedStopReason, sawStopReason)
    }

    function Whole(): Stream<Decoder>
      reads this, thinking
    {
      Stream(buf, State())
    }

    constructor (codec: Codec)
      ensures Whole() == Stream([], FRESH) && this.codec == codec && fresh(thinking)
    {
      this.codec := codec;
      thinking := new F.InlineThinkingFilter();
      buf, tools, openBlocks, closedBlocks, inputTokens := [], map[], {}, 0, 0;
      sawContentDelta, done, warnedStopReason, sawStopReason := false, false, false, false;
    }

    method FlushHeld() returns (items: seq<Item>)
      modifies thinking
      ensures State() == FlushThinking(old(State())).0
      ensures items == FlushThinking(old(State())).1
    {
      var events := thinking.FinishStream();
      items := AsItems(events);
    }

    method CompleteOnce() returns (items: seq<Item>)
      modifies this`done, thinking
      ensures State() == EmitDone(old(State())).0
      ensures items == EmitDone(old(State())).1
    {
      if done {
        return [];
      }
      items := FlushHeld();
      done := true;
      items := items + [Ok(Done)];
    }

    method ApplyDelta(index: nat, delta: Delta) returns (items: seq<Item>)
      modifies this`tools, thinking
      ensures State() == HandleDelta(old(State()), index, delta).0
      ensures items == HandleDelta(old(State()), index, delta).1
    {
      hide F.Push;
      items := [];
      match delta
      case TextPart(text) =>
        if text != "" {
          var events := thinking.PushDelta(text);
          items := AsItems(events);
        }
      case ThinkingPart(text) =>
        if text != "" {
          items := [Ok(ReasoningDelta(text))];
        }
      case InputPart(fragment) =>
        var acc := if index in tools then tools[index] else EMPTY_ACCUM;
        tools := tools[index := acc.(input := acc.input + fragment)];
      case OtherPart =>
    }

    method ApplyBlockStop(index: nat) returns (items: seq<Item>)
      modifies this`tools, this`openBlocks, this`closedBlocks
      ensures State() == HandleBlockStop(codec, old(State()), index).0
      ensures items == HandleBlockStop(codec, old(State()), index).1
    {
      hide FlushOne;
      if index in openBlocks {
        openBlocks := openBlocks - {index};
        closedBlocks := closedBlocks + 1;
      }
      if index !in tools {
        return [];
      }
      items := FlushOne(codec, tools[index]);
      tools := tools - {index};
    }

    method ApplyMessageDelta(outputTokens: Option<nat>, stopReason: Option<string>) returns (items: seq<Item>)
      modifies this`sawStopReason, this`warnedStopReason
      ensures State() == HandleMessageDelta(old(State()), outputTokens, stopReason).0
      ensures items == HandleMessageDelta(old(State()), outputTokens, stopReason).1
    {
      hide StopWarning;
      items := [];
      if outputTokens.Some? {
        items := [Ok(Usage(inputTokens, outputTokens.value))];
      }
      if stopReason.Some? {
        sawStopReason := true;
        if !warnedStopReason {
          if stopReason.value == "max_tokens" {
            warnedStopReason := true;
            return items + [Ok(OutputLimit("provider stopped at max_tokens; output may be truncated"))];
          }
          var message := StopWarning(stopReason.value);
          if message.Some? {
            warnedStopReason := true;
            items := items + [Ok(ProviderWarning(message.value))];
          }
        }
      }
    }

    method ApplyEvent(event: Event) returns (items: seq<Item>)
      modifies this`tools, this`openBlocks, this`closedBlocks, this`sawContentDelta, this`inputTokens, this`done,
               this`warnedStopReason, this`sawStopReason, thinking
      ensures State() == HandleEvent(codec, old(State()), event).0
      ensures items == HandleEvent(codec, old(State()), event).1
    {
      hide HandleDelta, HandleBlockStop, HandleMessageDelta, EmitDone;
      items := [];
      match event
      case MessageStart(n) => inputTokens := n;
      case BlockStart(index, tool) =>
        openBlocks := openBlocks + {index};
        if tool.Some? {
          var acc := if index in tools then tools[index] else EMPTY_ACCUM;
          tools := tools[index := acc.(id := tool.value.0, name := tool.value.1)];
        }
      case BlockDelta(index, delta) =>
        sawContentDelta := true;
        items := ApplyDelta(index, delta);
      case BlockStop(index) => items := ApplyBlockStop(index);
      case MessageDelta(outputTokens, stopReason) => items := ApplyMessageDelta(outputTokens, stopReason);
      case MessageStop =>
        if openBlocks == {} && (!sawContentDelta || closedBlocks > 0) {
          items := CompleteOnce();
        } else {
          done := true;
          items := [Err(LifecycleIncomplete)];
        }
      case StreamError(message) => items := [Err(ServerError(message))];
      case OtherEvent =>
    }

    method ApplyLine(line: string) returns (items: seq<Item>)
      modifies this`tools, this`openBlocks, this`closedBlocks, this`sawContentDelta, this`inputTokens, this`done,
               this`warnedStopReason, this`sawStopReason, thinking
      ensures State() == ProcessLine(codec, old(State()), line).0
      ensures items == ProcessLine(codec, old(State()), line).1
    {
      hide HandleEvent;
      if !(DATA <= line) {
        return [];
      }
      var payload := T.Trim(line[|DATA|..]);
      if payload == "" {
        return [];
      }
      match codec.parse(payload)
      case Ok(event) => items := ApplyEvent(event);
      case Err(detail) => items := [Err(BadPayload(detail))];
    }

    /** Buffers raw bytes and decodes every complete line. */
    method PushBytes(bytes: seq<Byte>) returns (items: seq<Item>)
      modifies this, thinking
      ensures Whole() == Push(Step(codec), old(Whole()), bytes).0
      ensures items == Push(Step(codec), old(Whole()), bytes).1
    {
      hide ProcessLine, ProcessAll, Cut;
      ghost var d0 := State();
      buf := buf + bytes;
      ghost var all := buf;
      items := [];
      ghost var lines: seq<seq<Byte>> := [];
      assert [] + Cut(buf).0 == Cut(buf).0;
      NothingToProcess(Step(codec), d0);
      while LF in buf
        invariant Cut(all).0 == lines + Cut(buf).0 && Cut(all).1 == Cut(buf).1
        invariant State() == ProcessAll(Step(codec), d0, lines).0
        invariant items == ProcessAll(Step(codec), d0, lines).1
        decreases |buf|
      {
        CutAt(buf);
        FoundNewline(buf);
        var pos := T.IndexOf(buf, LF);
        var line := buf[..pos + 1];
        buf := buf[pos + 1..];
        AllSnoc(Step(codec), d0, lines, line);
        var out := ApplyLine(T.Trim(codec.decode(line)));
        items := items + out;
        lines := lines + [line];
      }
      CutAt(buf);
      assert lines + [] == lines;
    }

    /** Flushes what is left at the end of the stream and settles the outcome. */
    method FinishStream() returns (items: seq<Item>)
      modifies this, thinking
      ensures Whole() == Finish(codec, old(Whole())).0
      ensures items == Finish(codec, old(Whole())).1
    {
      hide ProcessLine, FlushThinking, EmitDone;
      items := [];
      if buf != [] {
        var line := T.Trim(codec.decode(buf));
        buf := [];
        items := ApplyLine(line);
      }
      var text := FlushHeld();
      items := items + text;
      if !done {
        if sawStopReason && openBlocks == {} && (!sawContentDelta || closedBlocks > 0) {
          var end := CompleteOnce();
          items := items + end;
        } else {
          done := true;
          items := items + [Err(NoCompletionMarker)];
        }
      }
    }
  }
}
