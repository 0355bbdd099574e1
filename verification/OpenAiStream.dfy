/** The OpenAI-style event-stream decoder.

    JSON parsing and byte decoding are parameters (`Codec`): every claim holds for every total
    parser and decoder. */
module OpenAiStream {
  import opened Wrappers
  import opened Messages
  import opened Events
  import opened SseLines
  import F = ThinkFilter
  import T = Text

  /** One streamed piece of a tool call, as far as the decoder reads it. */
  datatype Fragment = Fragment(index: Option<nat>, id: Option<string>, name: Option<string>, args: Option<string>)

  datatype Choice = Choice(
    content: Option<string>, reasoning: Option<string>, fragments: seq<Fragment>, finish: Option<string>)

  datatype Chunk = Chunk(choice: Option<Choice>, usage: Option<(nat, nat)>)

  datatype Codec = Codec(
    decode: seq<Byte> -> string,
    parse: string -> Result<Chunk, string>,
    parseInput: string -> Result<Json, string>)

  /** The accumulation key: a server index when there is one, else the call id. */
  datatype ToolKey = Index(index: nat) | Id(id: string)

  datatype Accum = Accum(id: Option<string>, name: Option<string>, args: string)

  const EMPTY_ACCUM := Accum(None, None, "")

  /** Accumulators in key order. */
  type Tools = seq<(ToolKey, Accum)>

  datatype Decoder = Decoder(
    thinking: F.Filter,
    tools: Tools,
    lastKeyless: Option<ToolKey>,
    warned: set<string>,
    sawFinish: bool,
    outputLimited: bool,
    done: bool)

  const FRESH := Decoder(F.FRESH, [], None, {}, false, false, false)

  // ---------------------------------------------------------------------------
  // Tool accumulation

  predicate KeyLess(a: ToolKey, b: ToolKey) {
    match (a, b)
    case (Index(i), Index(j)) => i < j
    case (Index(_), Id(_)) => true
    case (Id(_), Index(_)) => false
    case (Id(s), Id(t)) => T.StringLess(s, t)
  }

  predicate NonEmpty(s: Option<string>) {
    s.Some? && s.value != ""
  }

  function KeyOf(last: Option<ToolKey>, f: Fragment): ToolKey {
    if f.index.Some? then Index(f.index.value)
    else if NonEmpty(f.id) then Id(f.id.value)
    else if last.Some? then last.value
    else Id("")
  }

  function NextLast(last: Option<ToolKey>, f: Fragment): Option<ToolKey> {
    if f.index.None? && NonEmpty(f.id) then Some(Id(f.id.value)) else last
  }

  function Absorb(acc: Accum, f: Fragment): Accum {
    Accum(
      if NonEmpty(f.id) then f.id else acc.id,
      if NonEmpty(f.name) then f.name else acc.name,
      acc.args + (if f.args.Some? then f.args.value else ""))
  }

  function Upsert(tools: Tools, key: ToolKey, f: Fragment): Tools {
    if tools == [] then [(key, Absorb(EMPTY_ACCUM, f))]
    else if tools[0].0 == key then [(key, Absorb(tools[0].1, f))] + tools[1..]
    else if KeyLess(key, tools[0].0) then [(key, Absorb(EMPTY_ACCUM, f))] + tools
    else [tools[0]] + Upsert(tools[1..], key, f)
  }

  /** Accumulators and the last id-keyed one, after some fragments. */
  datatype Gathering = Gathering(tools: Tools, last: Option<ToolKey>)

  function Gather(g: Gathering, fragments: seq<Fragment>): Gathering {
    if fragments == [] then g
    else
      var before := Gather(g, fragments[..|fragments| - 1]);
      var f := fragments[|fragments| - 1];
      Gathering(Upsert(before.tools, KeyOf(before.last, f), f), NextLast(before.last, f))
  }

  /** What one accumulator turns into when it is flushed. */
  function FlushOne(codec: Codec, acc: Accum): seq<Item> {
    if acc.name.None? then []
    else
      var input := if T.Trim(acc.args) == "" then Ok(Json("{}", true)) else codec.parseInput(acc.args);
      match input
      case Ok(json) => [Ok(ToolCall(if acc.id.Some? then acc.id.value else "", acc.name.value, json))]
      case Err(detail) => [Err(BadToolInput(detail))]
  }

  function FlushAll(codec: Codec, tools: Tools): seq<Item> {
    if tools == [] then []
    else FlushAll(codec, tools[..|tools| - 1]) + FlushOne(codec, tools[|tools| - 1].1)
  }

  // ---------------------------------------------------------------------------
  // Lines

  function FlushTools(codec: Codec, d: Decoder): (Decoder, seq<Item>) {
    (d.(tools := []), FlushAll(codec, d.tools))
  }

  function DiscardTools(d: Decoder): Decoder {
    d.(tools := [], lastKeyless := None)
  }

  function FlushThinking(d: Decoder): (Decoder, seq<Item>) {
    var (filter, events) := F.Finish(d.thinking);
    (d.(thinking := filter), AsItems(events))
  }

  function EmitDone(d: Decoder): (Decoder, seq<Item>) {
    if d.done then (d, [])
    else
      var (d', items) := FlushThinking(d);
      (d'.(done := true), items + [Ok(Done)])
  }

  function FinishWarning(reason: string): Option<string> {
    if reason == "stop" || reason == "tool_calls" then None
    else if reason == "function_call" then
      Some("provider returned a legacy function_call finish reason; no tool call was decoded")
    else if reason == "length" then
      Some("provider stopped because the token limit was reached; output may be truncated")
    else if reason == "content_filter" then Some("provider filtered part or all of the response")
    else if T.Trim(reason) == "" then None
    else Some("provider finished with reason `" + reason + "`")
  }

  function WarnForFinish(d: Decoder, reason: string): (Decoder, seq<Item>) {
    if reason in d.warned then (d, [])
    else
      var message := FinishWarning(reason);
      (d.(warned := d.warned + {reason}),
       if message.None? then []
       else if reason == "length" then [Ok(OutputLimit(message.value))]
       else [Ok(ProviderWarning(message.value))])
  }

  function HandleContent(d: Decoder, content: Option<string>): (Decoder, seq<Item>) {
    if !NonEmpty(content) then (d, [])
    else
      var (filter, events) := F.Push(d.thinking, content.value);
      (d.(thinking := filter), AsItems(events))
  }

  function HandleFragments(d: Decoder, fragments: seq<Fragment>): Decoder {
    var g := Gather(Gathering(d.tools, d.lastKeyless), fragments);
    d.(tools := g.tools, lastKeyless := g.last)
  }

  function HandleFinish(codec: Codec, d: Decoder, finish: Option<string>): (Decoder, seq<Item>) {
    if finish.None? then (d, [])
    else
      var reason := finish.value;
      var d1 := d.(sawFinish := true);
      var d2 := if reason == "length" then DiscardTools(d1.(outputLimited := true)) else d1;
      var (d3, calls) := if reason == "tool_calls" then FlushTools(codec, d2) else (d2, []);
      var (d4, warning) := WarnForFinish(d3, reason);
      (d4, calls + warning)
  }

  function HandleChoice(codec: Codec, d: Decoder, choice: Choice): (Decoder, seq<Item>) {
    var (d1, text) := HandleContent(d, choice.content);
    var reasoning := if NonEmpty(choice.reasoning) then [Ok(ReasoningDelta(choice.reasoning.value))] else [];
    var d2 := HandleFragments(d1, choice.fragments);
    var (d3, rest) := HandleFinish(codec, d2, choice.finish);
    (d3, text + reasoning + rest)
  }

  function HandleChunk(codec: Codec, d: Decoder, chunk: Chunk): (Decoder, seq<Item>) {
    var (d1, items) := if chunk.choice.Some? then HandleChoice(codec, d, chunk.choice.value) else (d, []);
    (d1, items + if chunk.usage.Some? then [Ok(Usage(chunk.usage.value.0, chunk.usage.value.1))] else [])
  }

  const DATA := "data:"

  function ProcessLine(codec: Codec, d: Decoder, line: string): (Decoder, seq<Item>) {
    if !(DATA <= line) then (d, [])
    else
      var payload := T.Trim(line[|DATA|..]);
      if payload == "[DONE]" then
        var (d1, calls) := FlushTools(codec, d);
        var (d2, end) := EmitDone(d1);
        (d2, calls + end)
      else match codec.parse(payload)
        case Ok(chunk) => HandleChunk(codec, d, chunk)
        case Err(detail) => (d, [Err(BadPayload(detail))])
  }

  function ProcessRaw(codec: Codec, d: Decoder, raw: seq<Byte>): (Decoder, seq<Item>) {
    ProcessLine(codec, d, T.Trim(codec.decode(raw)))
  }

  /** The decoder behind the line layer. */
  function Step(codec: Codec): (Decoder, seq<Byte>) -> (Decoder, seq<Item>) {
    (d, raw) => ProcessRaw(codec, d, raw)
  }

  function ProcessTail(codec: Codec, st: Stream<Decoder>): (Decoder, seq<Item>) {
    if st.buf == [] then (st.decoder, []) else ProcessRaw(codec, st.decoder, st.buf)
  }

  function CloseTools(codec: Codec, d: Decoder): (Decoder, seq<Item>) {
    if !d.outputLimited then FlushTools(codec, d) else (DiscardTools(d), [])
  }

  function Conclude(d: Decoder): (Decoder, seq<Item>) {
    if d.done then (d, [])
    else if d.sawFinish then EmitDone(d)
    else (d.(done := true), [Err(NoCompletionMarker)])
  }

  function Finish(codec: Codec, st: Stream<Decoder>): (Stream<Decoder>, seq<Item>) {
    var (d1, tail) := ProcessTail(codec, st);
    var (d2, text) := FlushThinking(d1);
    var (d3, calls) := CloseTools(codec, d2);
    var (d4, end) := Conclude(d3);
    (Stream([], d4), tail + text + calls + end)
  }
}
