/** Which tool calls the Anthropic decoder emits, over whole streams and in terms of the events
    the stream carries. */
module AnthropicCalls {
  import opened Wrappers
  import opened Messages
  import opened Events
  import opened SseLines
  import opened AnthropicStream
  import opened AnthropicLaws
  import F = ThinkFilter
  import T = Text

  // ---------------------------------------------------------------------------
  // Specification

  /** The events of one block since its last stop make up a call: something was assembled, it has
      a name, and its input is blank or parses. */
  predicate IsWhole(codec: Codec, index: nat, events: seq<Event>) {
    && Touches(index, events)
    && HeaderOf(index, events).1 != ""
    && (T.Trim(InputOf(index, events)) == "" || codec.parseInput(InputOf(index, events)).Ok?)
  }

  /** What an event comes to behind others: a stop makes a call of what its block has received since its last stop,
      under its latest id and name, or a complaint about the input; nothing without a name. */
  function OutcomeAt(codec: Codec, before: seq<Event>, e: Event): seq<Item> {
    if !e.BlockStop? then []
    else
      var own := SinceStop(e.index, before);
      var name, input := HeaderOf(e.index, own).1, InputOf(e.index, own);
      if !Touches(e.index, own) || name == "" then []
      else
        match if T.Trim(input) == "" then Ok(Json("{}", true)) else codec.parseInput(input)
        case Ok(json) => [Ok(ToolCall(HeaderOf(e.index, own).0, name, json))]
        case Err(detail) => [Err(BadToolInput(detail))]
  }

  lemma {:induction false} OutcomeIsFlush(codec: Codec, before: seq<Event>, e: Event)
    requires e.BlockStop?
    ensures var acc := Assembled(e.index, SinceStop(e.index, before));
            OutcomeAt(codec, before, e) == if acc.None? then [] else FlushOne(codec, acc.value)
  {
    hide SinceStop, Touches, HeaderOf, InputOf, T.Trim;
  }

  function OutcomesOf(codec: Codec, events: seq<Event>): seq<Item> {
    if events == [] then []
    else
      var before, e := events[..|events| - 1], events[|events| - 1];
      OutcomesOf(codec, before) + OutcomeAt(codec, before, e)
  }

  /** Event `i` stops a block whose events make up a call. */
  predicate CallsAt(codec: Codec, events: seq<Event>, i: nat)
    requires i < |events|
  {
    events[i].BlockStop? && IsWhole(codec, events[i].index, SinceStop(events[i].index, events[..i]))
  }

  // ---------------------------------------------------------------------------
  // One line

  lemma {:induction false} FlushIsOutcomes(codec: Codec, acc: Accum)
    ensures Outcomes(FlushOne(codec, acc)) == FlushOne(codec, acc) && Outcomes([]) == []
  {
    OutcomesAreAll(FlushOne(codec, acc));
  }

  lemma {:induction false} EndIsQuiet(d: Decoder)
    ensures Quiet(FlushThinking(d).1) && Quiet(EmitDone(d).1) && Quiet(Conclude(d).1)
  {
  }

  lemma {:induction false} DeltaIsQuiet(d: Decoder, index: nat, delta: Delta)
    ensures Quiet(HandleDelta(d, index, delta).1)
  {
    hide F.Drain;
    if delta.TextPart? {
      F.DrainIsText(d.thinking.inThinking, d.thinking.held + delta.text);
    }
  }

  lemma {:induction false} MessageDeltaIsQuiet(d: Decoder, outputTokens: Option<nat>, stopReason: Option<string>)
    ensures Quiet(HandleMessageDelta(d, outputTokens, stopReason).1)
  {
    hide StopWarning;
  }

  lemma {:induction false} OthersAreQuiet(codec: Codec, d: Decoder, e: Event)
    requires !e.BlockStop?
    ensures Quiet(HandleEvent(codec, d, e).1)
  {
    hide HandleDelta, HandleMessageDelta, HandleBlockStart, EmitDone;
    match e
    case BlockDelta(index, delta) => DeltaIsQuiet(d.(sawContentDelta := true), index, delta);
    case MessageDelta(outputTokens, stopReason) => MessageDeltaIsQuiet(d, outputTokens, stopReason);
    case MessageStop => EndIsQuiet(d);
    case _ =>
  }

  lemma {:induction false} EventOutcomes(codec: Codec, d: Decoder, e: Event)
    ensures Outcomes(HandleEvent(codec, d, e).1) ==
            if e.BlockStop? then HandleBlockStop(codec, d, e.index).1 else []
  {
    if e.BlockStop? {
      hide FlushOne, Outcomes;
      FlushIsOutcomes(codec, AccumAt(d, e.index));
    } else {
      hide HandleEvent, Outcomes;
      OthersAreQuiet(codec, d, e);
      QuietHasNone(HandleEvent(codec, d, e).1);
    }
  }

  /** The event of a raw line, if it carries one that parses. */
  function EventsIn(codec: Codec, raw: seq<Byte>): seq<Event> {
    match EventOf(codec, T.Trim(codec.decode(raw)))
    case Some(Ok(event)) => [event]
    case _ => []
  }

  lemma {:induction false} LineOutcomes(codec: Codec, d: Decoder, raw: seq<Byte>)
    ensures var events := EventsIn(codec, raw);
            Outcomes(ProcessRaw(codec, d, raw).1) ==
            if events == [] || !events[0].BlockStop? then [] else HandleBlockStop(codec, d, events[0].index).1
  {
    hide HandleEvent, HandleBlockStop, Outcomes;
    match EventOf(codec, T.Trim(codec.decode(raw)))
    case None => QuietHasNone([]);
    case Some(Ok(event)) => EventOutcomes(codec, d, event);
    case Some(Err(detail)) => QuietHasNone([Err(BadPayload(detail))]);
  }

  lemma {:induction false} EventsSnoc(codec: Codec, lines: seq<seq<Byte>>, raw: seq<Byte>)
    ensures EventsOf(codec, lines + [raw]) == EventsOf(codec, lines) + EventsIn(codec, raw)
  {
    var all := lines + [raw];
    assert all[..|all| - 1] == lines && all[|all| - 1] == raw;
  }

  lemma {:induction false} OutcomesSnoc(codec: Codec, events: seq<Event>, e: Event)
    ensures OutcomesOf(codec, events + [e]) == OutcomesOf(codec, events) + OutcomeAt(codec, events, e)
  {
    assert (events + [e])[..|events|] == events;
  }

  /** At every point of every stream, what the next line emits of calls and of complaints about
      their input is what the block it stops, if it stops one, has assembled since its last stop. */
  lemma {:induction false} StreamFlushes(codec: Codec, lines: seq<seq<Byte>>, raw: seq<Byte>)
    ensures var events, before := EventsIn(codec, raw), EventsOf(codec, lines);
            Outcomes(ProcessRaw(codec, ProcessAll(Step(codec), FRESH, lines).0, raw).1) ==
            if events == [] then [] else OutcomeAt(codec, before, events[0])
  {
    hide ProcessAll, ProcessLine, HandleBlockStop, Assembled, FlushOne, Outcomes, SinceStop, Touches, HeaderOf,
         InputOf, T.Trim;
    var events := EventsIn(codec, raw);
    LineOutcomes(codec, ProcessAll(Step(codec), FRESH, lines).0, raw);
    if events != [] && events[0].BlockStop? {
      StreamAssemblesTools(codec, lines, events[0].index);
      OutcomeIsFlush(codec, EventsOf(codec, lines), events[0]);
    }
  }

  // ---------------------------------------------------------------------------
  // Whole streams

  lemma {:induction false} LinesOutcomes(codec: Codec, lines: seq<seq<Byte>>)
    ensures Outcomes(ProcessAll(Step(codec), FRESH, lines).1) == OutcomesOf(codec, EventsOf(codec, lines))
  {
    hide ProcessAll, ProcessLine, Outcomes, OutcomesOf, OutcomeAt;
    if lines == [] {
      NothingToProcess(Step(codec), FRESH);
      NothingEmitted(codec);
    } else {
      var init, last := lines[..|lines| - 1], lines[|lines| - 1];
      assert lines == init + [last];
      var (d, items) := ProcessAll(Step(codec), FRESH, init);
      LinesOutcomes(codec, init);
      AllSnoc(Step(codec), FRESH, init, last);
      OutcomesConcat(items, ProcessRaw(codec, d, last).1);
      StreamFlushes(codec, init, last);
      EventsSnoc(codec, init, last);
      NextOutcomes(codec, EventsOf(codec, init), EventsIn(codec, last));
    }
  }

  lemma {:induction false} NothingEmitted(codec: Codec)
    ensures OutcomesOf(codec, []) == [] && Outcomes([]) == []
  {
  }

  lemma {:induction false} NextOutcomes(codec: Codec, before: seq<Event>, next: seq<Event>)
    requires |next| <= 1
    ensures OutcomesOf(codec, before + next) ==
            OutcomesOf(codec, before) + if next == [] then [] else OutcomeAt(codec, before, next[0])
  {
    if next == [] {
      assert before + next == before;
    } else {
      assert next == [next[0]];
      OutcomesSnoc(codec, before, next[0]);
    }
  }

  /** Over a whole stream, its unterminated line and its end included, the calls and the complaints
      about their input are exactly those of the blocks that stop, in that order; the end of the
      stream adds nothing of its own, whatever is left open. */
  lemma {:induction false} StreamEmitsBlocks(codec: Codec, lines: seq<seq<Byte>>, tail: seq<Byte>)
    ensures var (d, items) := ProcessAll(Step(codec), FRESH, lines);
            Outcomes(items + Finish(codec, Stream(tail, d)).1) ==
            OutcomesOf(codec, EventsOf(codec, WithTail(lines, tail)))
  {
    hide ProcessAll, ProcessLine, Outcomes, OutcomesOf, EventsOf, FlushThinking, Conclude, Quiet;
    var (d, items) := ProcessAll(Step(codec), FRESH, lines);
    var (d1, last) := ProcessTail(codec, Stream(tail, d));
    var (d2, text) := FlushThinking(d1);
    var end := Conclude(d2).1;
    EndIsQuiet(d1);
    EndIsQuiet(d2);
    QuietHasNone(text);
    QuietHasNone(end);
    OutcomesConcat(items, last + text + end);
    OutcomesConcat(last + text, end);
    OutcomesConcat(last, text);
    LinesOutcomes(codec, lines);
    if tail == [] {
      NothingEmitted(codec);
    } else {
      LinesOutcomes(codec, lines + [tail]);
      AllSnoc(Step(codec), FRESH, lines, tail);
      OutcomesConcat(items, last);
    }
  }

  lemma {:induction false} StopCalls(codec: Codec, events: seq<Event>, i: nat)
    requires i < |events|
    ensures HasCall(OutcomeAt(codec, events[..i], events[i])) <==> CallsAt(codec, events, i)
  {
    hide SinceStop, Touches, HeaderOf, InputOf;
    if CallsAt(codec, events, i) {
      assert IsCall(OutcomeAt(codec, events[..i], events[i])[0]);
    }
  }

  lemma {:induction false} EventsCall(codec: Codec, events: seq<Event>, n: nat)
    requires n <= |events|
    ensures HasCall(OutcomesOf(codec, events[..n])) <==> exists i :: 0 <= i < n && CallsAt(codec, events, i)
  {
    hide HasCall, OutcomeAt, CallsAt, OutcomesOf;
    if n == 0 {
      NothingEmitted(codec);
      NoCallInNothing();
    } else {
      EventsCall(codec, events, n - 1);
      assert events[..n] == events[..n - 1] + [events[n - 1]];
      OutcomesSnoc(codec, events[..n - 1], events[n - 1]);
      StopCalls(codec, events, n - 1);
      HasCallConcat(OutcomesOf(codec, events[..n - 1]), OutcomeAt(codec, events[..n - 1], events[n - 1]));
    }
  }

  /** Which whole streams emit a tool call: exactly those in which some block stops whose events
      since its last stop name a tool and hold an input that is blank or parses. */
  lemma {:induction false} StreamCallsExactlyWhen(codec: Codec, lines: seq<seq<Byte>>, tail: seq<Byte>)
    ensures var (d, items) := ProcessAll(Step(codec), FRESH, lines);
            var events := EventsOf(codec, WithTail(lines, tail));
            HasCall(items + Finish(codec, Stream(tail, d)).1) <==>
            exists i :: 0 <= i < |events| && CallsAt(codec, events, i)
  {
    hide ProcessAll, Finish, HasCall, Outcomes, OutcomesOf, EventsOf, CallsAt;
    var (d, items) := ProcessAll(Step(codec), FRESH, lines);
    var events := EventsOf(codec, WithTail(lines, tail));
    StreamEmitsBlocks(codec, lines, tail);
    CallsAreOutcomes(items + Finish(codec, Stream(tail, d)).1);
    EventsCall(codec, events, |events|);
    assert events[..|events|] == events;
  }
}
