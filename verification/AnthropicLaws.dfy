/** What the Anthropic decoder guarantees over whole streams. */
module AnthropicLaws {
  import opened Wrappers
  import opened Messages
  import opened Events
  import opened SseLines
  import opened AnthropicStream
  import F = ThinkFilter
  import T = Text

  // ---------------------------------------------------------------------------
  // Terminal events

  /** An error that ends the stream. */
  predicate IsEnd(item: Item) {
    item == Err(NoCompletionMarker) || item == Err(LifecycleIncomplete)
  }

  ghost predicate NoDone(items: seq<Item>) {
    forall i :: 0 <= i < |items| ==> !IsDone(items[i])
  }

  ghost predicate NoEnd(items: seq<Item>) {
    forall i :: 0 <= i < |items| ==> !IsEnd(items[i])
  }

  ghost predicate HasTerminal(items: seq<Item>) {
    exists i :: 0 <= i < |items| && (IsDone(items[i]) || IsEnd(items[i]))
  }

  /** `Done` comes at most once, and never after a stream-ending error. */
  ghost predicate Ordered(items: seq<Item>) {
    forall i, j :: 0 <= i < j < |items| && (IsDone(items[i]) || IsEnd(items[i])) ==> !IsDone(items[j])
  }

  /** How one stretch of processing moves `done`, and what it may emit. */
  ghost predicate Moves(before: Decoder, after: Decoder, items: seq<Item>) {
    && (before.done ==> after.done && NoDone(items))
    && (!after.done ==> NoDone(items) && NoEnd(items))
    && (!before.done && after.done ==> HasTerminal(items))
    && Ordered(items)
  }

  lemma {:induction false} MovesJoin(a: Decoder, b: Decoder, c: Decoder, first: seq<Item>, second: seq<Item>)
    requires Moves(a, b, first) && Moves(b, c, second)
    ensures Moves(a, c, first + second)
  {
    var all := first + second;
    forall i | 0 <= i < |all| ensures all[i] == if i < |first| then first[i] else second[i - |first|] {
    }
    if HasTerminal(first) {
      var i :| 0 <= i < |first| && (IsDone(first[i]) || IsEnd(first[i]));
      assert all[i] == first[i];
    }
    if HasTerminal(second) {
      var i :| 0 <= i < |second| && (IsDone(second[i]) || IsEnd(second[i]));
      assert all[|first| + i] == second[i];
    }
  }

  lemma {:induction false} QuietMoves(a: Decoder, b: Decoder, items: seq<Item>)
    requires a.done == b.done && NoDone(items) && NoEnd(items)
    ensures Moves(a, b, items)
  {
  }

  lemma {:induction false} DoneMoves(d: Decoder)
    ensures Moves(d, EmitDone(d).0, EmitDone(d).1) && EmitDone(d).0.done
  {
    if !d.done {
      var text := FlushThinking(d).1;
      var items := EmitDone(d).1;
      assert items[|items| - 1] == Ok(Done);
      forall i | 0 <= i < |items| - 1 ensures items[i] == text[i] && !IsDone(items[i]) && !IsEnd(items[i]) {
      }
    }
  }

  lemma {:induction false} EndMoves(d: Decoder, item: Item)
    requires IsEnd(item)
    ensures Moves(d, d.(done := true), [item])
  {
    assert IsEnd([item][0]);
  }

  lemma {:induction false} StopMoves(codec: Codec, d: Decoder)
    ensures var (d', items) := HandleEvent(codec, d, MessageStop); Moves(d, d', items)
  {
    hide Moves, EmitDone;
    DoneMoves(d);
    EndMoves(d, Err(LifecycleIncomplete));
  }

  lemma {:induction false} EventMoves(codec: Codec, d: Decoder, event: Event)
    ensures var (d', items) := HandleEvent(codec, d, event); Moves(d, d', items)
  {
    hide F.Push, F.Drain, EmitDone, StopWarning, FlushOne, Moves;
    var (d', items) := HandleEvent(codec, d, event);
    match event
    case MessageStart(_) => QuietMoves(d, d', items);
    case BlockStart(_, _) => QuietMoves(d, d', items);
    case BlockDelta(_, delta) =>
      if delta.TextPart? {
        PushIsQuiet(d.thinking, delta.text);
      }
      QuietMoves(d, d', items);
    case BlockStop(index) =>
      if index in d.tools {
        FlushIsQuiet(codec, d.tools[index]);
      }
      QuietMoves(d, d', items);
    case MessageDelta(_, _) => QuietMoves(d, d', items);
    case MessageStop => StopMoves(codec, d);
    case StreamError(_) => QuietMoves(d, d', items);
    case OtherEvent => QuietMoves(d, d', items);
  }

  lemma {:induction false} PushIsQuiet(f: F.Filter, text: string)
    ensures NoDone(AsItems(F.Push(f, text).1)) && NoEnd(AsItems(F.Push(f, text).1))
  {
    F.DrainIsText(f.inThinking, f.held + text);
  }

  lemma {:induction false} FlushIsQuiet(codec: Codec, acc: Accum)
    ensures NoDone(FlushOne(codec, acc)) && NoEnd(FlushOne(codec, acc))
  {
  }

  lemma {:induction false} LineMoves(codec: Codec, d: Decoder, line: string)
    ensures var (d', items) := ProcessLine(codec, d, line); Moves(d, d', items)
  {
    hide HandleEvent;
    match EventOf(codec, line)
    case None => QuietMoves(d, d, []);
    case Some(Ok(event)) => EventMoves(codec, d, event);
    case Some(Err(detail)) => QuietMoves(d, d, [Err(BadPayload(detail))]);
  }

  lemma {:induction false} AllMoves(codec: Codec, d: Decoder, lines: seq<seq<Byte>>)
    ensures var (d', items) := ProcessAll(Step(codec), d, lines); Moves(d, d', items)
    decreases |lines|
  {
    hide ProcessLine, ProcessAll, Moves;
    if lines == [] {
      NothingToProcess(Step(codec), d);
      QuietMoves(d, d, []);
    } else {
      AllStep(Step(codec), d, lines);
      var (d1, items) := ProcessRaw(codec, d, lines[0]);
      LineMoves(codec, d, T.Trim(codec.decode(lines[0])));
      AllMoves(codec, d1, lines[1..]);
      var (d2, rest) := ProcessAll(Step(codec), d1, lines[1..]);
      MovesJoin(d, d1, d2, items, rest);
    }
  }

  lemma {:induction false} ConcludeMoves(d: Decoder)
    ensures var (d', items) := Conclude(d); Moves(d, d', items) && d'.done
    ensures d.thinking.held == "" ==> Conclude(d).0.thinking.held == ""
  {
    if d.done {
      QuietMoves(d, d, []);
    } else {
      DoneMoves(d);
      EndMoves(d, Err(NoCompletionMarker));
    }
  }

  lemma {:induction false} FinishMoves(codec: Codec, st: Stream<Decoder>)
    ensures var (st', items) := Finish(codec, st);
            && Moves(st.decoder, st'.decoder, items)
            && st'.buf == [] && st'.decoder.done && st'.decoder.thinking.held == ""
  {
    hide ProcessLine, Conclude, Moves;
    var d := st.decoder;
    var (d1, tail) := ProcessTail(codec, st);
    if st.buf == [] {
      QuietMoves(d, d, []);
    } else {
      LineMoves(codec, d, T.Trim(codec.decode(st.buf)));
    }
    var (d2, text) := FlushThinking(d1);
    QuietMoves(d1, d2, text);
    ConcludeMoves(d2);
    var (d3, end) := Conclude(d2);
    MovesJoin(d, d1, d2, tail, text);
    MovesJoin(d, d2, d3, tail + text, end);
  }

  lemma {:induction false} FinishedStaysQuiet(codec: Codec, st: Stream<Decoder>)
    requires st.buf == [] && st.decoder.done && st.decoder.thinking.held == ""
    ensures Finish(codec, st) == (st, [])
  {
    var d := st.decoder;
    assert F.Finish(d.thinking) == (d.thinking, []);
    assert AsItems([]) == [];
    assert ProcessTail(codec, st) == (d, []);
    assert FlushThinking(d) == (d, []);
    assert Conclude(d) == (d, []);
    var none: seq<Item> := [];
    assert none + none + none == none;
  }

  /** Every stream, however it goes and however it is cut, ends in a terminal event; `Done` is
      emitted at most once and never after a lifecycle error; finishing again adds nothing. */
  lemma {:induction false} StreamTerminates(codec: Codec, chunks: seq<seq<Byte>>)
    ensures var (st, items) := Feed(Step(codec), Stream([], FRESH), chunks);
            var (end, tail) := Finish(codec, st);
            && HasTerminal(items + tail)
            && Ordered(items + tail)
            && Finish(codec, end) == (end, [])
  {
    hide Finish, ProcessAll;
    var start := Stream([], FRESH);
    var (st, items) := Feed(Step(codec), start, chunks);
    StreamIsChunkInvariant(Step(codec), start, chunks);
    AllMoves(codec, FRESH, Cut([] + Joined(chunks)).0);
    FinishMoves(codec, st);
    var (end, tail) := Finish(codec, st);
    MovesJoin(FRESH, st.decoder, end.decoder, items, tail);
    FinishedStaysQuiet(codec, end);
  }

  // ---------------------------------------------------------------------------
  // Tool assembly

  /** The events after the last stop of block `index`. */
  function SinceStop(index: nat, events: seq<Event>): seq<Event> {
    if events == [] then []
    else
      var last := events[|events| - 1];
      if last == BlockStop(index) then [] else SinceStop(index, events[..|events| - 1]) + [last]
  }

  predicate StartsTool(index: nat, e: Event) {
    e.BlockStart? && e.index == index && e.tool.Some?
  }

  predicate FeedsTool(index: nat, e: Event) {
    e.BlockDelta? && e.index == index && e.delta.InputPart?
  }

  /** The tool input of block `index`: its fragments, in order. */
  function InputOf(index: nat, events: seq<Event>): string {
    if events == [] then ""
    else
      var last := events[|events| - 1];
      InputOf(index, events[..|events| - 1]) + if FeedsTool(index, last) then last.delta.fragment else ""
  }

  /** Id and name of block `index`, from its latest start. */
  function HeaderOf(index: nat, events: seq<Event>): (string, string) {
    if events == [] then ("", "")
    else
      var last := events[|events| - 1];
      if StartsTool(index, last) then last.tool.value else HeaderOf(index, events[..|events| - 1])
  }

  predicate Touches(index: nat, events: seq<Event>) {
    exists i :: 0 <= i < |events| && (StartsTool(index, events[i]) || FeedsTool(index, events[i]))
  }

  function Assembled(index: nat, events: seq<Event>): Option<Accum> {
    if !Touches(index, events) then None
    else Some(Accum(HeaderOf(index, events).0, HeaderOf(index, events).1, InputOf(index, events)))
  }

  function Lookup(d: Decoder, index: nat): Option<Accum> {
    if index in d.tools then Some(d.tools[index]) else None
  }

  /** How one event moves the accumulator of one block. */
  function Track(acc: Option<Accum>, index: nat, e: Event): Option<Accum> {
    var was := if acc.Some? then acc.value else EMPTY_ACCUM;
    if e == BlockStop(index) then None
    else if StartsTool(index, e) then Some(was.(id := e.tool.value.0, name := e.tool.value.1))
    else if FeedsTool(index, e) then Some(was.(input := was.input + e.delta.fragment))
    else acc
  }

  lemma {:induction false} EventTracks(codec: Codec, d: Decoder, index: nat, e: Event)
    ensures Lookup(HandleEvent(codec, d, e).0, index) == Track(Lookup(d, index), index, e)
  {
    hide F.Push, F.Finish, StopWarning, FlushOne;
  }

  lemma {:induction false} UntouchedIsEmpty(index: nat, events: seq<Event>)
    requires !Touches(index, events)
    ensures HeaderOf(index, events) == ("", "") && InputOf(index, events) == ""
  {
    if events != [] {
      var init := events[..|events| - 1];
      assert !StartsTool(index, events[|events| - 1]) && !FeedsTool(index, events[|events| - 1]);
      forall i | 0 <= i < |init| ensures !StartsTool(index, init[i]) && !FeedsTool(index, init[i]) {
        assert init[i] == events[i];
      }
      UntouchedIsEmpty(index, init);
    }
  }

  lemma {:induction false} TouchesSnoc(index: nat, events: seq<Event>, e: Event)
    ensures Touches(index, events + [e]) <==> Touches(index, events) || StartsTool(index, e) || FeedsTool(index, e)
  {
    var all := events + [e];
    assert all[|events|] == e;
    if Touches(index, events) {
      var i :| 0 <= i < |events| && (StartsTool(index, events[i]) || FeedsTool(index, events[i]));
      assert all[i] == events[i];
    }
  }

  lemma {:induction false} AssembledTracks(index: nat, events: seq<Event>, e: Event)
    requires e != BlockStop(index)
    ensures Assembled(index, events + [e]) == Track(Assembled(index, events), index, e)
  {
    var all := events + [e];
    assert all[..|all| - 1] == events && all[|all| - 1] == e;
    TouchesSnoc(index, events, e);
    if !Touches(index, events) {
      UntouchedIsEmpty(index, events);
    }
    hide Touches;
    assert HeaderOf(index, all) == if StartsTool(index, e) then e.tool.value else HeaderOf(index, events);
    assert InputOf(index, all) == InputOf(index, events) + if FeedsTool(index, e) then e.delta.fragment else "";
    if !FeedsTool(index, e) {
      assert InputOf(index, all) == InputOf(index, events);
    }
  }

  function HandleAll(codec: Codec, d: Decoder, events: seq<Event>): Decoder {
    if events == [] then d else HandleEvent(codec, HandleAll(codec, d, events[..|events| - 1]), events[|events| - 1]).0
  }

  /** Interleaved blocks never mix: at every point, what is assembled for a block is exactly its
      own fragments since its last stop, in order, under its latest id and name. */
  lemma {:induction false} BlocksAreDemultiplexed(codec: Codec, events: seq<Event>, index: nat)
    ensures Lookup(HandleAll(codec, FRESH, events), index) == Assembled(index, SinceStop(index, events))
  {
    hide HandleEvent, Assembled, Track;
    if events == [] {
      NothingAssembled(index);
    } else {
      var init, e := events[..|events| - 1], events[|events| - 1];
      BlocksAreDemultiplexed(codec, init, index);
      EventTracks(codec, HandleAll(codec, FRESH, init), index, e);
      if e == BlockStop(index) {
        NothingAssembled(index);
        StopForgets(Lookup(HandleAll(codec, FRESH, init), index), index);
      } else {
        AssembledTracks(index, SinceStop(index, init), e);
      }
    }
  }

  lemma {:induction false} NothingAssembled(index: nat)
    ensures Assembled(index, []) == None
  {
  }

  lemma {:induction false} StopForgets(acc: Option<Accum>, index: nat)
    ensures Track(acc, index, BlockStop(index)) == None
  {
  }

  /** The events a run of lines carries. */
  function EventsOf(codec: Codec, lines: seq<seq<Byte>>): seq<Event> {
    if lines == [] then []
    else
      var e := EventOf(codec, T.Trim(codec.decode(lines[|lines| - 1])));
      EventsOf(codec, lines[..|lines| - 1]) + match e case Some(Ok(event)) => [event] case _ => []
  }

  lemma {:induction false} LinesAreEvents(codec: Codec, lines: seq<seq<Byte>>)
    ensures ProcessAll(Step(codec), FRESH, lines).0 == HandleAll(codec, FRESH, EventsOf(codec, lines))
  {
    hide ProcessAll, HandleEvent, EventOf;
    if lines == [] {
      NothingToProcess(Step(codec), FRESH);
    } else {
      var init, last := lines[..|lines| - 1], lines[|lines| - 1];
      assert lines == init + [last];
      LinesAreEvents(codec, init);
      AllSnoc(Step(codec), FRESH, init, last);
      var before := EventsOf(codec, init);
      var e := EventOf(codec, T.Trim(codec.decode(last)));
      match e
      case Some(Ok(event)) =>
        assert (before + [event])[..|before|] == before;
      case _ =>
        assert before + [] == before;
    }
  }

  /** The same for streams of lines: the emitted call of a stopping block is assembled from
      exactly its own fragments. */
  lemma {:induction false} StreamAssemblesTools(codec: Codec, lines: seq<seq<Byte>>, index: nat)
    ensures var d := ProcessAll(Step(codec), FRESH, lines).0;
            var acc := Assembled(index, SinceStop(index, EventsOf(codec, lines)));
            && Lookup(d, index) == acc
            && HandleBlockStop(codec, d, index).1 == if acc.None? then [] else FlushOne(codec, acc.value)
  {
    hide ProcessAll, Assembled, FlushOne;
    LinesAreEvents(codec, lines);
    BlocksAreDemultiplexed(codec, EventsOf(codec, lines), index);
  }
}
