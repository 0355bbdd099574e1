/** What the Anthropic decoder shows of a stream besides tool calls, and when it lets the stream end well: text,
    thinking, usage, warnings and the block lifecycle, told from the parsed events alone. */
module AnthropicText {
  import opened Wrappers
  import opened Messages
  import opened Events
  import opened SseLines
  import opened AnthropicStream
  import opened AnthropicLaws
  import opened AnthropicCalls
  import opened Showing
  import F = ThinkFilter
  import T = Text
  import Markup

  // ---------------------------------------------------------------------------
  // What some events come to

  /** Block `index` was started and has not stopped since. */
  ghost predicate OpenIn(events: seq<Event>, index: nat) {
    exists i :: 0 <= i < |events| && OpensAt(events, i, index)
  }

  predicate OpensAt(events: seq<Event>, i: nat, index: nat)
    requires i < |events|
  {
    events[i].BlockStart? && events[i].index == index && forall j :: i < j < |events| ==> events[j] != BlockStop(index)
  }

  /** Some block was stopped while it was open. */
  ghost predicate ClosedIn(events: seq<Event>) {
    exists i :: 0 <= i < |events| && events[i].BlockStop? && OpenIn(events[..i], events[i].index)
  }

  ghost predicate DeltaIn(events: seq<Event>) {
    exists i :: 0 <= i < |events| && events[i].BlockDelta?
  }

  ghost predicate StopReasonIn(events: seq<Event>) {
    exists i :: 0 <= i < |events| && events[i].MessageDelta? && events[i].stopReason.Some?
  }

  /** No block is open, and content was closed if there was any. */
  ghost predicate Complete(events: seq<Event>) {
    (forall index :: !OpenIn(events, index)) && (DeltaIn(events) ==> ClosedIn(events))
  }

  /** The input tokens of the latest start of a message. */
  function InputTokens(events: seq<Event>): nat {
    if events == [] then 0
    else if events[|events| - 1].MessageStart? then events[|events| - 1].inputTokens
    else InputTokens(events[..|events| - 1])
  }

  // ---------------------------------------------------------------------------
  // A reader of events

  /** The events so far, the text read since the held text was last given out with the mode it was read in, and
      whether a stop reason was warned of and the stream settled. */
  datatype Reader = Reader(events: seq<Event>, inThinking: bool, text: string, warned: bool, done: bool)

  const UNREAD := Reader([], false, "", false, false)

  function GivenOut(r: Reader): Reader {
    r.(inThinking := F.ModeAfter(r.inThinking, r.text), text := "")
  }

  function TextOf(e: Event): string {
    if e.BlockDelta? && e.delta.TextPart? then e.delta.text else ""
  }

  function ThinkingOf(e: Event): string {
    if e.BlockDelta? && e.delta.ThinkingPart? then e.delta.text else ""
  }

  /** Stop reasons nobody needs to hear of. */
  predicate Ordinary(reason: string) {
    reason == "end_turn" || reason == "tool_use" || T.AllSpace(reason)
  }

  function NoticeText(reason: string): string {
    if reason == "pause_turn" then
      "provider paused during server-tool processing; a continuation may be required"
    else if reason == "refusal" then "provider refused the request"
    else if reason == "stop_sequence" then
      "provider stopped at a configured stop sequence; output may be partial"
    else "provider stopped with reason `" + reason + "`"
  }

  /** What the first stop reason worth a word makes the decoder say. */
  function NoticeOf(reason: string): seq<Item> {
    if reason == "max_tokens" then [Ok(OutputLimit("provider stopped at max_tokens; output may be truncated"))]
    else if Ordinary(reason) then []
    else [Ok(ProviderWarning(NoticeText(reason)))]
  }

  function NoticeAt(r: Reader, e: Event): seq<Item> {
    if r.warned || !e.MessageDelta? || e.stopReason.None? then [] else NoticeOf(e.stopReason.value)
  }

  function UsageAt(r: Reader, e: Event): seq<Item> {
    if e.MessageDelta? && e.outputTokens.Some? then [Ok(Usage(InputTokens(r.events), e.outputTokens.value))] else []
  }

  /** The message ends and the stream was not settled before. */
  ghost predicate GivesOutAt(r: Reader, e: Event) {
    e.MessageStop? && Complete(r.events) && !r.done
  }

  ghost function ReaderAfter(r: Reader, e: Event): Reader {
    var next := r.(
      events := r.events + [e], text := r.text + TextOf(e), warned := r.warned || NoticeAt(r, e) != [],
      done := r.done || e.MessageStop?);
    if GivesOutAt(r, e) then GivenOut(next) else next
  }

  /** What an event shows: its text as far as it can no longer be part of a tag, labelled as the one-pass reference
      labels it; its thinking; at the end of a complete message what was held back. */
  ghost function SpeechAt(r: Reader, e: Event): seq<F.Labeled> {
    if GivesOutAt(r, e) then F.HeldBack(r.inThinking, r.text)
    else
      var before, after := F.Shown(r.inThinking, r.text), F.Shown(r.inThinking, r.text + TextOf(e));
      (if |before| <= |after| then after[|before|..] else []) + F.Label(true, ThinkingOf(e))
  }

  // ---------------------------------------------------------------------------
  // One event

  lemma {:induction false} OpenSnoc(events: seq<Event>, e: Event, index: nat)
    ensures OpenIn(events + [e], index) <==>
            (e.BlockStart? && e.index == index) || (OpenIn(events, index) && e != BlockStop(index))
  {
    var all := events + [e];
    if e.BlockStart? && e.index == index {
      assert OpensAt(all, |events|, index);
    }
    if OpenIn(events, index) && e != BlockStop(index) {
      var i :| 0 <= i < |events| && OpensAt(events, i, index);
      assert OpensAt(all, i, index);
    }
    if OpenIn(all, index) && !(e.BlockStart? && e.index == index) {
      var i :| 0 <= i < |all| && OpensAt(all, i, index);
      assert i < |events|;
      assert all[|events|] == e;
      assert forall j :: i < j < |events| ==> all[j] == events[j];
      assert OpensAt(events, i, index);
    }
  }

  lemma {:induction false} ClosedSnoc(events: seq<Event>, e: Event)
    ensures ClosedIn(events + [e]) <==> ClosedIn(events) || (e.BlockStop? && OpenIn(events, e.index))
  {
    hide OpenIn;
    var all := events + [e];
    assert all[..|events|] == events && all[|events|] == e;
    if ClosedIn(events) {
      var i :| 0 <= i < |events| && events[i].BlockStop? && OpenIn(events[..i], events[i].index);
      assert all[..i] == events[..i] && all[i] == events[i];
    }
    if ClosedIn(all) && !(e.BlockStop? && OpenIn(events, e.index)) {
      var i :| 0 <= i < |all| && all[i].BlockStop? && OpenIn(all[..i], all[i].index);
      assert i < |events|;
      assert all[..i] == events[..i] && all[i] == events[i];
    }
  }

  lemma {:induction false} SeenSnoc(events: seq<Event>, e: Event)
    ensures DeltaIn(events + [e]) <==> DeltaIn(events) || e.BlockDelta?
    ensures StopReasonIn(events + [e]) <==> StopReasonIn(events) || (e.MessageDelta? && e.stopReason.Some?)
    ensures InputTokens(events + [e]) == if e.MessageStart? then e.inputTokens else InputTokens(events)
  {
    var all := events + [e];
    assert all[..|events|] == events && all[|events|] == e;
    assert forall i :: 0 <= i < |events| ==> all[i] == events[i];
    if DeltaIn(events) {
      var i :| 0 <= i < |events| && events[i].BlockDelta?;
      assert all[i].BlockDelta?;
    }
    if StopReasonIn(events) {
      var i :| 0 <= i < |events| && events[i].MessageDelta? && events[i].stopReason.Some?;
      assert all[i] == events[i];
    }
    if DeltaIn(all) && !e.BlockDelta? {
      var i :| 0 <= i < |all| && all[i].BlockDelta?;
      assert events[i].BlockDelta?;
    }
    if StopReasonIn(all) && !(e.MessageDelta? && e.stopReason.Some?) {
      var i :| 0 <= i < |all| && all[i].MessageDelta? && all[i].stopReason.Some?;
      assert events[i] == all[i];
    }
  }

  /** What the decoder knows of the message is what the events say. */
  ghost predicate Knows(d: Decoder, events: seq<Event>) {
    && (forall index :: index in d.openBlocks <==> OpenIn(events, index))
    && (d.closedBlocks > 0 <==> ClosedIn(events))
    && (d.sawContentDelta <==> DeltaIn(events))
    && (d.sawStopReason <==> StopReasonIn(events))
    && d.inputTokens == InputTokens(events)
  }

  /** How an event moves what the decoder knows. */
  ghost predicate MovesBlocks(d: Decoder, e: Event, d': Decoder) {
    && d'.openBlocks == (if e.BlockStart? then d.openBlocks + {e.index}
                         else if e.BlockStop? then d.openBlocks - {e.index} else d.openBlocks)
    && (d'.closedBlocks > 0 <==> d.closedBlocks > 0 || (e.BlockStop? && e.index in d.openBlocks))
    && (d'.sawContentDelta <==> d.sawContentDelta || e.BlockDelta?)
    && (d'.sawStopReason <==> d.sawStopReason || (e.MessageDelta? && e.stopReason.Some?))
    && d'.inputTokens == if e.MessageStart? then e.inputTokens else d.inputTokens
  }

  lemma {:induction false} EventMovesBlocks(codec: Codec, d: Decoder, e: Event)
    ensures MovesBlocks(d, e, HandleEvent(codec, d, e).0)
  {
    hide HandleDelta, HandleMessageDelta, EmitDone, FlushOne;
    match e
    case BlockDelta(index, delta) => DeltaKeeps(d.(sawContentDelta := true), index, delta);
    case MessageDelta(outputTokens, stopReason) => MessageDeltaKeeps(d, outputTokens, stopReason);
    case MessageStop => DoneKeeps(d);
    case _ =>
  }

  lemma {:induction false} DeltaKeeps(d: Decoder, index: nat, delta: Delta)
    ensures var d' := HandleDelta(d, index, delta).0; d' == d.(thinking := d'.thinking, tools := d'.tools)
  {
    hide F.Push;
  }

  lemma {:induction false} MessageDeltaKeeps(d: Decoder, outputTokens: Option<nat>, stopReason: Option<string>)
    ensures var d' := HandleMessageDelta(d, outputTokens, stopReason).0;
            d' == d.(warnedStopReason := d'.warnedStopReason, sawStopReason := d.sawStopReason || stopReason.Some?)
  {
    hide StopWarning;
  }

  lemma {:induction false} DoneKeeps(d: Decoder)
    ensures var d' := EmitDone(d).0; d' == d.(thinking := d'.thinking, done := d'.done)
  {
    hide F.Finish;
  }

  lemma {:induction false} KnowsNext(codec: Codec, d: Decoder, events: seq<Event>, e: Event)
    requires Knows(d, events)
    ensures Knows(HandleEvent(codec, d, e).0, events + [e])
  {
    hide OpenIn, ClosedIn, DeltaIn, StopReasonIn, InputTokens, HandleEvent;
    EventMovesBlocks(codec, d, e);
    ClosedSnoc(events, e);
    SeenSnoc(events, e);
    var d' := HandleEvent(codec, d, e).0;
    forall index ensures index in d'.openBlocks <==> OpenIn(events + [e], index) {
      OpenSnoc(events, e, index);
    }
  }

  lemma {:induction false} KnowsComplete(d: Decoder, events: seq<Event>)
    requires Knows(d, events)
    ensures d.openBlocks == {} && ContentComplete(d) <==> Complete(events)
  {
    hide OpenIn, ClosedIn, DeltaIn, StopReasonIn, InputTokens;
    if Complete(events) {
      assert forall index :: index !in d.openBlocks;
    }
  }

  /** The filter and the flags are where the reader is. */
  ghost predicate Follows(d: Decoder, r: Reader) {
    d.thinking == F.Drain(r.inThinking, r.text).0 && d.warnedStopReason == r.warned && d.done == r.done
  }

  /** The decoder has read what the reader has read. */
  ghost predicate Agrees(d: Decoder, r: Reader) {
    Follows(d, r) && Knows(d, r.events)
  }

  /** What an event emits, the calls of a stopping block aside: the text and the thinking of a delta; the usage and
      then the notice of a message delta; at the end of a complete message the text held back and `Done`, once; a
      fault for a message that stops too early and for an error event. */
  ghost predicate EventItems(r: Reader, e: Event, text: seq<Item>, items: seq<Item>) {
    match e
    case BlockDelta(_, _) =>
      && items == text + Thought(ThinkingOf(e)) && OnlyText(text)
      && F.Speech(text) + F.Label(true, ThinkingOf(e)) == SpeechAt(r, e)
    case MessageDelta(_, _) => items == UsageAt(r, e) + NoticeAt(r, e)
    case MessageStop =>
      if !Complete(r.events) then items == [Err(LifecycleIncomplete)]
      else if r.done then items == []
      else items == text + [Ok(Done)] && OnlyText(text) && F.Speech(text) == SpeechAt(r, e)
    case StreamError(message) => items == [Err(ServerError(message))]
    case _ => items == []
  }

  lemma {:induction false} WordsAreNotSpace()
    ensures !T.AllSpace("pause_turn") && !T.AllSpace("refusal") && !T.AllSpace("stop_sequence")
  {
    assert !T.IsSpace("pause_turn"[0]) && !T.IsSpace("refusal"[0]) && !T.IsSpace("stop_sequence"[0]);
  }

  lemma {:induction false} NoticeTexts(reason: string)
    ensures StopWarning(reason) == if Ordinary(reason) then None else Some(NoticeText(reason))
  {
    hide T.Trim, T.AllSpace;
    WordsAreNotSpace();
    Markup.TrimIsEmpty(reason);
  }

  lemma {:induction false} WarningIs(d: Decoder, reason: string)
    ensures var (d', items) := WarnForStop(d, reason);
            && items == (if d.warnedStopReason then [] else NoticeOf(reason))
            && d' == d.(warnedStopReason := d.warnedStopReason || NoticeOf(reason) != [])
  {
    hide Ordinary, NoticeText, StopWarning;
    NoticeTexts(reason);
  }

  lemma {:induction false} NoticeIs(d: Decoder, r: Reader, outputTokens: Option<nat>, stopReason: Option<string>)
    requires Agrees(d, r)
    ensures var (d', items) := HandleMessageDelta(d, outputTokens, stopReason);
            var e := MessageDelta(outputTokens, stopReason);
            items == UsageAt(r, e) + NoticeAt(r, e) && Follows(d', ReaderAfter(r, e))
  {
    hide NoticeOf, WarnForStop, Knows, F.Drain;
    KnowsInput(d, r.events);
    NothingNew(r);
    if stopReason.Some? {
      WarningIs(d.(sawStopReason := true), stopReason.value);
    } else {
      var usage := UsageAt(r, MessageDelta(outputTokens, stopReason));
      assert usage + [] == usage;
    }
  }

  lemma {:induction false} KnowsInput(d: Decoder, events: seq<Event>)
    requires Knows(d, events)
    ensures d.inputTokens == InputTokens(events)
  {
    hide OpenIn, ClosedIn, DeltaIn, StopReasonIn, InputTokens;
  }

  lemma {:induction false} NothingNew(r: Reader)
    ensures F.Shown(r.inThinking, r.text)[|F.Shown(r.inThinking, r.text)|..] == []
    ensures r.text + "" == r.text && F.Label(true, "") == []
  {
    assert |F.Label(true, "")| == 0;
  }

  lemma {:induction false} DeltaEmits(d: Decoder, r: Reader, index: nat, delta: Delta) returns (text: seq<Item>)
    requires Agrees(d, r)
    ensures var (d', items) := HandleDelta(d.(sawContentDelta := true), index, delta);
            var e := BlockDelta(index, delta);
            EventItems(r, e, text, items) && Follows(d', ReaderAfter(r, e))
  {
    hide F.Push, F.Drain, F.Shown, F.Speech, F.HeldBack, Knows, Complete;
    var items := HandleDelta(d.(sawContentDelta := true), index, delta).1;
    text := if delta.TextPart? then items else [];
    NothingNew(r);
    F.SpeechOfOne(Ok(Done));
    if delta.TextPart? && delta.text != "" {
      var events := F.Push(d.thinking, delta.text).1;
      F.PushShows(r.inThinking, r.text, delta.text);
      F.SpeechOfEvents(events);
      PushIsText(d.thinking, delta.text);
    }
  }

  lemma {:induction false} StopEmits(codec: Codec, d: Decoder, r: Reader) returns (text: seq<Item>)
    requires Agrees(d, r)
    ensures var (d', items) := HandleEvent(codec, d, MessageStop);
            EventItems(r, MessageStop, text, items) && Follows(d', ReaderAfter(r, MessageStop))
  {
    hide F.Drain, F.Shown, F.Speech, F.HeldBack, F.ModeAfter, Knows, Complete, ContentComplete;
    KnowsComplete(d, r.events);
    NothingNew(r);
    text := FlushThinking(d).1;
    F.FinishShows(r.inThinking, r.text);
    F.SpeechOfEvents(F.Finish(d.thinking).1);
    FlushIsText(d);
  }

  lemma {:induction false} FlushIsText(d: Decoder)
    ensures OnlyText(FlushThinking(d).1)
  {
  }

  /** Events that only move the blocks, or nothing. */
  lemma {:induction false} OthersEmit(codec: Codec, d: Decoder, r: Reader, e: Event)
    requires Agrees(d, r) && !e.BlockDelta? && !e.MessageDelta? && !e.MessageStop?
    ensures Follows(HandleEvent(codec, d, e).0, ReaderAfter(r, e))
    ensures !e.BlockStop? ==> EventItems(r, e, [], HandleEvent(codec, d, e).1)
  {
    hide F.Drain, F.Shown, F.Speech, F.HeldBack, F.ModeAfter, Knows, Complete, FlushOne, NoticeOf;
    NothingNew(r);
  }

  /** Every event leaves the decoder where the reader is and emits what `EventItems` says. */
  lemma {:induction false} EventEmits(codec: Codec, d: Decoder, r: Reader, e: Event) returns (text: seq<Item>)
    requires Agrees(d, r)
    ensures Agrees(HandleEvent(codec, d, e).0, ReaderAfter(r, e))
    ensures !e.BlockStop? ==> EventItems(r, e, text, HandleEvent(codec, d, e).1)
  {
    hide EventItems, Follows, Knows, HandleDelta, HandleMessageDelta, Complete, GivenOut;
    KnowsNext(codec, d, r.events, e);
    NextEvents(r, e);
    text := [];
    match e
    case BlockDelta(index, delta) => text := DeltaEmits(d, r, index, delta);
    case MessageDelta(outputTokens, stopReason) => NoticeIs(d, r, outputTokens, stopReason); NoticeEmits(r, e);
    case MessageStop => text := StopEmits(codec, d, r);
    case _ => OthersEmit(codec, d, r, e);
  }

  lemma {:induction false} NextEvents(r: Reader, e: Event)
    ensures ReaderAfter(r, e).events == r.events + [e]
  {
  }

  lemma {:induction false} NoticeEmits(r: Reader, e: Event)
    requires e.MessageDelta?
    ensures EventItems(r, e, [], UsageAt(r, e) + NoticeAt(r, e))
  {
  }

  // ---------------------------------------------------------------------------
  // Whole streams

  ghost function ReaderAfterAll(r: Reader, events: seq<Event>): Reader
    decreases |events|
  {
    if events == [] then r else ReaderAfterAll(ReaderAfter(r, events[0]), events[1..])
  }

  ghost function SpeechIn(r: Reader, events: seq<Event>): seq<F.Labeled>
    decreases |events|
  {
    if events == [] then [] else SpeechAt(r, events[0]) + SpeechIn(ReaderAfter(r, events[0]), events[1..])
  }

  ghost function UsagesIn(r: Reader, events: seq<Event>): seq<Item>
    decreases |events|
  {
    if events == [] then [] else UsageAt(r, events[0]) + UsagesIn(ReaderAfter(r, events[0]), events[1..])
  }

  ghost function NoticesIn(r: Reader, events: seq<Event>): seq<Item>
    decreases |events|
  {
    if events == [] then [] else NoticeAt(r, events[0]) + NoticesIn(ReaderAfter(r, events[0]), events[1..])
  }

  lemma {:induction false} UsageTells(r: Reader, e: Event)
    ensures Tells(UsageAt(r, e), [], UsageAt(r, e), [])
  {
    var items := UsageAt(r, e);
    F.MuteSaysNothing(items);
    PickedAll(items, IsUsage);
    PickedNone(items, IsNotice);
  }

  lemma {:induction false} NoticeTells(r: Reader, e: Event)
    ensures Tells(NoticeAt(r, e), [], [], NoticeAt(r, e))
  {
    hide Ordinary, NoticeText;
    var items := NoticeAt(r, e);
    F.MuteSaysNothing(items);
    PickedNone(items, IsUsage);
    PickedAll(items, IsNotice);
  }

  lemma {:induction false} PlainEvent(r: Reader, e: Event)
    requires !e.BlockDelta? && !GivesOutAt(r, e)
    ensures SpeechAt(r, e) == []
    ensures !e.MessageDelta? ==> UsageAt(r, e) == [] && NoticeAt(r, e) == []
  {
    hide F.Shown;
    NothingNew(r);
  }

  lemma {:induction false} EventTells(r: Reader, e: Event, text: seq<Item>, items: seq<Item>)
    requires !e.BlockStop? && EventItems(r, e, text, items)
    ensures Tells(items, SpeechAt(r, e), UsageAt(r, e), NoticeAt(r, e))
  {
    hide Tells, F.Shown, F.HeldBack, F.Speech, NoticeOf, Complete, SpeechAt, UsageAt, NoticeAt, Thought;
    if e.BlockDelta? {
      TextTells(text);
      ThoughtTells(ThinkingOf(e));
      TellsJoin(text, Thought(ThinkingOf(e)), F.Speech(text), F.Label(true, ThinkingOf(e)), [], [], [], []);
      DeltaTellsOnly(r, e);
    } else if e.MessageDelta? {
      UsageTells(r, e);
      NoticeTells(r, e);
      PlainEvent(r, e);
      TellsJoin(UsageAt(r, e), NoticeAt(r, e), [], [], UsageAt(r, e), [], [], NoticeAt(r, e));
      assert UsageAt(r, e) + [] == UsageAt(r, e) && [] + NoticeAt(r, e) == NoticeAt(r, e);
    } else if GivesOutAt(r, e) {
      TextTells(text);
      OthersTell([Ok(Done)]);
      TellsJoin(text, [Ok(Done)], F.Speech(text), [], [], [], [], []);
      assert F.Speech(text) + [] == F.Speech(text);
      DeltaTellsOnly(r, e);
    } else {
      PlainEvent(r, e);
      OthersTell(items);
    }
  }

  lemma {:induction false} DeltaTellsOnly(r: Reader, e: Event)
    requires !e.MessageDelta?
    ensures UsageAt(r, e) == [] && NoticeAt(r, e) == []
  {
  }

  lemma {:induction false} StopTells(codec: Codec, d: Decoder, r: Reader, index: nat)
    ensures Tells(HandleBlockStop(codec, d, index).1, SpeechAt(r, BlockStop(index)), UsageAt(r, BlockStop(index)), NoticeAt(r, BlockStop(index)))
  {
    hide Tells;
    PlainEvent(r, BlockStop(index));
    OthersTell(HandleBlockStop(codec, d, index).1);
  }

  /** One line moves the reader by its event, if it carries one that parses, and tells what the event tells. */
  lemma {:induction false} LineTells(codec: Codec, d: Decoder, r: Reader, raw: seq<Byte>)
    requires Agrees(d, r)
    ensures var (d', items) := ProcessRaw(codec, d, raw);
            var events := EventsIn(codec, raw);
            && Agrees(d', ReaderAfterAll(r, events))
            && Tells(items, SpeechIn(r, events), UsagesIn(r, events), NoticesIn(r, events))
  {
    hide Agrees, Tells, HandleEvent, HandleBlockStop, EventItems, SpeechAt, UsageAt, NoticeAt, ReaderAfter;
    OthersTell([]);
    match EventOf(codec, T.Trim(codec.decode(raw)))
    case None =>
    case Some(Err(detail)) => OthersTell([Err(BadPayload(detail))]);
    case Some(Ok(e)) =>
      var text := EventEmits(codec, d, r, e);
      if e.BlockStop? {
        StopTells(codec, d, r, e.index);
        StopIsHandled(codec, d, e.index);
      } else {
        EventTells(r, e, text, HandleEvent(codec, d, e).1);
      }
      OneEvent(r, e);
  }

  lemma {:induction false} StopIsHandled(codec: Codec, d: Decoder, index: nat)
    ensures HandleEvent(codec, d, BlockStop(index)) == HandleBlockStop(codec, d, index)
  {
  }

  lemma {:induction false} OneEvent(r: Reader, e: Event)
    ensures ReaderAfterAll(r, [e]) == ReaderAfter(r, e) && SpeechIn(r, [e]) == SpeechAt(r, e)
    ensures UsagesIn(r, [e]) == UsageAt(r, e) && NoticesIn(r, [e]) == NoticeAt(r, e)
  {
    hide SpeechAt, UsageAt, NoticeAt, ReaderAfter;
    assert [e][1..] == [];
    assert SpeechAt(r, e) + [] == SpeechAt(r, e) && UsageAt(r, e) + [] == UsageAt(r, e) && NoticeAt(r, e) + [] == NoticeAt(r, e);
  }

  lemma {:induction false} EventsJoin(r: Reader, a: seq<Event>, b: seq<Event>)
    ensures var mid := ReaderAfterAll(r, a);
            && ReaderAfterAll(r, a + b) == ReaderAfterAll(mid, b)
            && SpeechIn(r, a + b) == SpeechIn(r, a) + SpeechIn(mid, b)
            && UsagesIn(r, a + b) == UsagesIn(r, a) + UsagesIn(mid, b)
            && NoticesIn(r, a + b) == NoticesIn(r, a) + NoticesIn(mid, b)
    decreases |a|
  {
    hide SpeechAt, UsageAt, NoticeAt, ReaderAfter;
    if a == [] {
      assert a + b == b;
    } else {
      assert (a + b)[0] == a[0] && (a + b)[1..] == a[1..] + b;
      var next := ReaderAfter(r, a[0]);
      EventsJoin(next, a[1..], b);
      var mid := ReaderAfterAll(r, a);
      JoinAssoc(SpeechAt(r, a[0]), SpeechIn(next, a[1..]), SpeechIn(mid, b));
      JoinAssoc(UsageAt(r, a[0]), UsagesIn(next, a[1..]), UsagesIn(mid, b));
      JoinAssoc(NoticeAt(r, a[0]), NoticesIn(next, a[1..]), NoticesIn(mid, b));
    }
  }

  lemma {:induction false} JoinAssoc<X>(a: seq<X>, b: seq<X>, c: seq<X>)
    ensures a + b + c == a + (b + c)
  {
  }

  lemma {:induction false} LinesTell(codec: Codec, lines: seq<seq<Byte>>)
    ensures var (d, items) := ProcessAll(Step(codec), FRESH, lines);
            var events := EventsOf(codec, lines);
            && Agrees(d, ReaderAfterAll(UNREAD, events))
            && Tells(items, SpeechIn(UNREAD, events), UsagesIn(UNREAD, events), NoticesIn(UNREAD, events))
  {
    hide ProcessLine, ProcessAll, Agrees, Tells, ReaderAfterAll, SpeechIn, UsagesIn, NoticesIn;
    if lines == [] {
      NothingToProcess(Step(codec), FRESH);
      OthersTell([]);
      FreshAgrees();
    } else {
      var init, raw := lines[..|lines| - 1], lines[|lines| - 1];
      assert lines == init + [raw];
      var (d, items) := ProcessAll(Step(codec), FRESH, init);
      var before, events := EventsOf(codec, init), EventsIn(codec, raw);
      LinesTell(codec, init);
      AllSnoc(Step(codec), FRESH, init, raw);
      EventsSnoc(codec, init, raw);
      var r := ReaderAfterAll(UNREAD, before);
      LineTells(codec, d, r, raw);
      EventsJoin(UNREAD, before, events);
      TellsJoin(items, ProcessRaw(codec, d, raw).1, SpeechIn(UNREAD, before), SpeechIn(r, events), UsagesIn(UNREAD, before),
                UsagesIn(r, events), NoticesIn(UNREAD, before), NoticesIn(r, events));
    }
  }

  lemma {:induction false} FreshAgrees()
    ensures Agrees(FRESH, UNREAD) && ReaderAfterAll(UNREAD, []) == UNREAD
    ensures SpeechIn(UNREAD, []) == [] && UsagesIn(UNREAD, []) == [] && NoticesIn(UNREAD, []) == []
  {
    F.DrainOfNothing(false);
  }

  /** How the end of a stream is settled: not again when it was, with `Done` when a stop reason came and the message
      is complete, else with the completion-marker error. */
  ghost function EndOf(r: Reader): seq<Item> {
    if r.done then [] else if StopReasonIn(r.events) && Complete(r.events) then [Ok(Done)] else [Err(NoCompletionMarker)]
  }

  lemma {:induction false} ConcludeIs(d: Decoder, r: Reader)
    requires Agrees(d, r) && d.thinking.held == ""
    ensures Conclude(d).1 == EndOf(r)
  {
    KnowsComplete(d, r.events);
    hide OpenIn, ClosedIn, DeltaIn, InputTokens, F.Drain;
    assert AsItems([]) == [];
  }

  lemma {:induction false} FlushShows(d: Decoder, r: Reader)
    requires Agrees(d, r)
    ensures var (d', items) := FlushThinking(d);
            && Agrees(d', GivenOut(r)) && d'.thinking.held == "" && OnlyText(items)
            && F.Speech(items) == F.HeldBack(r.inThinking, r.text)
  {
    hide F.Drain, F.HeldBack, F.Speech, F.ModeAfter, OpenIn, ClosedIn, DeltaIn, StopReasonIn, InputTokens;
    F.FinishShows(r.inThinking, r.text);
    F.SpeechOfEvents(F.Finish(d.thinking).1);
    FlushIsText(d);
  }

  /** At the end of a stream: its unterminated line, the text held back, and how it is settled. */
  lemma {:induction false} StreamConcludes(codec: Codec, lines: seq<seq<Byte>>, tail: seq<Byte>)
    returns (last: seq<Item>, text: seq<Item>)
    ensures var (d, items) := ProcessAll(Step(codec), FRESH, lines);
            var r := ReaderAfterAll(UNREAD, EventsOf(codec, WithTail(lines, tail)));
            && Finish(codec, Stream(tail, d)).1 == last + text + EndOf(r)
            && last == (if tail == [] then [] else ProcessRaw(codec, d, tail).1)
            && OnlyText(text) && F.Speech(text) == F.HeldBack(r.inThinking, r.text)
            && Tells(items + last, SpeechIn(UNREAD, r.events), UsagesIn(UNREAD, r.events), NoticesIn(UNREAD, r.events))
  {
    hide ProcessAll, ProcessLine, Agrees, SpeechIn, UsagesIn, NoticesIn, ReaderAfterAll, Tells, F.HeldBack, F.Speech,
         FlushThinking, WithTail, EndOf, Conclude;
    var all := WithTail(lines, tail);
    var events := EventsOf(codec, all);
    var r := ReaderAfterAll(UNREAD, events);
    var (d1, ending) := ProcessTail(codec, Stream(tail, ProcessAll(Step(codec), FRESH, lines).0));
    var (d2, held) := FlushThinking(d1);
    last, text := ending, held;
    LinesTell(codec, all);
    TailJoins(codec, lines, tail);
    FlushShows(d1, r);
    ConcludeIs(d2, GivenOut(r));
    GivenOutEnds(r);
    EventsAreRead(UNREAD, events);
    assert [] + events == events;
  }

  lemma {:induction false} GivenOutEnds(r: Reader)
    ensures EndOf(GivenOut(r)) == EndOf(r)
  {
  }

  lemma {:induction false} EventsAreRead(r: Reader, events: seq<Event>)
    ensures ReaderAfterAll(r, events).events == r.events + events
    decreases |events|
  {
    hide ReaderAfter;
    if events == [] {
      assert r.events + [] == r.events;
    } else {
      NextEvents(r, events[0]);
      EventsAreRead(ReaderAfter(r, events[0]), events[1..]);
      assert r.events + [events[0]] + events[1..] == r.events + events;
    }
  }

  lemma {:induction false} TailJoins(codec: Codec, lines: seq<seq<Byte>>, tail: seq<Byte>)
    ensures var (d, items) := ProcessAll(Step(codec), FRESH, lines);
            var (d1, last) := ProcessTail(codec, Stream(tail, d));
            ProcessAll(Step(codec), FRESH, WithTail(lines, tail)) == (d1, items + last)
  {
    hide ProcessAll, ProcessLine;
    if tail == [] {
      var items := ProcessAll(Step(codec), FRESH, lines).1;
      assert items + [] == items;
    } else {
      AllSnoc(Step(codec), FRESH, lines, tail);
    }
  }

  /** Over a whole stream, its unterminated line and its end included, the text and thinking shown are those of the
      deltas in their order, what a tag could still claim held back until it is settled, a complete message ends or
      the stream does; the usage reported pairs each output count with the latest input count, and the first stop
      reason worth a word is warned of, once. */
  lemma {:induction false} StreamShows(codec: Codec, lines: seq<seq<Byte>>, tail: seq<Byte>)
    ensures var (d, items) := ProcessAll(Step(codec), FRESH, lines);
            var events := EventsOf(codec, WithTail(lines, tail));
            var end := ReaderAfterAll(UNREAD, events);
            Tells(items + Finish(codec, Stream(tail, d)).1,
                  SpeechIn(UNREAD, events) + F.HeldBack(end.inThinking, end.text),
                  UsagesIn(UNREAD, events), NoticesIn(UNREAD, events))
  {
    hide ProcessAll, ProcessLine, Finish, SpeechIn, UsagesIn, NoticesIn, ReaderAfterAll, Tells, F.HeldBack, F.Speech, WithTail,
         EventsOf, EndOf;
    var last, text := StreamConcludes(codec, lines, tail);
    var items := ProcessAll(Step(codec), FRESH, lines).1;
    var events := EventsOf(codec, WithTail(lines, tail));
    var r := ReaderAfterAll(UNREAD, events);
    EventsAreRead(UNREAD, events);
    assert [] + events == events;
    TextTells(text);
    EndTells(r);
    var speech, usages, notices := SpeechIn(UNREAD, events), UsagesIn(UNREAD, events), NoticesIn(UNREAD, events);
    var held := F.HeldBack(r.inThinking, r.text);
    TellsJoin(items + last, text, speech, held, usages, [], notices, []);
    TellsJoin(items + last + text, EndOf(r), speech + held, [], usages + [], [], notices + [], []);
    assert items + (last + text + EndOf(r)) == items + last + text + EndOf(r);
    assert speech + held + [] == speech + held && usages + [] + [] == usages && notices + [] + [] == notices;
  }

  lemma {:induction false} EndTells(r: Reader)
    ensures Tells(EndOf(r), [], [], [])
  {
    hide Complete, StopReasonIn;
    OthersTell(EndOf(r));
  }

  /** At every point of every stream, what the next line emits, the calls of a stopping block aside. */
  lemma {:induction false} StreamEventEmits(codec: Codec, lines: seq<seq<Byte>>, raw: seq<Byte>, e: Event) returns (text: seq<Item>)
    requires EventOf(codec, T.Trim(codec.decode(raw))) == Some(Ok(e)) && !e.BlockStop?
    ensures var d := ProcessAll(Step(codec), FRESH, lines).0;
            EventItems(ReaderAfterAll(UNREAD, EventsOf(codec, lines)), e, text, ProcessRaw(codec, d, raw).1)
  {
    hide ProcessAll, Agrees, EventItems, ReaderAfterAll, HandleEvent, EventsOf, EventOf;
    LinesTell(codec, lines);
    text := EventEmits(codec, ProcessAll(Step(codec), FRESH, lines).0, ReaderAfterAll(UNREAD, EventsOf(codec, lines)), e);
  }
}
