/** What the OpenAI-style decoder shows of a stream besides tool calls: the text and the reasoning of its chunks,
    their usage and their warnings, told from the parsed chunks alone. */
module OpenAiText {
  import opened Wrappers
  import opened Messages
  import opened Events
  import opened SseLines
  import opened OpenAiStream
  import opened OpenAiTools
  import opened OpenAiCalls
  import opened Showing
  import F = ThinkFilter
  import T = Text
  import Markup

  // ---------------------------------------------------------------------------
  // A reader of parsed chunks

  /** The text read since the held text was last given out, the mode it was read in, the finish reasons seen, and
      whether the end marker came. */
  datatype Reader = Reader(inThinking: bool, text: string, reasons: set<string>, done: bool)

  const UNREAD := Reader(false, "", {}, false)

  predicate IsEndMarker(line: string) {
    DATA <= line && T.Trim(line[|DATA|..]) == "[DONE]"
  }

  function ContentOf(choice: Option<Choice>): string {
    if choice.Some? && choice.value.content.Some? then choice.value.content.value else ""
  }

  function ReasoningOf(choice: Option<Choice>): string {
    if choice.Some? && choice.value.reasoning.Some? then choice.value.reasoning.value else ""
  }

  function FinishOf(choice: Option<Choice>): Option<string> {
    if choice.Some? then choice.value.finish else None
  }

  function GivenOut(r: Reader): Reader {
    r.(inThinking := F.ModeAfter(r.inThinking, r.text), text := "")
  }

  function ReaderAfter(codec: Codec, r: Reader, line: string): Reader {
    if IsEndMarker(line) then (if r.done then r else GivenOut(r).(done := true))
    else
      var choice := ChoiceOf(codec, line);
      r.(text := r.text + ContentOf(choice),
         reasons := r.reasons + if FinishOf(choice).Some? then {FinishOf(choice).value} else {})
  }

  /** What a line shows: the content of its chunk as far as it can no longer be part of a tag, labelled as the
      one-pass reference labels it, then the reasoning of the chunk; at the end marker what was held back. */
  function SpeechAt(codec: Codec, r: Reader, line: string): seq<F.Labeled> {
    if IsEndMarker(line) then (if r.done then [] else F.HeldBack(r.inThinking, r.text))
    else
      var choice := ChoiceOf(codec, line);
      var before, after := F.Shown(r.inThinking, r.text), F.Shown(r.inThinking, r.text + ContentOf(choice));
      (if |before| <= |after| then after[|before|..] else []) + F.Label(true, ReasoningOf(choice))
  }

  /** The chunk of a line, if it carries one. */
  function ChunkOf(codec: Codec, line: string): Option<Result<Chunk, string>> {
    if !(DATA <= line) || IsEndMarker(line) then None else Some(codec.parse(T.Trim(line[|DATA|..])))
  }

  function UsageAt(codec: Codec, line: string): seq<Item> {
    match ChunkOf(codec, line)
    case Some(Ok(chunk)) =>
      if chunk.usage.Some? then [Ok(Usage(chunk.usage.value.0, chunk.usage.value.1))] else []
    case _ => []
  }

  /** Finishes nobody needs to hear of. */
  predicate Ordinary(reason: string) {
    reason == "stop" || reason == "tool_calls" || T.AllSpace(reason)
  }

  function NoticeText(reason: string): string {
    if reason == "function_call" then
      "provider returned a legacy function_call finish reason; no tool call was decoded"
    else if reason == "length" then
      "provider stopped because the token limit was reached; output may be truncated"
    else if reason == "content_filter" then "provider filtered part or all of the response"
    else "provider finished with reason `" + reason + "`"
  }

  /** What the first finish for a reason makes the decoder say. */
  function NoticeOf(reason: string): seq<Item> {
    if Ordinary(reason) then []
    else if reason == "length" then [Ok(OutputLimit(NoticeText(reason)))]
    else [Ok(ProviderWarning(NoticeText(reason)))]
  }

  function NoticeAt(codec: Codec, r: Reader, line: string): seq<Item> {
    var finish := FinishOf(ChoiceOf(codec, line));
    if finish.None? || finish.value in r.reasons then [] else NoticeOf(finish.value)
  }

  // ---------------------------------------------------------------------------
  // One line

  /** The decoder has read what the reader has read. */
  ghost predicate Agrees(d: Decoder, r: Reader) {
    d.thinking == F.Drain(r.inThinking, r.text).0 && d.warned == r.reasons && d.done == r.done
  }

  lemma {:induction false} ContentShows(d: Decoder, r: Reader, content: Option<string>)
    requires Agrees(d, r)
    ensures var (d', items) := HandleContent(d, content);
            var text := if content.Some? then content.value else "";
            var before, after := F.Shown(r.inThinking, r.text), F.Shown(r.inThinking, r.text + text);
            && Agrees(d', r.(text := r.text + text)) && d' == d.(thinking := d'.thinking)
            && |before| <= |after| && Shows(items, after[|before|..])
  {
    hide F.Push, F.Drain, F.Shown, F.Speech;
    if NonEmpty(content) {
      var events := F.Push(d.thinking, content.value).1;
      F.PushShows(r.inThinking, r.text, content.value);
      F.SpeechOfEvents(events);
      PushIsText(d.thinking, content.value);
    } else {
      assert r.text + "" == r.text;
      F.SpeechOfOne(Ok(Done));
    }
  }

  lemma {:induction false} FlushShows(d: Decoder, r: Reader)
    requires Agrees(d, r)
    ensures var (d', items) := FlushThinking(d);
            && Agrees(d', GivenOut(r)) && d' == d.(thinking := d'.thinking)
            && Shows(items, F.HeldBack(r.inThinking, r.text))
  {
    hide F.Drain, F.HeldBack, F.Speech;
    F.FinishShows(r.inThinking, r.text);
    F.SpeechOfEvents(F.Finish(d.thinking).1);
  }

  lemma {:induction false} WordsAreNotSpace()
    ensures !T.AllSpace("function_call") && !T.AllSpace("length") && !T.AllSpace("content_filter")
  {
    assert !T.IsSpace("function_call"[0]) && !T.IsSpace("length"[0]) && !T.IsSpace("content_filter"[0]);
  }

  lemma {:induction false} NoticeTexts(reason: string)
    ensures FinishWarning(reason) == if Ordinary(reason) then None else Some(NoticeText(reason))
  {
    hide T.Trim, T.AllSpace;
    WordsAreNotSpace();
    Markup.TrimIsEmpty(reason);
  }

  lemma {:induction false} NoticeIs(d: Decoder, reason: string)
    ensures var (d', items) := WarnForFinish(d, reason);
            && items == (if reason in d.warned then [] else NoticeOf(reason))
            && d' == d.(warned := d.warned + {reason})
  {
    hide Ordinary, NoticeText, FinishWarning;
    NoticeTexts(reason);
    assert reason in d.warned ==> d.warned + {reason} == d.warned;
  }

  /** Everything a chunk makes the decoder emit, in order: its text, its reasoning, the calls it flushes, a notice
      about why it finished. */
  lemma {:induction false} ChoiceEmits(codec: Codec, d: Decoder, r: Reader, choice: Choice) returns (text: seq<Item>)
    requires Agrees(d, r)
    ensures var reader := r.(text := r.text + ContentOf(Some(choice)),
                             reasons := r.reasons + if choice.finish.Some? then {choice.finish.value} else {});
            var (d', items) := HandleChoice(codec, d, choice);
            var before, after := F.Shown(r.inThinking, r.text), F.Shown(r.inThinking, reader.text);
            && Agrees(d', reader) && |before| <= |after| && Shows(text, after[|before|..])
            && items == text + Thought(ReasoningOf(Some(choice)))
                      + (Flushes(codec, d, choice) + NoticeIf(r, choice.finish))
  {
    hide F.Drain, F.Shown, F.Speech, FinishWarning, NoticeOf, WarnForFinish, Gather, FlushAll;
    var (d1, shown) := HandleContent(d, choice.content);
    text := shown;
    ContentShows(d, r, choice.content);
    var d2 := HandleFragments(d1, choice.fragments);
    hide HandleContent;
    FinishEmits(codec, d2, r.(text := r.text + ContentOf(Some(choice))), choice.finish);
  }

  /** The finish of a choice flushes what `tool_calls` flushes and gives its notice. */
  lemma {:induction false} FinishEmits(codec: Codec, d: Decoder, r: Reader, finish: Option<string>)
    requires Agrees(d, r)
    ensures var (d', items) := HandleFinish(codec, d, finish);
            && Agrees(d', r.(reasons := r.reasons + if finish.Some? then {finish.value} else {}))
            && items == (if finish == Some("tool_calls") then FlushAll(codec, d.tools) else []) + NoticeIf(r, finish)
  {
    hide F.Drain, FinishWarning, NoticeOf, WarnForFinish, FlushAll;
    if finish.Some? {
      var reason := finish.value;
      var d1 := d.(sawFinish := true);
      var d2 := if reason == "length" then DiscardTools(d1.(outputLimited := true)) else d1;
      var d3 := if reason == "tool_calls" then d2.(tools := []) else d2;
      NoticeIs(d3, reason);
    } else {
      assert r.reasons + {} == r.reasons;
    }
  }

  function NoticeIf(r: Reader, finish: Option<string>): seq<Item> {
    if finish.None? || finish.value in r.reasons then [] else NoticeOf(finish.value)
  }

  function Flushes(codec: Codec, d: Decoder, choice: Choice): seq<Item> {
    if choice.finish == Some("tool_calls") then FlushAll(codec, HandleFragments(d, choice.fragments).tools) else []
  }

  /** What a line emits: the parts of its chunk in order; at the end marker the calls, the text held back and `Done`,
      the last two once; a fault for a chunk that does not parse; nothing for anything else. */
  ghost predicate LineItems(codec: Codec, r: Reader, line: string, text: seq<Item>, calls: seq<Item>, items: seq<Item>) {
    if IsEndMarker(line) then
      && items == calls + (if r.done then [] else text + [Ok(Done)])
      && Shows(text, F.HeldBack(r.inThinking, r.text))
    else match ChunkOf(codec, line)
      case Some(Ok(chunk)) =>
        var reasoning := ReasoningOf(chunk.choice);
        && items == text + Thought(reasoning) + (calls + NoticeAt(codec, r, line)) + UsageAt(codec, line)
        && OnlyText(text) && F.Speech(text) + F.Label(true, reasoning) == SpeechAt(codec, r, line)
      case Some(Err(detail)) => items == [Err(BadPayload(detail))]
      case None => items == []
  }

  lemma {:induction false} LineEmits(codec: Codec, d: Decoder, r: Reader, line: string) returns (text: seq<Item>)
    requires Agrees(d, r)
    ensures var (d', items) := ProcessLine(codec, d, line);
            Agrees(d', ReaderAfter(codec, r, line))
            && LineItems(codec, r, line, text, FlushAll(codec, ToolsFlushedBy(codec, d, line)), items)
  {
    hide F.Drain, F.Shown, F.HeldBack, F.Speech, NoticeOf, HandleChoice, FlushAll, FlushThinking, HandleFragments;
    text := [];
    F.SpeechOfOne(Ok(Done));
    NothingFlushed(codec);
    assert r.text + "" == r.text && r.reasons + {} == r.reasons;
    if IsEndMarker(line) {
      FlushShows(d.(tools := []), r);
      text := FlushThinking(d.(tools := [])).1;
    } else if ChunkOf(codec, line).Some? && ChunkOf(codec, line).value.Ok? {
      var chunk := ChunkOf(codec, line).value.value;
      if chunk.choice.Some? {
        text := ChoiceEmits(codec, d, r, chunk.choice.value);
      }
    }
  }

  // ---------------------------------------------------------------------------
  // Whole streams

  function ReaderAfterAll(codec: Codec, r: Reader, lines: seq<seq<Byte>>): Reader
    decreases |lines|
  {
    if lines == [] then r else ReaderAfterAll(codec, ReaderAfter(codec, r, LineOf(codec, lines[0])), lines[1..])
  }

  function SpeechIn(codec: Codec, r: Reader, lines: seq<seq<Byte>>): seq<F.Labeled>
    decreases |lines|
  {
    if lines == [] then []
    else
      var line := LineOf(codec, lines[0]);
      SpeechAt(codec, r, line) + SpeechIn(codec, ReaderAfter(codec, r, line), lines[1..])
  }

  function UsagesIn(codec: Codec, lines: seq<seq<Byte>>): seq<Item>
    decreases |lines|
  {
    if lines == [] then [] else UsageAt(codec, LineOf(codec, lines[0])) + UsagesIn(codec, lines[1..])
  }

  function NoticesIn(codec: Codec, r: Reader, lines: seq<seq<Byte>>): seq<Item>
    decreases |lines|
  {
    if lines == [] then []
    else
      var line := LineOf(codec, lines[0]);
      NoticeAt(codec, r, line) + NoticesIn(codec, ReaderAfter(codec, r, line), lines[1..])
  }

  lemma {:induction false} NoticeTells(codec: Codec, r: Reader, line: string)
    ensures Tells(NoticeAt(codec, r, line), [], [], NoticeAt(codec, r, line))
  {
    hide Ordinary, NoticeText, ChoiceOf;
    var items := NoticeAt(codec, r, line);
    F.MuteSaysNothing(items);
    PickedNone(items, IsUsage);
    PickedAll(items, IsNotice);
  }

  lemma {:induction false} UsageTells(codec: Codec, line: string)
    ensures Tells(UsageAt(codec, line), [], UsageAt(codec, line), [])
  {
    hide ChunkOf;
    var items := UsageAt(codec, line);
    F.MuteSaysNothing(items);
    PickedAll(items, IsUsage);
    PickedNone(items, IsNotice);
  }

  lemma {:induction false} LineTells(
      codec: Codec, r: Reader, line: string, text: seq<Item>, calls: seq<Item>, items: seq<Item>)
    requires LineItems(codec, r, line, text, calls, items)
    requires forall i :: 0 <= i < |calls| ==> IsOutcome(calls[i])
    ensures Tells(items, SpeechAt(codec, r, line), UsageAt(codec, line), NoticeAt(codec, r, line))
  {
    hide Tells, F.Shown, F.HeldBack, F.Speech, NoticeOf, ChoiceOf, Thought, T.Trim;
    OthersTell(calls);
    if IsEndMarker(line) {
      NoChunk(codec, r, line);
      if r.done {
        assert calls + [] == calls;
      } else {
        TextTells(text);
        OthersTell([Ok(Done)]);
        TellsJoin(text, [Ok(Done)], F.Speech(text), [], [], [], [], []);
        TellsJoin(calls, text + [Ok(Done)], [], F.Speech(text) + [], [], [], [], []);
        assert [] + (F.Speech(text) + []) == F.Speech(text);
      }
    } else if ChunkOf(codec, line).Some? && ChunkOf(codec, line).value.Ok? {
      var chunk := ChunkOf(codec, line).value.value;
      var reasoning, notice, usage := ReasoningOf(chunk.choice), NoticeAt(codec, r, line), UsageAt(codec, line);
      TextTells(text);
      ThoughtTells(reasoning);
      NoticeTells(codec, r, line);
      UsageTells(codec, line);
      TellsJoin(text, Thought(reasoning), F.Speech(text), F.Label(true, reasoning), [], [], [], []);
      TellsJoin(calls, notice, [], [], [], [], [], notice);
      var speech := F.Speech(text) + F.Label(true, reasoning);
      TellsJoin(text + Thought(reasoning), calls + notice, speech, [] + [], [] + [], [] + [], [] + [], [] + notice);
      TellsJoin(text + Thought(reasoning) + (calls + notice), usage, speech + ([] + []), [], [] + [] + ([] + []), usage,
                [] + [] + ([] + notice), []);
      assert speech + ([] + []) + [] == speech && [] + [] + ([] + []) + usage == usage && [] + [] + ([] + notice) + [] == notice;
    } else {
      OthersTell(items);
      NoChoice(codec, r, line);
    }
  }

  lemma {:induction false} NoChunk(codec: Codec, r: Reader, line: string)
    requires IsEndMarker(line)
    ensures UsageAt(codec, line) == [] && NoticeAt(codec, r, line) == []
  {
  }

  lemma {:induction false} NoChoice(codec: Codec, r: Reader, line: string)
    requires !IsEndMarker(line) && !(ChunkOf(codec, line).Some? && ChunkOf(codec, line).value.Ok?)
    ensures UsageAt(codec, line) == [] && NoticeAt(codec, r, line) == [] && SpeechAt(codec, r, line) == []
  {
    hide F.Shown;
    assert r.text + "" == r.text;
  }

  lemma {:induction false} LinesTell(codec: Codec, d: Decoder, r: Reader, lines: seq<seq<Byte>>)
    requires Agrees(d, r)
    ensures var (d', items) := ProcessAll(Step(codec), d, lines);
            && Agrees(d', ReaderAfterAll(codec, r, lines))
            && Tells(items, SpeechIn(codec, r, lines), UsagesIn(codec, lines), NoticesIn(codec, r, lines))
    decreases |lines|
  {
    hide ProcessLine, ProcessAll, Agrees, ReaderAfter, SpeechAt, UsageAt, NoticeAt, Tells, LineItems, FlushAll, IsOutcome;
    if lines == [] {
      NothingToProcess(Step(codec), d);
      OthersTell([]);
    } else {
      var line := LineOf(codec, lines[0]);
      var (d1, items) := ProcessRaw(codec, d, lines[0]);
      AllStep(Step(codec), d, lines);
      var text := LineEmits(codec, d, r, line);
      FlushIsAllOutcomes(codec, ToolsFlushedBy(codec, d, line));
      LineTells(codec, r, line, text, FlushAll(codec, ToolsFlushedBy(codec, d, line)), items);
      var r1 := ReaderAfter(codec, r, line);
      LinesTell(codec, d1, r1, lines[1..]);
      TellsJoin(items, ProcessAll(Step(codec), d1, lines[1..]).1, SpeechAt(codec, r, line), SpeechIn(codec, r1, lines[1..]),
                UsageAt(codec, line), UsagesIn(codec, lines[1..]), NoticeAt(codec, r, line), NoticesIn(codec, r1, lines[1..]));
    }
  }

  lemma {:induction false} FreshAgrees()
    ensures Agrees(FRESH, UNREAD)
  {
    F.DrainOfNothing(false);
  }

  /** Over a whole stream, its unterminated line and its end included, the text and reasoning shown are those of the
      chunks in their order, what a tag could still claim held back until it is settled, the end marker comes or the
      stream ends; the usage reported is that of the chunks, and each finish reason is warned of once. */
  lemma {:induction false} StreamShows(codec: Codec, lines: seq<seq<Byte>>, tail: seq<Byte>)
    ensures var (d, items) := ProcessAll(Step(codec), FRESH, lines);
            var all := WithTail(lines, tail);
            var end := ReaderAfterAll(codec, UNREAD, all);
            Tells(items + Finish(codec, Stream(tail, d)).1,
                  SpeechIn(codec, UNREAD, all) + F.HeldBack(end.inThinking, end.text),
                  UsagesIn(codec, all), NoticesIn(codec, UNREAD, all))
  {
    hide ProcessAll, ProcessLine, Agrees, SpeechIn, UsagesIn, NoticesIn, ReaderAfterAll, Tells, F.HeldBack, FlushAll,
         FlushThinking, WithTail, ProcessTail;
    var all, st := WithTail(lines, tail), Stream(tail, ProcessAll(Step(codec), FRESH, lines).0);
    var items := ProcessAll(Step(codec), FRESH, lines).1;
    var (d1, last) := ProcessTail(codec, st);
    var (d2, text) := FlushThinking(d1);
    var (d3, calls) := CloseTools(codec, d2);
    var (d4, end) := Conclude(d3);
    var r := ReaderAfterAll(codec, UNREAD, all);
    NothingHeld(codec, d1);
    FreshAgrees();
    LinesTell(codec, FRESH, UNREAD, all);
    TailJoins(codec, lines, tail);
    FlushShows(d1, r);
    TextTells(text);
    FlushIsAllOutcomes(codec, d2.tools);
    OthersTell(calls);
    ConcludeTells(d3);
    var speech, usages, notices := SpeechIn(codec, UNREAD, all), UsagesIn(codec, all), NoticesIn(codec, UNREAD, all);
    var held := F.HeldBack(r.inThinking, r.text);
    TellsJoin(items + last, text, speech, held, usages, [], notices, []);
    TellsJoin(items + last + text, calls, speech + held, [], usages + [], [], notices + [], []);
    TellsJoin(items + last + text + calls, end, speech + held + [], [], usages + [] + [], [], notices + [] + [], []);
    assert items + (last + text + calls + end) == items + last + text + calls + end;
    assert speech + held + [] + [] == speech + held && usages + [] + [] + [] == usages && notices + [] + [] + [] == notices;
  }

  /** At every point of every stream, what the next line emits and in which order; the calls are what the pending
      fragments of each key come to, in key order, when the line flushes. */
  lemma {:induction false} StreamLineEmits(codec: Codec, lines: seq<seq<Byte>>, raw: seq<Byte>)
    returns (text: seq<Item>, calls: seq<Item>, keys: seq<ToolKey>)
    ensures var d := ProcessAll(Step(codec), FRESH, lines).0;
            var line := LineOf(codec, raw);
            var q := FlushedBy(codec, PendingAfterAll(codec, UNSTARTED, lines), line);
            && LineItems(codec, ReaderAfterAll(codec, UNREAD, lines), line, text, calls, ProcessRaw(codec, d, raw).1)
            && (if q.None? then calls == [] else ListsKeys(keys, q.value) && calls == OutcomesOf(codec, q.value, keys))
  {
    hide ProcessAll, ProcessLine, PendingAfterAll, ToolsFlushedBy, Flushing, FlushedBy, Matches, ListsKeys, OutcomesOf,
         FlushAll, LineItems, ReaderAfterAll, Agrees;
    var d := ProcessAll(Step(codec), FRESH, lines).0;
    var p := PendingAfterAll(codec, UNSTARTED, lines);
    var line := LineOf(codec, raw);
    FreshAgrees();
    LinesTell(codec, FRESH, UNREAD, lines);
    text := LineEmits(codec, d, ReaderAfterAll(codec, UNREAD, lines), line);
    calls := FlushAll(codec, ToolsFlushedBy(codec, d, line));
    FreshMatches();
    AllMatch(codec, FRESH, UNSTARTED, lines);
    FlushingMatches(codec, d, p, line);
    NothingFlushed(codec);
    keys := Keys(Flushing(codec, d, line).tools);
    var q := FlushedBy(codec, p, line);
    if q.Some? {
      FlushComposes(codec, Flushing(codec, d, line), q.value);
    }
  }

  /** The contents of the chunks of some lines, in one. */
  function ContentIn(codec: Codec, lines: seq<seq<Byte>>): string
    decreases |lines|
  {
    if lines == [] then ""
    else ContentOf(ChoiceOf(codec, LineOf(codec, lines[0]))) + ContentIn(codec, lines[1..])
  }

  /** No line is the end marker or brings reasoning of its own. */
  ghost predicate OnlyContent(codec: Codec, lines: seq<seq<Byte>>) {
    forall i :: 0 <= i < |lines| ==>
      && !IsEndMarker(LineOf(codec, lines[i]))
      && ReasoningOf(ChoiceOf(codec, LineOf(codec, lines[i]))) == ""
  }

  lemma {:induction false} ContentLineSpeaks(codec: Codec, r: Reader, line: string)
    requires !IsEndMarker(line) && ReasoningOf(ChoiceOf(codec, line)) == ""
    ensures F.Shown(r.inThinking, r.text) + SpeechAt(codec, r, line)
         == F.Shown(r.inThinking, r.text + ContentOf(ChoiceOf(codec, line)))
  {
    hide *;
    F.PushShows(r.inThinking, r.text, ContentOf(ChoiceOf(codec, line)));
    PlainLineSpeaks(codec, r, line);
    SuffixJoins(F.Shown(r.inThinking, r.text), F.Shown(r.inThinking, r.text + ContentOf(ChoiceOf(codec, line))));
  }

  lemma {:induction false} PlainLineSpeaks(codec: Codec, r: Reader, line: string)
    requires !IsEndMarker(line) && ReasoningOf(ChoiceOf(codec, line)) == ""
    requires |F.Shown(r.inThinking, r.text)| <= |F.Shown(r.inThinking, r.text + ContentOf(ChoiceOf(codec, line)))|
    ensures SpeechAt(codec, r, line)
         == F.Shown(r.inThinking, r.text + ContentOf(ChoiceOf(codec, line)))[|F.Shown(r.inThinking, r.text)|..]
  {
    hide F.Shown, ChoiceOf, ContentOf, IsEndMarker, F.Label, ReasoningOf;
    NoLabel();
  }

  lemma {:induction false} ContentSpeaks(codec: Codec, r: Reader, lines: seq<seq<Byte>>)
    requires OnlyContent(codec, lines)
    ensures var end := ReaderAfterAll(codec, r, lines);
            && end.inThinking == r.inThinking && end.text == r.text + ContentIn(codec, lines)
            && F.Shown(r.inThinking, r.text) + SpeechIn(codec, r, lines) == F.Shown(r.inThinking, end.text)
    decreases |lines|
  {
    hide F.Shown, SpeechAt, ChoiceOf;
    if lines == [] {
      assert r.text + "" == r.text;
      assert F.Shown(r.inThinking, r.text) + [] == F.Shown(r.inThinking, r.text);
    } else {
      var line, rest := LineOf(codec, lines[0]), lines[1..];
      var r1, content := ReaderAfter(codec, r, line), ContentOf(ChoiceOf(codec, line));
      assert OnlyContent(codec, rest);
      ContentSpeaks(codec, r1, rest);
      ContentLineSpeaks(codec, r, line);
      assert r.text + content + ContentIn(codec, rest) == r.text + (content + ContentIn(codec, rest));
      var a, b, c := F.Shown(r.inThinking, r.text), SpeechAt(codec, r, line), SpeechIn(codec, r1, rest);
      assert a + b + c == a + (b + c);
    }
  }

  lemma {:induction false} NoLabel()
    ensures F.Label(true, "") == []
  {
    assert |F.Label(true, "")| == 0;
  }

  /** A stream of content alone shows every character of it once, in order, labelled as the one-pass reference labels
      it, whatever the cut into chunks. */
  lemma {:induction false} StreamShowsContent(codec: Codec, lines: seq<seq<Byte>>, tail: seq<Byte>)
    requires OnlyContent(codec, WithTail(lines, tail))
    ensures var (d, items) := ProcessAll(Step(codec), FRESH, lines);
            F.Speech(items + Finish(codec, Stream(tail, d)).1) == F.Split(false, ContentIn(codec, WithTail(lines, tail)))
  {
    hide ProcessAll, Finish, F.Shown, F.HeldBack, F.Split, SpeechIn, UsagesIn, NoticesIn, ReaderAfterAll, OnlyContent, WithTail,
         F.Speech;
    var all := WithTail(lines, tail);
    StreamShows(codec, lines, tail);
    ContentSpeaks(codec, UNREAD, all);
    var text := ContentIn(codec, all);
    assert "" + text == text;
    F.ShownAndHeld(false, text);
    NothingShown();
    assert [] + SpeechIn(codec, UNREAD, all) == SpeechIn(codec, UNREAD, all);
  }

  lemma {:induction false} NothingShown()
    ensures F.Shown(false, "") == []
  {
    hide F.Drain;
    F.ShownAndHeld(false, "");
  }

  lemma {:induction false} TailJoins(codec: Codec, lines: seq<seq<Byte>>, tail: seq<Byte>)
    ensures var (d, items) := ProcessAll(Step(codec), FRESH, lines);
            var (d1, last) := ProcessTail(codec, Stream(tail, d));
            ProcessAll(Step(codec), FRESH, WithTail(lines, tail)) == (d1, items + last)
  {
    hide ProcessAll, ProcessLine;
    if tail == [] {
      var items := ProcessAll(Step(codec), FRESH, lines).1;
      assert items + [] == items;
    } else {
      AllSnoc(Step(codec), FRESH, lines, tail);
    }
  }

  lemma {:induction false} NothingHeld(codec: Codec, d: Decoder)
    ensures CloseTools(codec, FlushThinking(d).0).0.thinking.held == ""
  {
    hide FlushAll;
  }

  lemma {:induction false} ConcludeTells(d: Decoder)
    requires d.thinking.held == ""
    ensures Tells(Conclude(d).1, [], [], [])
  {
    assert AsItems([]) == [];
    OthersTell(Conclude(d).1);
  }
}
