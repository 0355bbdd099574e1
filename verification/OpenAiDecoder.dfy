/** The OpenAI-style decoder as an object that updates its buffers in place. */
module OpenAiDecoder {
  import opened Wrappers
  import opened Messages
  import opened Events
  import opened SseLines
  import opened OpenAiStream
  import F = ThinkFilter
  import T = Text

  class SseDecoder {
    const codec: Codec
    const thinking: F.InlineThinkingFilter
    var buf: seq<Byte>
    var tools: Tools
    var lastKeyless: Option<ToolKey>
    var warned: set<string>
    var sawFinish: bool
    var outputLimited: bool
    var done: bool

    function State(): Decoder
      reads this, thinking
    {
      Decoder(thinking.State(), tools, lastKeyless, warned, sawFinish, outputLimited, done)
    }

    function Whole(): Stream<Decoder>
      reads this, thinking
    {
      Stream(buf, State())
    }

    constructor (codec: Codec)
      ensures Whole() == Stream([], FRESH) && this.codec == codec && fresh(thinking)
    {
      this.codec := codec;
      thinking := new F.InlineThinkingFilter();
      buf, tools, lastKeyless, warned := [], [], None, {};
      sawFinish, outputLimited, done := false, false, false;
    }

    /** Emits every accumulated call in key order and forgets them. */
    method FlushAccumulated() returns (items: seq<Item>)
      modifies this`tools
      ensures State() == FlushTools(codec, old(State())).0
      ensures items == FlushTools(codec, old(State())).1
    {
      var pending := tools;
      tools := [];
      items := [];
      for i := 0 to |pending|
        invariant items == FlushAll(codec, pending[..i])
      {
        assert pending[..i + 1][..i] == pending[..i];
        items := items + FlushOne(codec, pending[i].1);
      }
      assert pending[..|pending|] == pending;
    }

    method FlushHeld() returns (items: seq<Item>)
      modifies thinking
      ensures State() == FlushThinking(old(State())).0
      ensures items == FlushThinking(old(State())).1
    {
      var events := thinking.FinishStream();
      items := AsItems(events);
    }

    method CompleteOnce() returns (items: seq<Item>)
      modifies this`done, thinking
      ensures State() == EmitDone(old(State())).0
      ensures items == EmitDone(old(State())).1
    {
      if done {
        return [];
      }
      items := FlushHeld();
      done := true;
      items := items + [Ok(Done)];
    }

    /** Adds fragments to their accumulators, one by one. */
    method Accumulate(fragments: seq<Fragment>)
      modifies this`tools, this`lastKeyless
      ensures State() == HandleFragments(old(State()), fragments)
    {
      ghost var g := Gathering(tools, lastKeyless);
      for i := 0 to |fragments|
        invariant Gathering(tools, lastKeyless) == Gather(g, fragments[..i])
      {
        assert fragments[..i + 1][..i] == fragments[..i];
        var f := fragments[i];
        var key := KeyOf(lastKeyless, f);
        lastKeyless := NextLast(lastKeyless, f);
        tools := Upsert(tools, key, f);
      }
      assert fragments[..|fragments|] == fragments;
    }

    method ApplyFinish(reason: string) returns (items: seq<Item>)
      modifies this`tools, this`lastKeyless, this`warned, this`sawFinish, this`outputLimited
      ensures State() == HandleFinish(codec, old(State()), Some(reason)).0
      ensures items == HandleFinish(codec, old(State()), Some(reason)).1
    {
      hide FlushAll, FinishWarning;
      sawFinish := true;
      if reason == "length" {
        outputLimited := true;
        tools, lastKeyless := [], None;
      }
      items := [];
      if reason == "tool_calls" {
        items := FlushAccumulated();
      }
      if reason !in warned {
        warned := warned + {reason};
        var message := FinishWarning(reason);
        if message.Some? {
          items := items + [Ok(if reason == "length" then OutputLimit(message.value) else ProviderWarning(message.value))];
        }
      }
    }

    method ApplyChoice(choice: Choice) returns (items: seq<Item>)
      modifies this`tools, this`lastKeyless, this`warned, this`sawFinish, this`outputLimited, thinking
      ensures State() == HandleChoice(codec, old(State()), choice).0
      ensures items == HandleChoice(codec, old(State()), choice).1
    {
      hide F.Push, Gather, HandleFinish;
      items := [];
      if NonEmpty(choice.content) {
        var events := thinking.PushDelta(choice.content.value);
        items := AsItems(events);
      }
      ghost var text := items;
      if NonEmpty(choice.reasoning) {
        items := items + [Ok(ReasoningDelta(choice.reasoning.value))];
      }
      Accumulate(choice.fragments);
      ghost var d2 := State();
      ghost var before := items;
      if choice.finish.Some? {
        var rest := ApplyFinish(choice.finish.value);
        items := items + rest;
      } else {
        NoFinish(codec, d2);
      }
    }

    lemma NoFinish(codec: Codec, d: Decoder)
      ensures HandleFinish(codec, d, None) == (d, [])
    {
    }

    method ApplyLine(line: string) returns (items: seq<Item>)
      modifies this`tools, this`lastKeyless, this`warned, this`sawFinish, this`outputLimited, this`done, thinking
      ensures State() == ProcessLine(codec, old(State()), line).0
      ensures items == ProcessLine(codec, old(State()), line).1
    {
      hide HandleChoice, FlushAll;
      if !(DATA <= line) {
        return [];
      }
      var payload := T.Trim(line[|DATA|..]);
      if payload == "[DONE]" {
        var calls := FlushAccumulated();
        var end := CompleteOnce();
        return calls + end;
      }
      match codec.parse(payload)
      case Err(detail) =>
        items := [Err(BadPayload(detail))];
      case Ok(chunk) =>
        items := [];
        if chunk.choice.Some? {
          items := ApplyChoice(chunk.choice.value);
        }
        if chunk.usage.Some? {
          items := items + [Ok(Usage(chunk.usage.value.0, chunk.usage.value.1))];
        }
    }

    /** Buffers raw bytes and decodes every complete line. */
    method PushBytes(bytes: seq<Byte>) returns (items: seq<Item>)
      modifies this, thinking
      ensures Whole() == Push(Step(codec), old(Whole()), bytes).0
      ensures items == Push(Step(codec), old(Whole()), bytes).1
    {
      hide ProcessLine, ProcessAll, Cut;
      ghost var d0 := State();
      buf := buf + bytes;
      ghost var all := buf;
      items := [];
      ghost var lines: seq<seq<Byte>> := [];
      assert [] + Cut(buf).0 == Cut(buf).0;
      NothingToProcess(Step(codec), d0);
      while LF in buf
        invariant Cut(all).0 == lines + Cut(buf).0 && Cut(all).1 == Cut(buf).1
        invariant State() == ProcessAll(Step(codec), d0, lines).0
        invariant items == ProcessAll(Step(codec), d0, lines).1
        decreases |buf|
      {
        CutAt(buf);
        FoundNewline(buf);
        var pos := T.IndexOf(buf, LF);
        var line := buf[..pos + 1];
        buf := buf[pos + 1..];
        AllSnoc(Step(codec), d0, lines, line);
        var out := ApplyLine(T.Trim(codec.decode(line)));
        items := items + out;
        lines := lines + [line];
      }
      CutAt(buf);
      assert lines + [] == lines;
    }

    /** Flushes everything at the end of the stream and settles the outcome. */
    method FinishStream() returns (items: seq<Item>)
      modifies this, thinking
      ensures Whole() == Finish(codec, old(Whole())).0
      ensures items == Finish(codec, old(Whole())).1
    {
      hide ProcessLine, FlushAll, FlushThinking, EmitDone;
      items := [];
      if buf != [] {
        var tail := buf;
        buf := [];
        var line := T.Trim(codec.decode(tail));
        items := ApplyLine(line);
      }
      var text := FlushHeld();
      items := items + text;
      if !outputLimited {
        var calls := FlushAccumulated();
        items := items + calls;
      } else {
        tools, lastKeyless := [], None;
      }
      if !done {
        if sawFinish {
          var end := CompleteOnce();
          items := items + end;
        } else {
          done := true;
          items := items + [Err(NoCompletionMarker)];
        }
      }
    }
  }
}
