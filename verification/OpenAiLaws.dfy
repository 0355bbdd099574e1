/** What the OpenAI-style decoder guarantees over whole streams. */
module OpenAiLaws {
  import opened Wrappers
  import opened Messages
  import opened Events
  import opened SseLines
  import opened OpenAiStream
  import F = ThinkFilter
  import T = Text

  // ---------------------------------------------------------------------------
  // Exactly one terminal event

  predicate IsTerminal(item: Item) {
    item == Ok(Done) || item == Err(NoCompletionMarker)
  }

  function Flag(b: bool): nat {
    if b then 1 else 0
  }

  /** Items that are not terminal. */
  ghost predicate Plain(items: seq<Item>) {
    forall i :: 0 <= i < |items| ==> !IsTerminal(items[i])
  }

  lemma {:induction false} PlainCounts(items: seq<Item>)
    requires Plain(items)
    ensures Count(items, IsTerminal) == 0 && Count(items, IsDone) == 0
  {
    CountNone(items, IsTerminal);
    CountNone(items, IsDone);
  }

  lemma {:induction false} FlushIsPlain(codec: Codec, tools: Tools)
    ensures Plain(FlushAll(codec, tools))
  {
    if tools != [] {
      FlushIsPlain(codec, tools[..|tools| - 1]);
    }
  }

  lemma {:induction false} ContentIsPlain(d: Decoder, content: Option<string>)
    ensures Plain(HandleContent(d, content).1)
    ensures HandleContent(d, content).0.done == d.done
  {
    hide F.Drain;
    if NonEmpty(content) {
      F.DrainIsText(d.thinking.inThinking, d.thinking.held + content.value);
    }
  }

  lemma {:induction false} ChunkIsPlain(codec: Codec, d: Decoder, chunk: Chunk)
    ensures Plain(HandleChunk(codec, d, chunk).1)
    ensures HandleChunk(codec, d, chunk).0.done == d.done
  {
    hide HandleContent, HandleFinish, Gather;
    if chunk.choice.Some? {
      var choice := chunk.choice.value;
      var d1 := HandleContent(d, choice.content).0;
      var d2 := HandleFragments(d1, choice.fragments);
      ContentIsPlain(d, choice.content);
      FinishIsPlain(codec, d2, choice.finish);
    }
  }

  lemma {:induction false} FinishIsPlain(codec: Codec, d: Decoder, finish: Option<string>)
    ensures Plain(HandleFinish(codec, d, finish).1)
    ensures HandleFinish(codec, d, finish).0.done == d.done
  {
    hide FinishWarning, FlushAll;
    FlushIsPlain(codec, d.tools);
  }

  lemma {:induction false} DoneCounts(d: Decoder)
    ensures var (d', items) := EmitDone(d);
            d'.done && Count(items, IsTerminal) == Count(items, IsDone) == Flag(!d.done)
  {
    if !d.done {
      var text := FlushThinking(d).1;
      PlainCounts(text);
      CountConcat(text, [Ok(Done)], IsTerminal);
      CountConcat(text, [Ok(Done)], IsDone);
      CountSingle(Ok(Done));
    }
  }

  lemma {:induction false} CountSingle(item: Item)
    ensures Count([item], IsTerminal) == Flag(IsTerminal(item)) && Count([item], IsDone) == Flag(IsDone(item))
  {
    assert [item][1..] == [];
  }

  /** `done` counts the terminal events seen so far. */
  ghost predicate Accounts(before: Decoder, after: Decoder, items: seq<Item>) {
    && Flag(before.done) + Count(items, IsTerminal) == Flag(after.done)
    && Count(items, IsDone) <= Count(items, IsTerminal)
  }

  lemma {:induction false} AccountsJoin(a: Decoder, b: Decoder, c: Decoder, first: seq<Item>, second: seq<Item>)
    requires Accounts(a, b, first) && Accounts(b, c, second)
    ensures Accounts(a, c, first + second)
  {
    CountConcat(first, second, IsTerminal);
    CountConcat(first, second, IsDone);
  }

  lemma {:induction false} PlainAccounts(a: Decoder, b: Decoder, items: seq<Item>)
    requires Plain(items) && a.done == b.done
    ensures Accounts(a, b, items)
  {
    PlainCounts(items);
  }

  lemma {:induction false} LineAccounts(codec: Codec, d: Decoder, line: string)
    ensures var (d', items) := ProcessLine(codec, d, line); Accounts(d, d', items)
  {
    hide HandleChunk, FlushAll;
    var (d', items) := ProcessLine(codec, d, line);
    if !(DATA <= line) {
      PlainAccounts(d, d', items);
    } else {
      var payload := T.Trim(line[|DATA|..]);
      if payload == "[DONE]" {
        var (d1, calls) := FlushTools(codec, d);
        FlushIsPlain(codec, d.tools);
        PlainAccounts(d, d1, calls);
        DoneCounts(d1);
        AccountsJoin(d, d1, d', calls, EmitDone(d1).1);
      } else {
        match codec.parse(payload)
        case Ok(chunk) =>
          ChunkIsPlain(codec, d, chunk);
          PlainAccounts(d, d', items);
        case Err(detail) =>
          PlainAccounts(d, d', items);
      }
    }
  }

  lemma {:induction false} AllAccounts(codec: Codec, d: Decoder, lines: seq<seq<Byte>>)
    ensures var (d', items) := ProcessAll(Step(codec), d, lines); Accounts(d, d', items)
    decreases |lines|
  {
    hide ProcessLine, ProcessAll;
    if lines == [] {
      NothingToProcess(Step(codec), d);
      PlainAccounts(d, d, []);
    } else {
      AllStep(Step(codec), d, lines);
      var (d1, items) := ProcessRaw(codec, d, lines[0]);
      LineAccounts(codec, d, T.Trim(codec.decode(lines[0])));
      AllAccounts(codec, d1, lines[1..]);
      var (d2, rest) := ProcessAll(Step(codec), d1, lines[1..]);
      AccountsJoin(d, d1, d2, items, rest);
    }
  }

  lemma {:induction false} ConcludeAccounts(d: Decoder)
    ensures var (d', items) := Conclude(d); Accounts(d, d', items) && d'.done
  {
    if d.done {
      PlainAccounts(d, d, []);
    } else if d.sawFinish {
      DoneCounts(d);
    } else {
      CountSingle(Err(NoCompletionMarker));
    }
  }

  lemma {:induction false} TailAccounts(codec: Codec, st: Stream<Decoder>)
    ensures var (d', items) := ProcessTail(codec, st); Accounts(st.decoder, d', items)
  {
    hide ProcessLine;
    if st.buf == [] {
      PlainAccounts(st.decoder, st.decoder, []);
    } else {
      LineAccounts(codec, st.decoder, T.Trim(codec.decode(st.buf)));
    }
  }

  lemma {:induction false} CloseAccounts(codec: Codec, d: Decoder)
    ensures var (d', items) := CloseTools(codec, d); Accounts(d, d', items) && d'.tools == []
  {
    FlushIsPlain(codec, d.tools);
    PlainAccounts(d, CloseTools(codec, d).0, CloseTools(codec, d).1);
  }

  /** Nothing is held back or half assembled, and the outcome is settled. */
  ghost predicate Settled(d: Decoder) {
    d.done && d.tools == [] && d.thinking.held == "" && (d.outputLimited ==> d.lastKeyless == None)
  }

  lemma {:induction false} FinishAccounts(codec: Codec, st: Stream<Decoder>)
    ensures var (st', items) := Finish(codec, st);
            st'.buf == [] && Accounts(st.decoder, st'.decoder, items) && Settled(st'.decoder)
  {
    hide ProcessTail, CloseTools, Conclude, FlushAll;
    var d := st.decoder;
    var (d1, tail) := ProcessTail(codec, st);
    var (d2, text) := FlushThinking(d1);
    var (d3, calls) := CloseTools(codec, d2);
    var (d4, end) := Conclude(d3);
    TailAccounts(codec, st);
    PlainAccounts(d1, d2, text);
    CloseAccounts(codec, d2);
    ConcludeAccounts(d3);
    AccountsJoin(d, d1, d2, tail, text);
    AccountsJoin(d, d2, d3, tail + text, calls);
    AccountsJoin(d, d3, d4, tail + text + calls, end);
    ConcludeSettles(codec, d2);
  }

  lemma {:induction false} ConcludeSettles(codec: Codec, d: Decoder)
    requires d.thinking.held == ""
    ensures Settled(Conclude(CloseTools(codec, d).0).0)
  {
    hide FlushAll;
  }

  lemma {:induction false} SettledStaysQuiet(codec: Codec, st: Stream<Decoder>)
    requires st.buf == [] && Settled(st.decoder)
    ensures Finish(codec, st) == (st, [])
  {
    var d := st.decoder;
    assert F.Finish(d.thinking) == (d.thinking, []);
    assert AsItems([]) == [];
    assert ProcessTail(codec, st) == (d, []);
    assert FlushThinking(d) == (d, []);
    assert CloseTools(codec, d) == (d, []);
    assert Conclude(d) == (d, []);
    var none: seq<Item> := [];
    assert none + none + none + none == none;
  }

  /** Every stream, however it goes and however it is cut, ends in exactly one terminal event:
      `Done`, or the completion-marker error. Finishing again adds nothing, so the event
      stream ends. */
  lemma {:induction false} StreamTerminatesOnce(codec: Codec, chunks: seq<seq<Byte>>)
    ensures var (st, items) := Feed(Step(codec), Stream([], FRESH), chunks);
            var (end, tail) := Finish(codec, st);
            && Count(items + tail, IsTerminal) == 1
            && Count(items + tail, IsDone) <= 1
            && Finish(codec, end) == (end, [])
  {
    hide Finish, ProcessAll;
    var start := Stream([], FRESH);
    var (st, items) := Feed(Step(codec), start, chunks);
    StreamIsChunkInvariant(Step(codec), start, chunks);
    AllAccounts(codec, FRESH, Cut([] + Joined(chunks)).0);
    FinishAccounts(codec, st);
    var (end, tail) := Finish(codec, st);
    AccountsJoin(FRESH, st.decoder, end.decoder, items, tail);
    SettledStaysQuiet(codec, end);
  }
}
