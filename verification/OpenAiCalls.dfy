/** Which tool calls the OpenAI-style decoder emits, over whole streams and in terms of the
    fragments the stream carries, and what an output limit changes about it. */
module OpenAiCalls {
  import opened Wrappers
  import opened Messages
  import opened Events
  import opened SseLines
  import opened OpenAiStream
  import opened OpenAiTools
  import F = ThinkFilter
  import T = Text

  // ---------------------------------------------------------------------------
  // Specification

  /** What the fragments of one key come to at a flush: nothing without a name, else a call under the last id and
      name with the argument pieces joined for its input, or a complaint about that input. */
  function OutcomeOf(codec: Codec, fragments: seq<Fragment>): seq<Item> {
    var id, name, args := LastId(fragments), LastName(fragments), ArgsOf(fragments);
    if fragments == [] || name.None? then []
    else
      match if T.Trim(args) == "" then Ok(Json("{}", true)) else codec.parseInput(args)
      case Ok(input) => [Ok(ToolCall(if id.Some? then id.value else "", name.value, input))]
      case Err(detail) => [Err(BadToolInput(detail))]
  }

  lemma {:induction false} OutcomeIsFlush(codec: Codec, fragments: seq<Fragment>)
    ensures OutcomeOf(codec, fragments) == if fragments == [] then [] else FlushOne(codec, Assembled(fragments).value)
  {
    hide LastId, LastName, ArgsOf, T.Trim;
  }

  /** The fragments of one key make up a call: they name it, and its input is blank or parses. */
  predicate IsWhole(codec: Codec, fragments: seq<Fragment>) {
    && fragments != []
    && LastName(fragments).Some?
    && (T.Trim(ArgsOf(fragments)) == "" || codec.parseInput(ArgsOf(fragments)).Ok?)
  }

  function Of(p: Pending, key: ToolKey): seq<Fragment> {
    FragmentsFor(key, p.last, p.fragments)
  }

  /** `keys` are the keys of the pending fragments, each once, in key order. */
  ghost predicate ListsKeys(keys: seq<ToolKey>, p: Pending) {
    && (forall i, j :: 0 <= i < j < |keys| ==> KeyLess(keys[i], keys[j]))
    && (forall key :: key in keys <==> Of(p, key) != [])
  }

  function OutcomesOf(codec: Codec, p: Pending, keys: seq<ToolKey>): seq<Item> {
    if keys == [] then []
    else OutcomesOf(codec, p, keys[..|keys| - 1]) + OutcomeOf(codec, Of(p, keys[|keys| - 1]))
  }

  /** The choice a line carries, if it carries one. */
  function ChoiceOf(codec: Codec, line: string): Option<Choice> {
    if !(DATA <= line) || T.Trim(line[|DATA|..]) == "[DONE]" then None
    else
      match codec.parse(T.Trim(line[|DATA|..]))
      case Ok(chunk) => chunk.choice
      case Err(_) => None
  }

  /** What is pending at the flush a line causes, if it causes one: `[DONE]` does, and a choice
      that finishes with `tool_calls`, its own fragments included. */
  function FlushedBy(codec: Codec, p: Pending, line: string): Option<Pending> {
    if DATA <= line && T.Trim(line[|DATA|..]) == "[DONE]" then Some(p)
    else
      var choice := ChoiceOf(codec, line);
      if choice.Some? && choice.value.finish == Some("tool_calls")
      then Some(Pending(p.last, p.fragments + choice.value.fragments))
      else None
  }

  ghost predicate SomeWhole(codec: Codec, p: Pending) {
    exists key :: IsWhole(codec, Of(p, key))
  }

  ghost predicate CallsAt(codec: Codec, p: Pending, line: string) {
    FlushedBy(codec, p, line).Some? && SomeWhole(codec, FlushedBy(codec, p, line).value)
  }

  const UNSTARTED := Pending(None, [])

  function LineOf(codec: Codec, raw: seq<Byte>): string {
    T.Trim(codec.decode(raw))
  }

  ghost predicate CallsAtLine(codec: Codec, p: Pending, lines: seq<seq<Byte>>, i: nat)
    requires i < |lines|
  {
    CallsAt(codec, PendingAfterAll(codec, p, lines[..i]), LineOf(codec, lines[i]))
  }

  /** Some line flushes a call that is whole. */
  ghost predicate CallsWithin(codec: Codec, p: Pending, lines: seq<seq<Byte>>) {
    exists i :: 0 <= i < |lines| && CallsAtLine(codec, p, lines, i)
  }

  predicate StopsAtLimit(codec: Codec, line: string) {
    var choice := ChoiceOf(codec, line);
    choice.Some? && choice.value.finish == Some("length")
  }

  ghost predicate Limited(codec: Codec, lines: seq<seq<Byte>>) {
    exists i :: 0 <= i < |lines| && StopsAtLimit(codec, LineOf(codec, lines[i]))
  }

  // ---------------------------------------------------------------------------
  // One flush

  lemma {:induction false} FlushIsOutcomes(codec: Codec, tools: Tools)
    ensures Outcomes(FlushAll(codec, tools)) == FlushAll(codec, tools)
  {
    FlushIsAllOutcomes(codec, tools);
    OutcomesAreAll(FlushAll(codec, tools));
  }

  lemma {:induction false} FlushIsAllOutcomes(codec: Codec, tools: Tools)
    ensures forall i :: 0 <= i < |FlushAll(codec, tools)| ==> IsOutcome(FlushAll(codec, tools)[i])
  {
    if tools != [] {
      FlushIsAllOutcomes(codec, tools[..|tools| - 1]);
    }
  }

  function Keys(tools: Tools): seq<ToolKey> {
    seq(|tools|, i requires 0 <= i < |tools| => tools[i].0)
  }

  lemma {:induction false} LookupAt(tools: Tools, i: nat)
    requires Sorted(tools) && i < |tools|
    ensures Lookup(tools, tools[i].0) == Some(tools[i].1)
  {
    if i > 0 {
      KeyLessIsStrict(tools[0].0, tools[i].0, tools[i].0);
      LookupAt(tools[1..], i - 1);
    }
  }

  lemma {:induction false} LookupFinds(tools: Tools, key: ToolKey)
    ensures Lookup(tools, key).Some? <==> key in Keys(tools)
  {
    if tools != [] {
      assert Keys(tools) == [tools[0].0] + Keys(tools[1..]);
      LookupFinds(tools[1..], key);
    }
  }

  lemma {:induction false} HeldIsPending(d: Decoder, p: Pending, key: ToolKey)
    requires Matches(d, p)
    ensures Sorted(d.tools) && Lookup(d.tools, key) == Assembled(Of(p, key))
  {
    GatherDemultiplexes(p.last, p.fragments, key);
  }

  lemma {:induction false} KeysAreListed(d: Decoder, p: Pending)
    requires Matches(d, p)
    ensures ListsKeys(Keys(d.tools), p)
  {
    HeldIsPending(d, p, Id(""));
    forall key ensures key in Keys(d.tools) <==> Of(p, key) != [] {
      HeldIsPending(d, p, key);
      LookupFinds(d.tools, key);
    }
  }

  lemma {:induction false} FlushPrefix(codec: Codec, d: Decoder, p: Pending, n: nat)
    requires Matches(d, p) && n <= |d.tools|
    ensures FlushAll(codec, d.tools[..n]) == OutcomesOf(codec, p, Keys(d.tools)[..n])
  {
    hide Matches, Gather, FlushOne, Assembled, Lookup, Sorted, OutcomeOf;
    if n > 0 {
      FlushPrefix(codec, d, p, n - 1);
      assert d.tools[..n][..n - 1] == d.tools[..n - 1];
      assert Keys(d.tools)[..n][..n - 1] == Keys(d.tools)[..n - 1];
      HeldIsPending(d, p, d.tools[n - 1].0);
      LookupAt(d.tools, n - 1);
      AssembledIsSome(Of(p, d.tools[n - 1].0));
      OutcomeIsFlush(codec, Of(p, d.tools[n - 1].0));
    }
  }

  /** A flush emits, key by key in key order, what the fragments of each key come to; every key
      that some fragment carried is there once and no other. */
  lemma {:induction false} FlushComposes(codec: Codec, d: Decoder, p: Pending)
    requires Matches(d, p)
    ensures ListsKeys(Keys(d.tools), p)
    ensures FlushAll(codec, d.tools) == OutcomesOf(codec, p, Keys(d.tools))
  {
    KeysAreListed(d, p);
    FlushPrefix(codec, d, p, |d.tools|);
    assert d.tools[..|d.tools|] == d.tools;
    assert Keys(d.tools)[..|d.tools|] == Keys(d.tools);
  }

  lemma {:induction false} OutcomeCalls(codec: Codec, fragments: seq<Fragment>)
    ensures HasCall(OutcomeOf(codec, fragments)) <==> IsWhole(codec, fragments)
  {
    if IsWhole(codec, fragments) {
      assert IsCall(OutcomeOf(codec, fragments)[0]);
    }
  }

  lemma {:induction false} OutcomesCall(codec: Codec, p: Pending, keys: seq<ToolKey>)
    ensures HasCall(OutcomesOf(codec, p, keys)) <==> exists i :: 0 <= i < |keys| && IsWhole(codec, Of(p, keys[i]))
  {
    hide HasCall, OutcomeOf, IsWhole, Of;
    if keys == [] {
      NoCallInNothing();
    } else {
      var init, key := keys[..|keys| - 1], keys[|keys| - 1];
      OutcomesCall(codec, p, init);
      OutcomeCalls(codec, Of(p, key));
      HasCallConcat(OutcomesOf(codec, p, init), OutcomeOf(codec, Of(p, key)));
    }
  }

  lemma {:induction false} ListedCalls(codec: Codec, p: Pending, keys: seq<ToolKey>)
    requires ListsKeys(keys, p)
    ensures HasCall(OutcomesOf(codec, p, keys)) <==> SomeWhole(codec, p)
  {
    hide HasCall, OutcomesOf, Of;
    OutcomesCall(codec, p, keys);
    if SomeWhole(codec, p) {
      var key :| IsWhole(codec, Of(p, key));
      assert key in keys;
    }
  }

  /** A flush emits a call exactly when the fragments of some key make up a whole one. */
  lemma {:induction false} FlushCallsExactlyWhen(codec: Codec, d: Decoder, p: Pending)
    requires Matches(d, p)
    ensures HasCall(FlushAll(codec, d.tools)) <==> SomeWhole(codec, p)
  {
    FlushComposes(codec, d, p);
    ListedCalls(codec, p, Keys(d.tools));
  }

  // ---------------------------------------------------------------------------
  // One line

  /** The tools a line flushes. */
  function ToolsFlushedBy(codec: Codec, d: Decoder, line: string): Tools {
    if DATA <= line && T.Trim(line[|DATA|..]) == "[DONE]" then d.tools
    else
      var choice := ChoiceOf(codec, line);
      if choice.Some? && choice.value.finish == Some("tool_calls")
      then HandleFragments(d, choice.value.fragments).tools
      else []
  }

  lemma {:induction false} ContentIsQuiet(d: Decoder, content: Option<string>)
    ensures Quiet(HandleContent(d, content).1)
    ensures HandleContent(d, content).0.tools == d.tools && HandleContent(d, content).0.lastKeyless == d.lastKeyless
  {
    hide F.Drain;
    if NonEmpty(content) {
      F.DrainIsText(d.thinking.inThinking, d.thinking.held + content.value);
    }
  }

  lemma {:induction false} FinishOutcomes(codec: Codec, d: Decoder, finish: Option<string>, before: seq<Item>, after: seq<Item>)
    requires Quiet(before) && Quiet(after)
    ensures Outcomes(before + HandleFinish(codec, d, finish).1 + after) ==
            if finish == Some("tool_calls") then FlushAll(codec, d.tools) else []
  {
    hide FinishWarning, FlushAll;
    var items := HandleFinish(codec, d, finish).1;
    if finish.Some? {
      var calls := if finish.value == "tool_calls" then FlushAll(codec, d.tools) else [];
      var warning := WarnForFinish(d, finish.value).1;
      assert Quiet(warning);
      assert items == [] + calls + warning;
      Around([], calls, warning);
      FlushIsOutcomes(codec, d.tools);
    }
    Around(before, items, after);
  }

  lemma {:induction false} ChunkOutcomes(codec: Codec, d: Decoder, chunk: Chunk)
    requires chunk.choice.Some?
    ensures Outcomes(HandleChunk(codec, d, chunk).1) ==
            if chunk.choice.value.finish != Some("tool_calls") then []
            else FlushAll(codec, HandleFragments(d, chunk.choice.value.fragments).tools)
  {
    hide HandleContent, HandleFinish, Gather, FlushAll;
    var choice := chunk.choice.value;
    var (d1, text) := HandleContent(d, choice.content);
    var reasoning: seq<Item> := if NonEmpty(choice.reasoning) then [Ok(ReasoningDelta(choice.reasoning.value))] else [];
    var usage: seq<Item> := if chunk.usage.Some? then [Ok(Usage(chunk.usage.value.0, chunk.usage.value.1))] else [];
    ContentIsQuiet(d, choice.content);
    assert Quiet(text + reasoning);
    FinishOutcomes(codec, HandleFragments(d1, choice.fragments), choice.finish, text + reasoning, usage);
  }

  lemma {:induction false} EndIsQuiet(d: Decoder)
    ensures Quiet(EmitDone(d).1) && Quiet(FlushThinking(d).1) && Quiet(Conclude(d).1)
  {
  }

  lemma {:induction false} LineOutcomes(codec: Codec, d: Decoder, line: string)
    ensures Outcomes(ProcessLine(codec, d, line).1) == FlushAll(codec, ToolsFlushedBy(codec, d, line))
  {
    hide HandleChunk, FlushAll, EmitDone, HandleFragments, Outcomes;
    var items := ProcessLine(codec, d, line).1;
    NothingFlushed(codec);
    if DATA <= line {
      var payload := T.Trim(line[|DATA|..]);
      if payload == "[DONE]" {
        var (d1, calls) := FlushTools(codec, d);
        EndIsQuiet(d1);
        Around([], calls, EmitDone(d1).1);
        assert [] + calls + EmitDone(d1).1 == calls + EmitDone(d1).1;
        FlushIsOutcomes(codec, d.tools);
      } else {
        match codec.parse(payload)
        case Ok(chunk) =>
          if chunk.choice.Some? {
            ChunkOutcomes(codec, d, chunk);
          } else {
            ChoicelessIsQuiet(codec, d, chunk);
          }
        case Err(detail) =>
          QuietHasNone([Err(BadPayload(detail))]);
      }
    }
  }

  lemma {:induction false} ChoicelessIsQuiet(codec: Codec, d: Decoder, chunk: Chunk)
    requires chunk.choice.None?
    ensures Outcomes(HandleChunk(codec, d, chunk).1) == []
  {
    QuietHasNone(HandleChunk(codec, d, chunk).1);
  }

  lemma {:induction false} NothingFlushed(codec: Codec)
    ensures FlushAll(codec, []) == [] && Outcomes([]) == []
  {
  }

  lemma {:induction false} FragmentsMatch(d: Decoder, p: Pending, fragments: seq<Fragment>)
    requires Matches(d, p)
    ensures Matches(HandleFragments(d, fragments), Pending(p.last, p.fragments + fragments))
  {
    GatherConcat(Gathering([], p.last), p.fragments, fragments);
  }

  /** A decoder that holds what is being flushed. */
  function Flushing(codec: Codec, d: Decoder, line: string): Decoder {
    var choice := ChoiceOf(codec, line);
    if choice.Some? then HandleFragments(d, choice.value.fragments) else d
  }

  lemma {:induction false} FlushingMatches(codec: Codec, d: Decoder, p: Pending, line: string)
    requires Matches(d, p)
    ensures var q := FlushedBy(codec, p, line);
            if q.None? then ToolsFlushedBy(codec, d, line) == []
            else
              && Matches(Flushing(codec, d, line), q.value)
              && ToolsFlushedBy(codec, d, line) == Flushing(codec, d, line).tools
  {
    hide Matches, HandleFragments;
    var choice := ChoiceOf(codec, line);
    if choice.Some? {
      FragmentsMatch(d, p, choice.value.fragments);
    }
  }

  /** At every point of every stream, what the next line emits of calls and of complaints about
      their input is, in key order, what the fragments of each key since the last flush or
      discard come to, when the line flushes, and nothing otherwise. */
  lemma {:induction false} StreamFlushes(codec: Codec, lines: seq<seq<Byte>>, raw: seq<Byte>) returns (keys: seq<ToolKey>)
    ensures var d := ProcessAll(Step(codec), FRESH, lines).0;
            var q := FlushedBy(codec, PendingAfterAll(codec, UNSTARTED, lines), LineOf(codec, raw));
            if q.None? then Outcomes(ProcessRaw(codec, d, raw).1) == []
            else
              && ListsKeys(keys, q.value)
              && Outcomes(ProcessRaw(codec, d, raw).1) == OutcomesOf(codec, q.value, keys)
  {
    hide ProcessAll, PendingAfterAll, ProcessLine, ToolsFlushedBy, Flushing, FlushedBy, Matches, ListsKeys,
         OutcomesOf, Outcomes, FlushAll;
    var d := ProcessAll(Step(codec), FRESH, lines).0;
    var p := PendingAfterAll(codec, UNSTARTED, lines);
    var line := LineOf(codec, raw);
    FreshMatches();
    AllMatch(codec, FRESH, UNSTARTED, lines);
    LineOutcomes(codec, d, line);
    FlushingMatches(codec, d, p, line);
    NothingFlushed(codec);
    var q := FlushedBy(codec, p, line);
    keys := Keys(Flushing(codec, d, line).tools);
    if q.Some? {
      FlushComposes(codec, Flushing(codec, d, line), q.value);
    }
  }

  lemma {:induction false} FreshMatches()
    ensures Matches(FRESH, UNSTARTED)
  {
    NothingGathered(None);
  }

  /** The key list is the only one there is. */
  lemma {:induction false} KeysAreUnique(a: seq<ToolKey>, b: seq<ToolKey>, p: Pending)
    requires ListsKeys(a, p) && ListsKeys(b, p)
    ensures a == b
  {
    KeyListIsUnique(a, b);
  }

  lemma {:induction false} KeyListIsUnique(a: seq<ToolKey>, b: seq<ToolKey>)
    requires forall i, j :: 0 <= i < j < |a| ==> KeyLess(a[i], a[j])
    requires forall i, j :: 0 <= i < j < |b| ==> KeyLess(b[i], b[j])
    requires forall key :: key in a <==> key in b
    ensures a == b
  {
    hide KeyLess;
    EmptyTogether(a, b);
    if a != [] {
      assert a[0] in b;
      assert b[0] in a;
      var i :| 0 <= i < |b| && b[i] == a[0];
      var j :| 0 <= j < |a| && a[j] == b[0];
      KeyLessIsStrict(a[0], b[0], a[0]);
      assert a[0] == b[0];
      forall key ensures key in a[1..] <==> key in b[1..] {
        TailHas(a, key);
        TailHas(b, key);
      }
      KeyListIsUnique(a[1..], b[1..]);
      assert a == [a[0]] + a[1..] && b == [b[0]] + b[1..];
    }
  }

  lemma {:induction false} EmptyTogether(a: seq<ToolKey>, b: seq<ToolKey>)
    requires forall key :: key in a <==> key in b
    ensures a == [] <==> b == []
  {
    if a != [] {
      assert a[0] in b;
    }
    if b != [] {
      assert b[0] in a;
    }
  }

  lemma {:induction false} TailHas(a: seq<ToolKey>, key: ToolKey)
    requires a != [] && forall i, j :: 0 <= i < j < |a| ==> KeyLess(a[i], a[j])
    ensures key in a[1..] <==> key in a && key != a[0]
  {
    assert a == [a[0]] + a[1..];
    KeyLessIsStrict(a[0], a[0], a[0]);
    if key in a[1..] {
      var i :| 0 <= i < |a| - 1 && a[1..][i] == key;
      assert KeyLess(a[0], a[i + 1]);
    }
  }

  // ---------------------------------------------------------------------------
  // Whole streams

  lemma {:induction false} LineCalls(codec: Codec, d: Decoder, p: Pending, line: string)
    requires Matches(d, p)
    ensures HasCall(ProcessLine(codec, d, line).1) <==> CallsAt(codec, p, line)
  {
    hide ProcessLine, Matches, ToolsFlushedBy, Flushing, FlushedBy, FlushAll, HasCall, Outcomes, SomeWhole;
    CallsAreOutcomes(ProcessLine(codec, d, line).1);
    LineOutcomes(codec, d, line);
    FlushingMatches(codec, d, p, line);
    NothingFlushed(codec);
    NoCallInNothing();
    var q := FlushedBy(codec, p, line);
    if q.Some? {
      FlushCallsExactlyWhen(codec, Flushing(codec, d, line), q.value);
    }
  }

  lemma {:induction false} PendingShifts(codec: Codec, p: Pending, lines: seq<seq<Byte>>, i: nat)
    requires 0 < i <= |lines|
    ensures PendingAfterAll(codec, p, lines[..i]) ==
            PendingAfterAll(codec, PendingAfter(codec, p, LineOf(codec, lines[0])), lines[1..][..i - 1])
  {
    hide PendingAfter;
    assert lines[..i][1..] == lines[1..][..i - 1];
  }

  lemma {:induction false} CallsWithinStep(codec: Codec, p: Pending, lines: seq<seq<Byte>>)
    requires lines != []
    ensures CallsWithin(codec, p, lines) <==>
            || CallsAt(codec, p, LineOf(codec, lines[0]))
            || CallsWithin(codec, PendingAfter(codec, p, LineOf(codec, lines[0])), lines[1..])
  {
    hide PendingAfterAll, PendingAfter, CallsAt;
    var rest, p1 := lines[1..], PendingAfter(codec, p, LineOf(codec, lines[0]));
    NothingPending(codec, p);
    assert lines[..0] == [];
    assert CallsAtLine(codec, p, lines, 0) == CallsAt(codec, p, LineOf(codec, lines[0]));
    forall i: nat | 0 < i < |lines| ensures CallsAtLine(codec, p, lines, i) == CallsAtLine(codec, p1, rest, i - 1) {
      PendingShifts(codec, p, lines, i);
    }
    if CallsWithin(codec, p1, rest) {
      var i :| 0 <= i < |rest| && CallsAtLine(codec, p1, rest, i);
      assert CallsAtLine(codec, p, lines, i + 1);
    }
    if CallsWithin(codec, p, lines) && !CallsAtLine(codec, p, lines, 0) {
      var i :| 0 <= i < |lines| && CallsAtLine(codec, p, lines, i);
      assert CallsAtLine(codec, p1, rest, i - 1);
    }
  }

  lemma {:induction false} NothingPending(codec: Codec, p: Pending)
    ensures PendingAfterAll(codec, p, []) == p && !CallsWithin(codec, p, [])
  {
  }

  lemma {:induction false} LinesCall(codec: Codec, d: Decoder, p: Pending, lines: seq<seq<Byte>>)
    requires Matches(d, p)
    ensures HasCall(ProcessAll(Step(codec), d, lines).1) <==> CallsWithin(codec, p, lines)
    decreases |lines|
  {
    hide ProcessLine, ProcessAll, PendingAfter, Matches, CallsWithin, CallsAt, HasCall;
    if lines == [] {
      NothingToProcess(Step(codec), d);
      NoCallInNothing();
      NothingPending(codec, p);
    } else {
      var line := LineOf(codec, lines[0]);
      var (d1, items) := ProcessRaw(codec, d, lines[0]);
      AllStep(Step(codec), d, lines);
      CallsWithinStep(codec, p, lines);
      LineCalls(codec, d, p, line);
      LineMatches(codec, d, p, line);
      LinesCall(codec, d1, PendingAfter(codec, p, line), lines[1..]);
      HasCallConcat(items, ProcessAll(Step(codec), d1, lines[1..]).1);
    }
  }

  // ---------------------------------------------------------------------------
  // Output limits

  lemma {:induction false} FinishLimits(codec: Codec, d: Decoder, finish: Option<string>)
    ensures HandleFinish(codec, d, finish).0.outputLimited <==> d.outputLimited || finish == Some("length")
  {
    hide FinishWarning, FlushAll;
  }

  lemma {:induction false} LineLimits(codec: Codec, d: Decoder, line: string)
    ensures ProcessLine(codec, d, line).0.outputLimited <==> d.outputLimited || StopsAtLimit(codec, line)
  {
    hide HandleFinish, FlushAll, Gather, F.Push, F.Finish;
    var choice := ChoiceOf(codec, line);
    if choice.Some? {
      var d1 := HandleContent(d, choice.value.content).0;
      FinishLimits(codec, HandleFragments(d1, choice.value.fragments), choice.value.finish);
    }
  }

  lemma {:induction false} LimitedStep(codec: Codec, lines: seq<seq<Byte>>)
    requires lines != []
    ensures Limited(codec, lines) <==> StopsAtLimit(codec, LineOf(codec, lines[0])) || Limited(codec, lines[1..])
  {
    hide StopsAtLimit, LineOf;
    if Limited(codec, lines[1..]) {
      var i :| 0 <= i < |lines[1..]| && StopsAtLimit(codec, LineOf(codec, lines[1..][i]));
      assert StopsAtLimit(codec, LineOf(codec, lines[i + 1]));
    }
    if Limited(codec, lines) && !StopsAtLimit(codec, LineOf(codec, lines[0])) {
      var i :| 0 <= i < |lines| && StopsAtLimit(codec, LineOf(codec, lines[i]));
      assert StopsAtLimit(codec, LineOf(codec, lines[1..][i - 1]));
    }
  }

  /** The decoder knows of the limit exactly when a choice finished with `length`. */
  lemma {:induction false} LinesLimit(codec: Codec, d: Decoder, lines: seq<seq<Byte>>)
    ensures ProcessAll(Step(codec), d, lines).0.outputLimited <==> d.outputLimited || Limited(codec, lines)
    decreases |lines|
  {
    hide ProcessLine, StopsAtLimit, Limited;
    if lines == [] {
      assert !Limited(codec, lines) by {
        UnlimitedByNothing(codec);
      }
    } else {
      LineLimits(codec, d, LineOf(codec, lines[0]));
      LimitedStep(codec, lines);
      LinesLimit(codec, ProcessRaw(codec, d, lines[0]).0, lines[1..]);
    }
  }

  lemma {:induction false} UnlimitedByNothing(codec: Codec)
    ensures !Limited(codec, [])
  {
  }

  lemma {:induction false} TailIsALine(codec: Codec, st: Stream<Decoder>)
    ensures ProcessTail(codec, st) == ProcessAll(Step(codec), st.decoder, WithTail([], st.buf))
  {
    hide ProcessLine;
    if st.buf != [] {
      assert [st.buf][1..] == [];
      var items := ProcessRaw(codec, st.decoder, st.buf).1;
      assert items + [] == items;
    }
  }

  lemma {:induction false} FinishCalls(codec: Codec, d: Decoder, p: Pending, tail: seq<Byte>)
    requires Matches(d, p)
    ensures var q := PendingAfterAll(codec, p, WithTail([], tail));
            HasCall(Finish(codec, Stream(tail, d)).1) <==>
            || CallsWithin(codec, p, WithTail([], tail))
            || (!(d.outputLimited || Limited(codec, WithTail([], tail))) && SomeWhole(codec, q))
  {
    hide ProcessTail, ProcessAll, PendingAfterAll, WithTail, CallsWithin, Limited, SomeWhole, FlushAll, HasCall, Matches,
         FlushThinking, Conclude;
    var st, lines := Stream(tail, d), WithTail([], tail);
    var (d1, items) := ProcessTail(codec, st);
    var q := PendingAfterAll(codec, p, lines);
    var (d2, text) := FlushThinking(d1);
    var (d3, calls) := CloseTools(codec, d2);
    TailIsALine(codec, st);
    LinesCall(codec, d, p, lines);
    LinesLimit(codec, d, lines);
    AllMatch(codec, d, p, lines);
    ThinkingIsApart(d1, q);
    FlushCallsExactlyWhen(codec, d2, q);
    NoCallInNothing();
    EndIsQuiet(d1);
    EndIsQuiet(d3);
    QuietCallsNothing(text);
    QuietCallsNothing(Conclude(d3).1);
    HasCallConcat(items, text);
    HasCallConcat(items + text, calls);
    HasCallConcat(items + text + calls, Conclude(d3).1);
  }

  lemma {:induction false} ThinkingIsApart(d: Decoder, p: Pending)
    requires Matches(d, p)
    ensures Matches(FlushThinking(d).0, p) && FlushThinking(d).0.outputLimited == d.outputLimited
  {
  }

  lemma {:induction false} WithTailShifts(codec: Codec, p: Pending, lines: seq<seq<Byte>>, tail: seq<Byte>)
    ensures PendingAfterAll(codec, p, WithTail(lines, tail)) ==
            PendingAfterAll(codec, PendingAfterAll(codec, p, lines), WithTail([], tail))
    ensures CallsWithin(codec, p, WithTail(lines, tail)) <==>
            CallsWithin(codec, p, lines) || CallsWithin(codec, PendingAfterAll(codec, p, lines), WithTail([], tail))
    ensures Limited(codec, WithTail(lines, tail)) <==> Limited(codec, lines) || Limited(codec, WithTail([], tail))
    decreases |lines|
  {
    hide PendingAfter, CallsWithin, CallsAt, Limited, StopsAtLimit;
    NothingPending(codec, p);
    UnlimitedByNothing(codec);
    if lines != [] {
      var all, p1 := WithTail(lines, tail), PendingAfter(codec, p, LineOf(codec, lines[0]));
      assert all[0] == lines[0] && all[1..] == WithTail(lines[1..], tail);
      WithTailShifts(codec, p1, lines[1..], tail);
      CallsWithinStep(codec, p, lines);
      CallsWithinStep(codec, p, all);
      LimitedStep(codec, lines);
      LimitedStep(codec, all);
    }
  }

  lemma {:induction false} RunCalls(codec: Codec, d: Decoder, p: Pending, lines: seq<seq<Byte>>, tail: seq<Byte>)
    requires Matches(d, p)
    ensures var (e, items) := ProcessAll(Step(codec), d, lines);
            var all := WithTail(lines, tail);
            HasCall(items + Finish(codec, Stream(tail, e)).1) <==>
            || CallsWithin(codec, p, all)
            || (!(d.outputLimited || Limited(codec, all)) && SomeWhole(codec, PendingAfterAll(codec, p, all)))
  {
    hide ProcessAll, PendingAfterAll, WithTail, CallsWithin, Limited, SomeWhole, HasCall, Matches, Finish;
    var (e, items) := ProcessAll(Step(codec), d, lines);
    var q := PendingAfterAll(codec, p, lines);
    LinesCall(codec, d, p, lines);
    LinesLimit(codec, d, lines);
    AllMatch(codec, d, p, lines);
    FinishCalls(codec, e, q, tail);
    WithTailShifts(codec, p, lines, tail);
    HasCallConcat(items, Finish(codec, Stream(tail, e)).1);
  }

  /** The end of the stream emits what the unterminated line does and then, unless the stream was
      limited, what the fragments of each key still pending come to. */
  lemma {:induction false} EndFlushes(codec: Codec, lines: seq<seq<Byte>>, tail: seq<Byte>) returns (keys: seq<ToolKey>)
    ensures var st := Stream(tail, ProcessAll(Step(codec), FRESH, lines).0);
            var p := PendingAfterAll(codec, UNSTARTED, WithTail(lines, tail));
            && ListsKeys(keys, p)
            && Outcomes(Finish(codec, st).1) ==
               Outcomes(ProcessTail(codec, st).1) +
               if Limited(codec, WithTail(lines, tail)) then [] else OutcomesOf(codec, p, keys)
  {
    hide ProcessTail, ProcessAll, PendingAfterAll, WithTail, Limited, FlushAll, Matches, FlushThinking, Conclude, Outcomes,
         ListsKeys, OutcomesOf;
    var d := ProcessAll(Step(codec), FRESH, lines).0;
    var st, p := Stream(tail, d), PendingAfterAll(codec, UNSTARTED, WithTail(lines, tail));
    var (d1, items) := ProcessTail(codec, st);
    var (d2, text) := FlushThinking(d1);
    var (d3, calls) := CloseTools(codec, d2);
    FreshMatches();
    AllMatch(codec, FRESH, UNSTARTED, lines);
    AllMatch(codec, d, PendingAfterAll(codec, UNSTARTED, lines), WithTail([], tail));
    WithTailShifts(codec, UNSTARTED, lines, tail);
    TailIsALine(codec, st);
    LinesLimit(codec, FRESH, lines);
    LinesLimit(codec, d, WithTail([], tail));
    ThinkingIsApart(d1, p);
    FlushComposes(codec, d2, p);
    FlushIsOutcomes(codec, d2.tools);
    NothingFlushed(codec);
    keys := Keys(d2.tools);
    EndIsQuiet(d1);
    EndIsQuiet(d3);
    EndOutcomes(items, text, calls, Conclude(d3).1);
  }

  lemma {:induction false} EndOutcomes(items: seq<Item>, text: seq<Item>, calls: seq<Item>, end: seq<Item>)
    requires Quiet(text) && Quiet(end)
    ensures Outcomes(items + text + calls + end) == Outcomes(items) + Outcomes(calls)
  {
    QuietHasNone(text);
    QuietHasNone(end);
    OutcomesConcat(items + text + calls, end);
    OutcomesConcat(items + text, calls);
    OutcomesConcat(items, text);
  }

  /** Which whole streams emit a tool call: exactly those where some `[DONE]` line or some
      `tool_calls` finish finds the fragments of one key making up a whole call, or where they
      do so at the end of a stream no choice of which finished with `length`. */
  lemma {:induction false} StreamCallsExactlyWhen(codec: Codec, lines: seq<seq<Byte>>, tail: seq<Byte>)
    ensures var (e, items) := ProcessAll(Step(codec), FRESH, lines);
            var all := WithTail(lines, tail);
            HasCall(items + Finish(codec, Stream(tail, e)).1) <==>
            || CallsWithin(codec, UNSTARTED, all)
            || (!Limited(codec, all) && SomeWhole(codec, PendingAfterAll(codec, UNSTARTED, all)))
  {
    hide ProcessAll, Finish, HasCall, CallsWithin, Limited, SomeWhole, PendingAfterAll, Matches;
    FreshMatches();
    RunCalls(codec, FRESH, UNSTARTED, lines, tail);
  }

  /** The decoder after a stream that ends in a line finishing with `length`. */
  function AfterCut(codec: Codec, lines: seq<seq<Byte>>, cut: seq<Byte>): Decoder {
    ProcessAll(Step(codec), FRESH, lines + [cut]).0
  }

  /** A `length` finish limits the decoder and discards whatever it had assembled. */
  lemma {:induction false} LimitDiscards(codec: Codec, lines: seq<seq<Byte>>, cut: seq<Byte>)
    requires StopsAtLimit(codec, LineOf(codec, cut))
    ensures var d := AfterCut(codec, lines, cut);
            d.outputLimited && d.tools == [] && Matches(d, UNSTARTED)
    ensures !HasCall(ProcessRaw(codec, ProcessAll(Step(codec), FRESH, lines).0, cut).1)
  {
    hide ProcessAll, ProcessLine, PendingAfterAll, HasCall, Matches;
    var before := ProcessAll(Step(codec), FRESH, lines).0;
    var p := PendingAfterAll(codec, UNSTARTED, lines);
    FreshMatches();
    AllMatch(codec, FRESH, UNSTARTED, lines);
    AllSnoc(Step(codec), FRESH, lines, cut);
    LineMatches(codec, before, p, LineOf(codec, cut));
    LineLimits(codec, before, LineOf(codec, cut));
    LineCalls(codec, before, p, LineOf(codec, cut));
    MatchesNothing(AfterCut(codec, lines, cut));
  }

  lemma {:induction false} MatchesNothing(d: Decoder)
    requires Matches(d, UNSTARTED)
    ensures d.tools == []
  {
    NothingGathered(None);
  }

  /** After a `length` finish a call is still emitted exactly when a later `[DONE]` line or
      `tool_calls` finish finds fragments that arrived after it and make up a whole call; what
      arrived before it, and the end of the stream, yield none. */
  lemma {:induction false} LimitedCallsExactlyWhen(
      codec: Codec, lines: seq<seq<Byte>>, cut: seq<Byte>, rest: seq<seq<Byte>>, tail: seq<Byte>)
    requires StopsAtLimit(codec, LineOf(codec, cut))
    ensures var (e, items) := ProcessAll(Step(codec), AfterCut(codec, lines, cut), rest);
            HasCall(items + Finish(codec, Stream(tail, e)).1) <==> CallsWithin(codec, UNSTARTED, WithTail(rest, tail))
  {
    hide ProcessAll, Finish, HasCall, CallsWithin, Limited, SomeWhole, PendingAfterAll, Matches, AfterCut, StopsAtLimit;
    LimitDiscards(codec, lines, cut);
    RunCalls(codec, AfterCut(codec, lines, cut), UNSTARTED, rest, tail);
  }

  predicate CarriesNoFragments(codec: Codec, line: string) {
    var choice := ChoiceOf(codec, line);
    choice.Some? ==> choice.value.fragments == []
  }

  lemma {:induction false} NothingToCall(codec: Codec, p: Pending, line: string)
    requires p.fragments == [] && CarriesNoFragments(codec, line)
    ensures !CallsAt(codec, p, line) && PendingAfter(codec, p, line).fragments == []
  {
  }

  lemma {:induction false} NoFragmentsNoCalls(codec: Codec, p: Pending, lines: seq<seq<Byte>>)
    requires p.fragments == []
    requires forall i :: 0 <= i < |lines| ==> CarriesNoFragments(codec, LineOf(codec, lines[i]))
    ensures !CallsWithin(codec, p, lines)
    decreases |lines|
  {
    hide PendingAfter, CallsAt, CarriesNoFragments, CallsWithin;
    if lines == [] {
      NothingPending(codec, p);
    } else {
      NothingToCall(codec, p, LineOf(codec, lines[0]));
      CallsWithinStep(codec, p, lines);
      NoFragmentsNoCalls(codec, PendingAfter(codec, p, LineOf(codec, lines[0])), lines[1..]);
    }
  }

  /** After a `length` finish no tool call is emitted, as long as no fragment follows it. */
  lemma {:induction false} OutputLimitSilencesTools(
      codec: Codec, lines: seq<seq<Byte>>, cut: seq<Byte>, rest: seq<seq<Byte>>, tail: seq<Byte>)
    requires StopsAtLimit(codec, LineOf(codec, cut))
    requires forall i :: 0 <= i < |WithTail(rest, tail)| ==>
               CarriesNoFragments(codec, LineOf(codec, WithTail(rest, tail)[i]))
    ensures var (e, items) := ProcessAll(Step(codec), AfterCut(codec, lines, cut), rest);
            !HasCall(items + Finish(codec, Stream(tail, e)).1)
  {
    hide ProcessAll, Finish, HasCall, CallsWithin, AfterCut, StopsAtLimit, CarriesNoFragments, WithTail;
    LimitedCallsExactlyWhen(codec, lines, cut, rest, tail);
    NoFragmentsNoCalls(codec, UNSTARTED, WithTail(rest, tail));
  }

  // ---------------------------------------------------------------------------
  // Calls that escape the limit

  /** One complete line of bytes. */
  predicate IsLine(raw: seq<Byte>) {
    raw != [] && T.IndexOf(raw, LF) == |raw| - 1
  }

  lemma {:induction false} CutLine(raw: seq<Byte>, rest: seq<Byte>)
    requires IsLine(raw)
    ensures Cut(raw + rest) == ([raw] + Cut(rest).0, Cut(rest).1)
  {
    IndexOfConcat(raw, rest);
    CutAt(raw + rest);
    assert (raw + rest)[..|raw|] == raw && (raw + rest)[|raw|..] == rest;
  }

  lemma {:induction false} CutOne(raw: seq<Byte>)
    requires IsLine(raw)
    ensures Cut(raw) == ([raw], [])
  {
    hide Cut, IsLine;
    var none: seq<Byte> := [];
    CutAt(none);
    CutLine(raw, none);
    assert raw + none == raw && [raw] + Cut(none).0 == [raw];
  }

  lemma {:induction false} CutThree(a: seq<Byte>, b: seq<Byte>, c: seq<Byte>)
    requires IsLine(a) && IsLine(b) && IsLine(c)
    ensures Cut(a + b + c) == ([a, b, c], [])
  {
    hide Cut, IsLine;
    CutOne(c);
    CutLine(b, c);
    CutLine(a, b + c);
    assert a + (b + c) == a + b + c;
    assert [a] + ([b] + [c]) == [a, b, c];
  }

  /** A line carries these fragments and does not finish the choice. */
  predicate Carries(codec: Codec, line: string, fragments: seq<Fragment>) {
    var choice := ChoiceOf(codec, line);
    choice.Some? && choice.value.fragments == fragments && choice.value.finish.None?
  }

  predicate EndsStream(line: string) {
    DATA <= line && T.Trim(line[|DATA|..]) == "[DONE]"
  }

  lemma {:induction false} LoneFragment(codec: Codec, f: Fragment)
    requires IsWhole(codec, [f])
    ensures SomeWhole(codec, Pending(None, [f]))
  {
    var p, key := Pending(None, [f]), KeyOf(None, f);
    assert [f][..0] == [] && FragmentsFor(key, None, []) == [] && LastAfter(None, []) == None;
    assert Of(p, key) == [] + [f];
    assert IsWhole(codec, Of(p, key));
  }

  /** The proviso is needed: `[DONE]` flushes without looking at the limit, so for every decoding
      under which three lines of bytes are a `length` finish, a fragment that makes up a call and
      the end marker, pushing them yields that call although the decoder knows of the limit. */
  lemma {:induction false} LateFragmentEscapesLimit(
      codec: Codec, cut: seq<Byte>, late: seq<Byte>, end: seq<Byte>, f: Fragment)
    requires IsLine(cut) && IsLine(late) && IsLine(end)
    requires StopsAtLimit(codec, LineOf(codec, cut)) && Carries(codec, LineOf(codec, late), [f])
    requires EndsStream(LineOf(codec, end)) && IsWhole(codec, [f])
    ensures Push(Step(codec), Stream([], FRESH), cut).0.decoder.outputLimited
    ensures HasCall(Push(Step(codec), Stream([], FRESH), cut + late + end).1)
  {
    hide ProcessAll, HasCall, LineOf, ChoiceOf, PendingAfter, FlushedBy, SomeWhole, IsLine, Cut, IsWhole, Matches;
    var none: seq<Byte> := [];
    var lines := [cut, late, end];
    assert none + (cut + late + end) == cut + late + end && none + cut == cut;
    CutOne(cut);
    LinesLimit(codec, FRESH, [cut]);
    LimitedStep(codec, [cut]);
    CutThree(cut, late, end);
    LateLines(codec, LineOf(codec, cut), LineOf(codec, late), LineOf(codec, end), f);
    LoneFragment(codec, f);
    assert lines[1..] == [late, end] && lines[1..][1..] == [end];
    FreshMatches();
    LinesCall(codec, FRESH, UNSTARTED, lines);
    CallsWithinStep(codec, UNSTARTED, lines);
    CallsWithinStep(codec, UNSTARTED, lines[1..]);
    CallsWithinStep(codec, Pending(None, [f]), [end]);
  }

  lemma {:induction false} LateLines(codec: Codec, cut: string, late: string, end: string, f: Fragment)
    requires StopsAtLimit(codec, cut) && Carries(codec, late, [f]) && EndsStream(end)
    ensures PendingAfter(codec, UNSTARTED, cut) == UNSTARTED
    ensures PendingAfter(codec, UNSTARTED, late) == Pending(None, [f])
    ensures FlushedBy(codec, Pending(None, [f]), end) == Some(Pending(None, [f]))
  {
    hide T.Trim;
    assert [] + [f] == [f];
  }
}
