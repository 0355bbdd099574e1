/** What a round says, told from the events of its stream: nothing here rests on how the stream is read or how
    the messages are put together. */
module ReplyLaws {
  import opened Wrappers
  import opened Messages
  import opened Session
  import opened TurnLaws
  import T = Text
  import Markup

  // ---------------------------------------------------------------------------
  // What a stream holds

  /** The event after which nothing of a stream is read. */
  predicate Ends(item: StreamItem) {
    item.DoneItem? || item.FaultItem? || item.UserCancel? || (item.TextDelta? && item.degenerate)
  }

  /** `n` is the position of the first such event, or the length when there is none. */
  ghost predicate EndsAt(items: seq<StreamItem>, n: nat) {
    && n <= |items|
    && (forall i :: 0 <= i < n ==> !Ends(items[i]))
    && (n < |items| ==> Ends(items[n]))
  }

  /** Everything that is read: a text that ends the stream still counts. */
  function ReadPart(items: seq<StreamItem>, n: nat): seq<StreamItem>
    requires n <= |items|
  {
    if n < |items| then items[..n + 1] else items
  }

  /** The texts of some events, in order, in one. */
  function TextIn(items: seq<StreamItem>): string {
    if items == [] then "" else (if items[0].TextDelta? then items[0].text else "") + TextIn(items[1..])
  }

  function ReasoningIn(items: seq<StreamItem>): string {
    if items == [] then "" else (if items[0].ReasoningDelta? then items[0].text else "") + ReasoningIn(items[1..])
  }

  function CallsIn(items: seq<StreamItem>): seq<ToolRequest> {
    if items == [] then [] else (if items[0].ToolCallItem? then [items[0].call] else []) + CallsIn(items[1..])
  }

  ghost predicate LimitedIn(items: seq<StreamItem>) {
    exists i :: 0 <= i < |items| && items[i].OutputLimitItem?
  }

  /** How the stream ended, told from its first ending event. */
  function EndOf(items: seq<StreamItem>, n: nat): StreamEnd {
    if n >= |items| then Broken
    else match items[n]
      case FaultItem(TooLarge) => Overflowed
      case FaultItem(Undecodable) => Broken
      case FaultItem(Fatal) => Stopped
      case UserCancel => Interrupted
      case _ => Ended
  }

  /** `later` holds what `r` holds and then what `read` brings. */
  ghost predicate Adds(r: Reply, read: seq<StreamItem>, later: Reply) {
    && later.text == r.text + TextIn(read)
    && later.reasoning == r.reasoning + ReasoningIn(read)
    && later.calls == r.calls + CallsIn(read)
    && (later.limited <==> r.limited || LimitedIn(read))
  }

  lemma {:induction false} AddsJoin(a: Reply, item: StreamItem, b: Reply, rest: seq<StreamItem>, c: Reply)
    requires Adds(a, [item], b) && Adds(b, rest, c)
    ensures Adds(a, [item] + rest, c)
  {
    HeadIn(item, rest);
    OnlyIn(item);
  }

  /** One event that does not end the stream. */
  lemma {:induction false} ReadStep(r: Reply, items: seq<StreamItem>) returns (next: Reply)
    requires items != [] && !Ends(items[0])
    ensures ReadFrom(r, items) == ReadFrom(next, items[1..]) && Adds(r, [items[0]], next)
  {
    OnlyIn(items[0]);
    next := match items[0]
      case TextDelta(text, _) => r.(text := r.text + text)
      case ReasoningDelta(text) => r.(reasoning := r.reasoning + text)
      case ToolCallItem(call) => r.(calls := r.calls + [call])
      case OutputLimitItem => r.(limited := true)
      case _ => r;
    hide TextIn, ReasoningIn, CallsIn, LimitedIn;
  }

  lemma {:induction false} ReadEnd(r: Reply, items: seq<StreamItem>)
    requires items != [] && Ends(items[0])
    ensures Adds(r, [items[0]], ReadFrom(r, items)) && ReadFrom(r, items).end == EndOf(items, 0)
  {
    OnlyIn(items[0]);
    hide TextIn, ReasoningIn, CallsIn, LimitedIn;
  }

  lemma {:induction false} ReadNothing(r: Reply)
    ensures ReadFrom(r, []) == r.(end := Broken) && Adds(r, [], r.(end := Broken))
  {
    NothingIn();
  }

  lemma {:induction false} ReadOn(r: Reply, items: seq<StreamItem>, n: nat)
    requires EndsAt(items, n)
    ensures Adds(r, ReadPart(items, n), ReadFrom(r, items)) && ReadFrom(r, items).end == EndOf(items, n)
    decreases |items|
  {
    hide ReadFrom, Adds, Ends;
    if items == [] {
      ReadNothing(r);
    } else if n == 0 {
      ReadEnd(r, items);
      assert items[..1] == [items[0]];
    } else {
      var next := ReadStep(r, items);
      ReadOn(next, items[1..], n - 1);
      assert ReadPart(items, n) == [items[0]] + ReadPart(items[1..], n - 1);
      AddsJoin(r, items[0], next, ReadPart(items[1..], n - 1), ReadFrom(r, items));
    }
  }

  lemma {:induction false} NothingIn()
    ensures TextIn([]) == "" && ReasoningIn([]) == "" && CallsIn([]) == [] && !LimitedIn([])
  {
  }

  lemma {:induction false} OnlyIn(item: StreamItem)
    ensures TextIn([item]) == (if item.TextDelta? then item.text else "") + ""
    ensures ReasoningIn([item]) == (if item.ReasoningDelta? then item.text else "") + ""
    ensures CallsIn([item]) == (if item.ToolCallItem? then [item.call] else []) + []
    ensures LimitedIn([item]) <==> item.OutputLimitItem?
  {
    NothingIn();
    assert [item][1..] == [];
    if item.OutputLimitItem? {
      assert [item][0].OutputLimitItem?;
    }
  }

  lemma {:induction false} HeadIn(item: StreamItem, rest: seq<StreamItem>)
    ensures TextIn([item] + rest) == (if item.TextDelta? then item.text else "") + TextIn(rest)
    ensures ReasoningIn([item] + rest) == (if item.ReasoningDelta? then item.text else "") + ReasoningIn(rest)
    ensures CallsIn([item] + rest) == (if item.ToolCallItem? then [item.call] else []) + CallsIn(rest)
    ensures LimitedIn([item] + rest) <==> item.OutputLimitItem? || LimitedIn(rest)
  {
    var all := [item] + rest;
    assert all[1..] == rest;
    if LimitedIn(rest) {
      var i :| 0 <= i < |rest| && rest[i].OutputLimitItem?;
      assert all[i + 1].OutputLimitItem?;
    }
    if item.OutputLimitItem? {
      assert all[0].OutputLimitItem?;
    }
    if LimitedIn(all) && !item.OutputLimitItem? {
      var i :| 0 <= i < |all| && all[i].OutputLimitItem?;
      assert rest[i - 1].OutputLimitItem?;
    }
  }

  // ---------------------------------------------------------------------------
  // What of it is persisted

  lemma {:induction false} BlankIsSpace(s: string)
    ensures Blank(s) <==> T.AllSpace(s)
  {
    Markup.TrimIsEmpty(s);
  }

  predicate AllBreaks(s: string) {
    forall i :: 0 <= i < |s| ==> s[i] == '\r' || s[i] == '\n'
  }

  /** `t` is `s` without the line breaks at its ends. */
  ghost predicate BreakTrimmed(s: string, t: string) {
    && (exists a, b :: AllBreaks(a) && AllBreaks(b) && s == a + t + b)
    && (t != "" ==> t[0] !in ['\r', '\n'] && t[|t| - 1] !in ['\r', '\n'])
  }

  lemma {:induction false} DropBreaksOf(s: string) returns (a: string)
    ensures AllBreaks(a) && s == a + DropBreaks(s)
    ensures DropBreaks(s) != "" ==> DropBreaks(s)[0] !in ['\r', '\n']
  {
    a := "";
    if s != "" && IsBreak(s[0]) {
      a := DropBreaksOf(s[1..]);
      a := [s[0]] + a;
    }
  }

  lemma {:induction false} DropEndBreaksOf(s: string) returns (b: string)
    ensures AllBreaks(b) && s == DropEndBreaks(s) + b
    ensures DropEndBreaks(s) != "" ==> DropEndBreaks(s)[|DropEndBreaks(s)| - 1] !in ['\r', '\n']
  {
    b := "";
    if s != "" && IsBreak(s[|s| - 1]) {
      b := DropEndBreaksOf(s[..|s| - 1]);
      b := b + [s[|s| - 1]];
    }
  }

  lemma {:induction false} TrimsBreaks(s: string)
    ensures BreakTrimmed(s, TrimBlankLines(s))
  {
    hide DropBreaks, DropEndBreaks;
    var a := DropBreaksOf(s);
    var t := DropBreaks(s);
    var b := DropEndBreaksOf(t);
    assert s == a + TrimBlankLines(s) + b;
    assert TrimBlankLines(s) != "" ==> TrimBlankLines(s)[0] == t[0];
  }

  /** Where such a text lies. */
  ghost predicate Core(s: string, p: nat, q: nat) {
    && p < q <= |s|
    && (forall i :: 0 <= i < p || q <= i < |s| ==> s[i] in ['\r', '\n'])
    && s[p] !in ['\r', '\n'] && s[q - 1] !in ['\r', '\n']
  }

  lemma {:induction false} TrimHasCore(s: string, t: string) returns (p: nat)
    requires BreakTrimmed(s, t)
    ensures if t == "" then AllBreaks(s) else p + |t| <= |s| && Core(s, p, p + |t|) && t == s[p..p + |t|]
  {
    var a, b :| AllBreaks(a) && AllBreaks(b) && s == a + t + b;
    p := |a|;
    if t != "" {
      assert s[p] == t[0] && s[p + |t| - 1] == t[|t| - 1];
    }
  }

  /** There is only one such text. */
  lemma {:induction false} TrimIsUnique(s: string, t: string, u: string)
    requires BreakTrimmed(s, t) && BreakTrimmed(s, u)
    ensures t == u
  {
    var p := TrimHasCore(s, t);
    var q := TrimHasCore(s, u);
    hide BreakTrimmed;
  }

  predicate GoodCall(c: ToolRequest) {
    !T.AllSpace(c.id) && !T.AllSpace(c.name) && c.input.isObject
  }

  /** Every call has an id, a name and an object for its input. */
  ghost predicate GoodBatch(calls: seq<ToolRequest>) {
    forall i :: 0 <= i < |calls| ==> GoodCall(calls[i])
  }

  /** The calls of a batch that have an id. */
  function Answerable(calls: seq<ToolRequest>): seq<ToolRequest> {
    if calls == [] then []
    else Answerable(calls[..|calls| - 1]) + if T.AllSpace(calls[|calls| - 1].id) then [] else [calls[|calls| - 1]]
  }

  /** What the first thing wrong with a call is. */
  function Complaint(c: ToolRequest): string {
    if T.AllSpace(c.id) then "Tool call error: missing tool-call id. Retry with a valid id."
    else if T.AllSpace(c.name) then "Tool call error: missing tool name. Retry with a registered tool name."
    else "Tool call error for " + c.name + ": input must be a JSON object matching the tool schema."
  }

  /** `why` is what is wrong with the first call that is not good. */
  ghost predicate Rejects(calls: seq<ToolRequest>, why: string) {
    exists i :: 0 <= i < |calls| && GoodBatch(calls[..i]) && !GoodCall(calls[i]) && why == Complaint(calls[i])
  }

  lemma {:induction false} ValidationSays(calls: seq<ToolRequest>)
    ensures InvalidToolCalls(calls).None? <==> GoodBatch(calls)
    ensures InvalidToolCalls(calls).Some? ==> Rejects(calls, InvalidToolCalls(calls).value)
  {
    hide T.AllSpace, Blank, Complaint;
    if calls != [] {
      var c, rest := calls[0], calls[1..];
      CallSays(c);
      ValidationSays(rest);
      hide GoodCall;
      if !GoodCall(c) {
        assert GoodBatch(calls[..0]);
        assert !GoodCall(calls[0]);
      } else if GoodBatch(rest) {
        forall i | 0 <= i < |calls| ensures GoodCall(calls[i]) {
          assert i > 0 ==> calls[i] == rest[i - 1];
        }
      } else {
        RejectsLater(calls, InvalidToolCalls(rest).value);
      }
    }
  }

  /** What the validation says of one call. */
  lemma {:induction false} CallSays(c: ToolRequest)
    ensures Blank(c.id) <==> T.AllSpace(c.id)
    ensures Blank(c.name) <==> T.AllSpace(c.name)
    ensures Complaint(c) ==
            if Blank(c.id) then "Tool call error: missing tool-call id. Retry with a valid id."
            else if Blank(c.name) then "Tool call error: missing tool name. Retry with a registered tool name."
            else "Tool call error for " + c.name + ": input must be a JSON object matching the tool schema."
  {
    hide Blank, T.AllSpace;
    BlankIsSpace(c.id);
    BlankIsSpace(c.name);
  }

  lemma {:induction false} RejectsLater(calls: seq<ToolRequest>, why: string)
    requires calls != [] && GoodCall(calls[0]) && Rejects(calls[1..], why)
    ensures Rejects(calls, why) && !GoodBatch(calls)
  {
    hide GoodCall, Complaint;
    var rest := calls[1..];
    var i :| 0 <= i < |rest| && GoodBatch(rest[..i]) && !GoodCall(rest[i]) && why == Complaint(rest[i]);
    var before := calls[..i + 1];
    forall k | 0 <= k < |before| ensures GoodCall(before[k]) {
      assert k > 0 ==> before[k] == rest[..i][k - 1];
    }
    assert !GoodCall(calls[i + 1]);
  }

  lemma {:induction false} WithIdsSnoc(calls: seq<ToolRequest>, c: ToolRequest)
    ensures WithIds(calls + [c]) == WithIds(calls) + if Blank(c.id) then [] else [c]
  {
    hide Blank;
    if calls == [] {
      assert calls + [c] == [c] && [c][1..] == [];
    } else {
      assert (calls + [c])[1..] == calls[1..] + [c];
      WithIdsSnoc(calls[1..], c);
    }
  }

  lemma {:induction false} AnswerableAreKept(calls: seq<ToolRequest>)
    ensures WithIds(calls) == Answerable(calls)
  {
    hide Blank, T.AllSpace;
    if calls != [] {
      var init, c := calls[..|calls| - 1], calls[|calls| - 1];
      assert calls == init + [c];
      AnswerableAreKept(init);
      WithIdsSnoc(init, c);
      BlankIsSpace(c.id);
    }
  }

  function Uses(calls: seq<ToolRequest>): seq<Block> {
    seq(|calls|, i requires 0 <= i < |calls| => ToolUse(calls[i].id, calls[i].name, calls[i].input))
  }

  lemma {:induction false} CallBlocksAreUses(calls: seq<ToolRequest>)
    ensures CallBlocks(calls) == Uses(calls)
  {
    if calls != [] {
      CallBlocksAreUses(calls[1..]);
      assert Uses(calls) == [ToolUse(calls[0].id, calls[0].name, calls[0].input)] + Uses(calls[1..]);
    }
  }

  /** The assistant message: reasoning, text and calls in that order, none of them when there is nothing. */
  function Utterance(reasoning: string, text: string, calls: seq<ToolRequest>): seq<Message> {
    var blocks := (if T.AllSpace(reasoning) then [] else [Reasoning(reasoning, None)])
                + (if T.AllSpace(text) then [] else [Text(text)]) + Uses(calls);
    if blocks == [] then [] else [Message(Assistant, blocks, None)]
  }

  function Steered(texts: seq<string>): seq<Message> {
    seq(|texts|, i requires 0 <= i < |texts| => Message(User, [Text(texts[i])], None))
  }

  function Answer(id: string, output: string, isError: bool): Message {
    Message(Tool, [ToolResult(id, output, isError)], None)
  }

  /** Number `i` of the outcomes is there and is no abort. */
  predicate RanThrough(dispatches: seq<Dispatch>, i: nat) {
    i < |dispatches| && dispatches[i].Finished?
  }

  /** `m` of `n` calls are run: all, or those up to the first that is aborted. */
  ghost predicate RunsTo(dispatches: seq<Dispatch>, n: nat, m: nat) {
    && m <= n
    && (forall i :: 0 <= i < m - 1 ==> RanThrough(dispatches, i))
    && (m < n ==> m > 0 && !RanThrough(dispatches, m - 1))
  }

  /** The results of the first `m` calls, each under the id of its call. */
  function Answers(calls: seq<ToolRequest>, dispatches: seq<Dispatch>, m: nat): seq<Message>
    requires m <= |calls|
  {
    seq(m, i requires 0 <= i < m =>
      if RanThrough(dispatches, i) then Answer(calls[i].id, dispatches[i].output, dispatches[i].isError)
      else Answer(calls[i].id, "cancelled by the user; execution aborted", true))
  }

  /** The answers to a rejected batch, or a note to the model when there is nothing to answer. */
  function Refusals(calls: seq<ToolRequest>, why: string): seq<Message> {
    if calls == [] then [Message(User, [Text(why)], Some("tool call rejected"))]
    else seq(|calls|, i requires 0 <= i < |calls| => Answer(calls[i].id, "tool call rejected: " + why, true))
  }

  /** The stream of a round arrives whole and is worth acting on. */
  ghost predicate ArrivesWhole(r: Round, items: seq<StreamItem>, n: nat) {
    && !r.cancelled && r.open == Opened(items) && EndsAt(items, n)
    && n < |items| && (items[n].DoneItem? || items[n].TextDelta?)
    && !LimitedIn(ReadPart(items, n)) && !r.badOutput
  }

  lemma {:induction false} SteeredIs(texts: seq<string>)
    ensures UserTexts(texts) == Steered(texts)
  {
  }

  lemma {:induction false} ReplyIs(items: seq<StreamItem>, n: nat)
    requires EndsAt(items, n)
    ensures var read, reply := ReadPart(items, n), ReadFrom(EMPTY_REPLY, items);
            && reply.text == TextIn(read) && reply.reasoning == ReasoningIn(read) && reply.calls == CallsIn(read)
            && (reply.limited <==> LimitedIn(read)) && reply.end == EndOf(items, n)
  {
    hide ReadFrom, TextIn, ReasoningIn, CallsIn, LimitedIn;
    ReadOn(EMPTY_REPLY, items, n);
    var read := ReadPart(items, n);
    assert "" + TextIn(read) == TextIn(read) && "" + ReasoningIn(read) == ReasoningIn(read);
    assert [] + CallsIn(read) == CallsIn(read);
  }

  lemma {:induction false} SpokenIs(reply: Reply, calls: seq<ToolRequest>, text: string, reasoning: string)
    requires BreakTrimmed(reply.text, text) && BreakTrimmed(reply.reasoning, reasoning)
    ensures Spoken(reply, calls) == Utterance(reasoning, text, calls)
  {
    hide TrimBlankLines, BreakTrimmed, Blank, T.AllSpace, CallBlocks, Uses;
    TrimsBreaks(reply.text);
    TrimsBreaks(reply.reasoning);
    TrimIsUnique(reply.text, text, TrimBlankLines(reply.text));
    TrimIsUnique(reply.reasoning, reasoning, TrimBlankLines(reply.reasoning));
    BlankIsSpace(text);
    BlankIsSpace(reasoning);
    CallBlocksAreUses(calls);
  }

  lemma {:induction false} RunUntilIs(dispatches: seq<Dispatch>, k: nat, n: nat, m: nat)
    requires k <= n && RunsTo(dispatches, n, m) && (k < n ==> k < m) && (forall i :: 0 <= i < k ==> RanThrough(dispatches, i))
    ensures k < n ==> RunUntil(dispatches, k, n) == m
    decreases n - k
  {
    if k < n && RanThrough(dispatches, k) {
      RunUntilIs(dispatches, k + 1, n, m);
    }
  }

  lemma {:induction false} AnswersAre(calls: seq<ToolRequest>, dispatches: seq<Dispatch>, m: nat)
    requires m <= |calls|
    ensures ResultsOf(calls, dispatches, m) == Answers(calls, dispatches, m)
  {
  }

  lemma {:induction false} RefusalsAre(calls: seq<ToolRequest>, why: string)
    ensures Rejections(calls, why) + (if calls == [] then [SyntheticUser(why, "tool call rejected")] else [])
         == Refusals(calls, why)
  {
    if calls == [] {
      assert Rejections(calls, why) == [];
    }
  }

  lemma {:induction false} NoAnswers(dispatches: seq<Dispatch>)
    ensures Answers([], dispatches, 0) == []
  {
  }

  /** A round whose stream arrives whole persists, behind what the user steered, the texts and the reasoning of
      the stream in the order they came, line breaks trimmed at both ends, and the calls; each call of a good
      batch is answered with what its tool gave, up to the first that is aborted, and the turn goes on unless there
      was no call or one was aborted. */
  lemma {:induction false} RoundSays(
      r: Round, retried: bool, items: seq<StreamItem>, n: nat, text: string, reasoning: string, m: nat)
    requires ArrivesWhole(r, items, n)
    requires BreakTrimmed(TextIn(ReadPart(items, n)), text) && BreakTrimmed(ReasoningIn(ReadPart(items, n)), reasoning)
    requires GoodBatch(CallsIn(ReadPart(items, n))) && RunsTo(r.dispatches, |CallsIn(ReadPart(items, n))|, m)
    ensures var calls, act := CallsIn(ReadPart(items, n)), RoundAct(r, retried);
            && act.said == Steered(r.steering) + (Utterance(reasoning, text, calls) + Answers(calls, r.dispatches, m))
            && act.stop == (if calls == [] then Some(Done)
                            else if RanThrough(r.dispatches, m - 1) then None else Some(Cancelled))
            && act.open == Ids(calls[m..]) && !act.again
  {
    hide ReadFrom, TextIn, ReasoningIn, CallsIn, LimitedIn, Utterance, Spoken, ResultsOf, Answers, BreakTrimmed, GoodBatch,
         InvalidToolCalls, RunUntil, UserTexts, Steered, EndsAt;
    var read := ReadPart(items, n);
    var calls := CallsIn(read);
    ReplyIs(items, n);
    SteeredIs(r.steering);
    ValidationSays(calls);
    SpokenIs(ReadFrom(EMPTY_REPLY, items), calls, text, reasoning);
    if calls == [] {
      NoAnswers(r.dispatches);
      assert Utterance(reasoning, text, calls) + [] == Utterance(reasoning, text, calls);
      assert Ids(calls[m..]) == [];
    } else {
      RunUntilIs(r.dispatches, 0, |calls|, m);
      AnswersAre(calls, r.dispatches, m);
      assert Ids(calls)[m..] == Ids(calls[m..]);
    }
  }

  /** A batch with a call that is not good is rejected as a whole: what can be answered is persisted and refused,
      and the turn goes on. */
  lemma {:induction false} RoundRefuses(
      r: Round, retried: bool, items: seq<StreamItem>, n: nat, text: string, reasoning: string, why: string)
    requires ArrivesWhole(r, items, n)
    requires BreakTrimmed(TextIn(ReadPart(items, n)), text) && BreakTrimmed(ReasoningIn(ReadPart(items, n)), reasoning)
    requires Rejects(CallsIn(ReadPart(items, n)), why)
    ensures var kept, act := Answerable(CallsIn(ReadPart(items, n))), RoundAct(r, retried);
            && act.said == Steered(r.steering) + (Utterance(reasoning, text, kept) + Refusals(kept, why))
            && act.stop.None? && act.open == [] && !act.again
  {
    hide ReadFrom, TextIn, ReasoningIn, CallsIn, LimitedIn, Utterance, Spoken, Rejections, Refusals, BreakTrimmed,
         InvalidToolCalls, RunUntil, UserTexts, Steered, EndsAt, WithIds, Answerable, SyntheticUser, Complaint, GoodCall;
    var read := ReadPart(items, n);
    var calls := CallsIn(read);
    ReplyIs(items, n);
    SteeredIs(r.steering);
    ValidationSays(calls);
    var i :| 0 <= i < |calls| && GoodBatch(calls[..i]) && !GoodCall(calls[i]) && why == Complaint(calls[i]);
    assert !GoodBatch(calls);
    FirstIsUnique(calls, why, InvalidToolCalls(calls).value);
    AnswerableAreKept(calls);
    SpokenIs(ReadFrom(EMPTY_REPLY, items), Answerable(calls), text, reasoning);
    RefusalsAre(Answerable(calls), why);
    var kept := Answerable(calls);
    var tail := if kept == [] then [SyntheticUser(why, "tool call rejected")] else [];
    assert Utterance(reasoning, text, kept) + Rejections(kept, why) + tail
        == Utterance(reasoning, text, kept) + (Rejections(kept, why) + tail);
  }

  lemma {:induction false} FirstIsUnique(calls: seq<ToolRequest>, a: string, b: string)
    requires Rejects(calls, a) && Rejects(calls, b)
    ensures a == b
  {
    hide GoodCall, Complaint;
    var i :| 0 <= i < |calls| && GoodBatch(calls[..i]) && !GoodCall(calls[i]) && a == Complaint(calls[i]);
    var j :| 0 <= j < |calls| && GoodBatch(calls[..j]) && !GoodCall(calls[j]) && b == Complaint(calls[j]);
    if i < j {
      GoodBefore(calls, j, i);
    } else if j < i {
      GoodBefore(calls, i, j);
    }
  }

  lemma {:induction false} GoodBefore(calls: seq<ToolRequest>, n: nat, i: nat)
    requires i < n <= |calls| && GoodBatch(calls[..n])
    ensures GoodCall(calls[i])
  {
    assert calls[..n][i] == calls[i];
  }

  function RepairNote(): Message {
    Message(User, [Text(REPAIR_PROMPT)], Some("repair prompt"))
  }

  /** What every other round says and how it ends: only what the user steered, and a repair prompt when the
      stream broke off or read badly and the model is not given up. */
  function OtherEnd(r: Round, retried: bool, n: nat): (Option<StopReason>, bool) {
    match r.open
    case OpenCancelled => (Some(Cancelled), false)
    case OpenFailed => (Some(ProviderError), false)
    case OpenOverflow => if retried then (Some(ProviderError), false) else (None, true)
    case Opened(items) =>
      match EndOf(items, n)
      case Interrupted => (Some(Cancelled), false)
      case Stopped => (Some(ProviderError), false)
      case Overflowed => if retried then (Some(ProviderError), false) else (None, true)
      case _ => (if r.degraded then Some(Degraded) else None, false)
  }

  lemma {:induction false} RoundOtherwise(r: Round, retried: bool, n: nat)
    requires !r.cancelled
    requires r.open.Opened? ==> EndsAt(r.open.items, n)
    requires r.open.Opened? ==> !ArrivesWhole(r, r.open.items, n) && !LimitedIn(ReadPart(r.open.items, n))
    ensures var act, end := RoundAct(r, retried), OtherEnd(r, retried, n);
            && (act.stop, act.again) == end && act.open == []
            && act.said == Steered(r.steering) +
               if r.open.Opened? && EndOf(r.open.items, n) in {Ended, Broken} && !r.degraded then [RepairNote()] else []
  {
    hide ReadFrom, TextIn, ReasoningIn, CallsIn, LimitedIn, UserTexts, Steered, ActOn;
    SteeredIs(r.steering);
    if r.open.Opened? {
      ReplyIs(r.open.items, n);
    }
  }

  /** A round that hits the output limit, or is cancelled before it starts. */
  lemma {:induction false} RoundGivesUp(r: Round, retried: bool, n: nat)
    ensures r.cancelled ==> RoundAct(r, retried) == Act([], Some(Cancelled), false, [])
    ensures !r.cancelled && r.open.Opened? && EndsAt(r.open.items, n) && LimitedIn(ReadPart(r.open.items, n))
            && EndOf(r.open.items, n) in {Ended, Broken}
            ==> RoundAct(r, retried) == Act(Steered(r.steering), Some(ProviderError), false, [])
  {
    hide ReadFrom, TextIn, ReasoningIn, CallsIn, LimitedIn, UserTexts, Steered, EndsAt, ActOn;
    SteeredIs(r.steering);
    assert Steered(r.steering) + [] == Steered(r.steering);
    if r.open.Opened? && EndsAt(r.open.items, n) {
      ReplyIs(r.open.items, n);
    }
  }

  // ---------------------------------------------------------------------------
  // Whole turns

  /** What the first `n` rounds say, one after the other. */
  function Heard(script: seq<Round>, n: nat, retried: bool): seq<Message>
    requires n <= |script|
  {
    if n == 0 then []
    else Heard(script, n - 1, retried) + RoundAct(script[n - 1], RetriedBefore(script, n - 1, retried)).said
  }

  /** Round `i` of a turn, with what was retried before it. */
  function ActAt(script: seq<Round>, i: nat, retried: bool): Act
    requires i < |script|
  {
    RoundAct(script[i], RetriedBefore(script, i, retried))
  }

  lemma {:induction false} HeardShifts(script: seq<Round>, n: nat, retried: bool)
    requires 0 < n <= |script|
    requires RoundAct(script[0], retried).stop.None?
    ensures Heard(script, n, retried) ==
            RoundAct(script[0], retried).said + Heard(script[1..], n - 1, retried || Overflows(script[0]))
  {
    hide RoundAct, Overflows, RetriedBefore;
    RetriedShifts(script, n - 1, retried);
    if n == 1 {
      var said := RoundAct(script[0], retried).said;
      assert [] + said == said + [];
    } else {
      HeardShifts(script, n - 1, retried);
      RetriedShifts(script, n - 2, retried);
      var a, b := RoundAct(script[0], retried).said, Heard(script[1..], n - 2, retried || Overflows(script[0]));
      assert a + b + ActAt(script, n - 1, retried).said == a + (b + ActAt(script, n - 1, retried).said);
    }
  }

  /** A turn says what its rounds say, in order, up to and including the first that ends it, and ends as that one
      does; a script that no round ends leaves the turn running. */
  lemma {:induction false} PlaySays(script: seq<Round>, n: nat, retried: bool)
    requires n < |script| && forall i :: 0 <= i < n ==> ActAt(script, i, retried).stop.None?
    ensures ActAt(script, n, retried).stop.Some? ==>
              && Play(script, retried).said == Heard(script, n + 1, retried)
              && Play(script, retried).reason == ActAt(script, n, retried).stop.value
              && Play(script, retried).open == ActAt(script, n, retried).open
    ensures n == |script| - 1 && ActAt(script, n, retried).stop.None? ==>
              Play(script, retried).said == Heard(script, |script|, retried) && Play(script, retried).reason == StillRunning
    decreases |script|
  {
    hide RoundAct, Overflows, RetriedBefore, Heard;
    var act := RoundAct(script[0], retried);
    RetriedShifts(script, 0, retried);
    RoundOpensExactlyWhen(script[0], retried);
    HeardOne(script, retried);
    assert ActAt(script, 0, retried) == act;
    if n == 0 {
      if act.stop.None? && |script| == 1 {
        PlayNothing(retried || act.again);
        assert script[1..] == [];
        assert act.said + [] == act.said;
      }
    } else {
      var rest, later := script[1..], retried || Overflows(script[0]);
      forall i | 0 <= i < n ensures ActAt(rest, i, later) == ActAt(script, i + 1, retried) {
        RetriedShifts(script, i, retried);
      }
      RetriedShifts(script, n - 1, retried);
      PlaySays(rest, n - 1, later);
      HeardShifts(script, n + 1, retried);
    }
  }

  lemma {:induction false} HeardOne(script: seq<Round>, retried: bool)
    requires script != []
    ensures Heard(script, 1, retried) == ActAt(script, 0, retried).said
  {
    hide RoundAct, RetriedBefore;
    assert Heard(script, 1, retried) == Heard(script, 0, retried) + ActAt(script, 0, retried).said;
  }

  lemma {:induction false} PlayNothing(retried: bool)
    ensures Play([], retried) == Played([], StillRunning, 0, [])
  {
  }
}
