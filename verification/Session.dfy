/** The agent loop: one user turn as a state machine over provider and tool outcomes, and the
    other operations that touch the conversation.

    Provider, tools, steering input, recovery and cancellation are arbitrary: a turn is given
    one `Round` per pass through its loop, and every claim holds for every sequence of rounds. */
module Session {
  import opened Wrappers
  import opened Messages
  import opened History
  import C = Compaction
  import L = CompactionLaws
  import K = Compactor
  import S = Summary
  import T = Text

  const FORCE_COMPACT_FLOOR := 4096
  const REPAIR_PROMPT := "Your previous response was unusable. Stop, and produce a clean, well-formed reply."

  datatype StopReason = Done | Cancelled | ProviderError | Degraded | StillRunning

  datatype ToolRequest = ToolRequest(id: string, name: string, input: Json)

  datatype StreamFault = TooLarge | Undecodable | Fatal

  datatype StreamItem =
    | TextDelta(text: string, degenerate: bool)
    | ReasoningDelta(text: string)
    | ToolCallItem(call: ToolRequest)
    | UsageItem
    | WarningItem
    | OutputLimitItem
    | DoneItem
    | FaultItem(fault: StreamFault)
    | UserCancel

  datatype OpenOutcome = Opened(items: seq<StreamItem>) | OpenCancelled | OpenFailed | OpenOverflow

  /** What the registry answers for one call; the tool may be aborted by the user. */
  datatype Dispatch = Finished(output: string, isError: bool) | Aborted

  /** Everything the outside world does during one pass through the turn loop. */
  datatype Round = Round(
    cancelled: bool,
    steering: seq<string>,
    digest: Option<string>,
    shrinkDigest: Option<string>,
    open: OpenOutcome,
    badOutput: bool,
    degraded: bool,
    dispatches: seq<Dispatch>)

  // ---------------------------------------------------------------------------
  // Reading one provider stream

  datatype StreamEnd = Ended | Broken | Overflowed | Stopped | Interrupted

  datatype Reply = Reply(
    end: StreamEnd, text: string, reasoning: string, calls: seq<ToolRequest>, limited: bool)

  const EMPTY_REPLY := Reply(Broken, "", "", [], false)

  /** The reply after the remaining items, given what was read so far. A stream that just
      stops is broken. */
  function ReadFrom(r: Reply, items: seq<StreamItem>): Reply
    decreases |items|
  {
    if items == [] then r.(end := Broken)
    else match items[0]
      case TextDelta(text, degenerate) =>
        var r' := r.(text := r.text + text);
        if degenerate then r'.(end := Ended) else ReadFrom(r', items[1..])
      case ReasoningDelta(text) => ReadFrom(r.(reasoning := r.reasoning + text), items[1..])
      case ToolCallItem(call) => ReadFrom(r.(calls := r.calls + [call]), items[1..])
      case UsageItem => ReadFrom(r, items[1..])
      case WarningItem => ReadFrom(r, items[1..])
      case OutputLimitItem => ReadFrom(r.(limited := true), items[1..])
      case DoneItem => r.(end := Ended)
      case FaultItem(TooLarge) => r.(end := Overflowed)
      case FaultItem(Undecodable) => r.(end := Broken)
      case FaultItem(Fatal) => r.(end := Stopped)
      case UserCancel => r.(end := Interrupted)
  }

  method ReadStream(items: seq<StreamItem>) returns (r: Reply)
    ensures r == ReadFrom(EMPTY_REPLY, items)
  {
    r := EMPTY_REPLY;
    for i := 0 to |items|
      invariant ReadFrom(EMPTY_REPLY, items) == ReadFrom(r, items[i..])
    {
      assert items[i..][0] == items[i] && items[i..][1..] == items[i + 1..];
      match items[i]
      case TextDelta(text, degenerate) =>
        r := r.(text := r.text + text);
        if degenerate {
          return r.(end := Ended);
        }
      case ReasoningDelta(text) => r := r.(reasoning := r.reasoning + text);
      case ToolCallItem(call) => r := r.(calls := r.calls + [call]);
      case UsageItem =>
      case WarningItem =>
      case OutputLimitItem => r := r.(limited := true);
      case DoneItem => return r.(end := Ended);
      case FaultItem(fault) =>
        return r.(end := match fault case TooLarge => Overflowed case Undecodable => Broken case Fatal => Stopped);
      case UserCancel => return r.(end := Interrupted);
    }
    r := r.(end := Broken);
  }

  // ---------------------------------------------------------------------------
  // Assistant messages

  predicate Blank(s: string) {
    T.Trim(s) == ""
  }

  function InvalidToolCalls(calls: seq<ToolRequest>): Option<string> {
    if calls == [] then None
    else
      var c := calls[0];
      if Blank(c.id) then Some("Tool call error: missing tool-call id. Retry with a valid id.")
      else if Blank(c.name) then
        Some("Tool call error: missing tool name. Retry with a registered tool name.")
      else if !c.input.isObject then
        Some("Tool call error for " + c.name + ": input must be a JSON object matching the tool schema.")
      else InvalidToolCalls(calls[1..])
  }

  function WithIds(calls: seq<ToolRequest>): seq<ToolRequest> {
    if calls == [] then []
    else (if Blank(calls[0].id) then [] else [calls[0]]) + WithIds(calls[1..])
  }

  function Ids(calls: seq<ToolRequest>): (r: seq<string>)
    ensures |r| == |calls|
    ensures forall i :: 0 <= i < |calls| ==> r[i] == calls[i].id
  {
    seq(|calls|, i requires 0 <= i < |calls| => calls[i].id)
  }

  predicate IsBreak(c: char) {
    c == '\r' || c == '\n'
  }

  function DropBreaks(s: string): string {
    if s != [] && IsBreak(s[0]) then DropBreaks(s[1..]) else s
  }

  function DropEndBreaks(s: string): string {
    if s != [] && IsBreak(s[|s| - 1]) then DropEndBreaks(s[..|s| - 1]) else s
  }

  function TrimBlankLines(s: string): string {
    DropEndBreaks(DropBreaks(s))
  }

  function CallBlocks(calls: seq<ToolRequest>): seq<Block> {
    if calls == [] then []
    else [ToolUse(calls[0].id, calls[0].name, calls[0].input)] + CallBlocks(calls[1..])
  }

  function ProseBlocks(reply: Reply): seq<Block> {
    var reasoning, text := TrimBlankLines(reply.reasoning), TrimBlankLines(reply.text);
    (if Blank(reasoning) then [] else [Reasoning(reasoning, None)]) +
    (if Blank(text) then [] else [Text(text)])
  }

  function AssistantMessage(reply: Reply, calls: seq<ToolRequest>): Message {
    Message(Assistant, ProseBlocks(reply) + CallBlocks(calls), None)
  }

  function ResultMessage(id: string, output: string, isError: bool): Message {
    Message(Tool, [ToolResult(id, output, isError)], None)
  }

  function SyntheticUser(text: string, why: string): Message {
    Message(User, [Text(text)], Some(why))
  }

  lemma {:induction false} CallBlocksAre(calls: seq<ToolRequest>)
    ensures UseIds(CallBlocks(calls)) == Ids(calls) && !HasResult(CallBlocks(calls))
    ensures S.FirstText(CallBlocks(calls)) == None
  {
    if calls != [] {
      CallBlocksAre(calls[1..]);
      var rest := CallBlocks(calls)[1..];
      assert rest == CallBlocks(calls[1..]);
      assert !HasResult(rest);
      assert Ids(calls) == [calls[0].id] + Ids(calls[1..]);
      forall i | 0 <= i < |CallBlocks(calls)| ensures !CallBlocks(calls)[i].ToolResult? {
        assert i > 0 ==> CallBlocks(calls)[i] == rest[i - 1];
      }
    }
  }

  lemma {:induction false} ProseBlocksAre(reply: Reply)
    ensures UseIds(ProseBlocks(reply)) == [] && !HasResult(ProseBlocks(reply))
  {
    var b := ProseBlocks(reply);
    if b != [] {
      assert UseIds(b[1..]) == [] by {
        if |b| > 1 {
          assert b[1..][1..] == [];
        }
      }
    }
  }

  /** The assistant message asks for exactly the given calls, in order, and answers none. */
  lemma {:induction false} AssistantMessageAsks(reply: Reply, calls: seq<ToolRequest>)
    ensures AssistantMessage(reply, calls).role == Assistant
    ensures UseIds(AssistantMessage(reply, calls).content) == Ids(calls)
    ensures !HasResult(AssistantMessage(reply, calls).content)
  {
    hide ProseBlocks, CallBlocks, UseIds, HasResult, Ids;
    CallBlocksAre(calls);
    ProseBlocksAre(reply);
    L.UseIdsConcat(ProseBlocks(reply), CallBlocks(calls));
    NoResultConcat(ProseBlocks(reply), CallBlocks(calls));
    assert [] + Ids(calls) == Ids(calls);
  }

  lemma {:induction false} NoResultConcat(a: seq<Block>, b: seq<Block>)
    requires !HasResult(a) && !HasResult(b)
    ensures !HasResult(a + b)
  {
  }

  lemma {:induction false} FirstTextOfCalls(head: seq<Block>, calls: seq<ToolRequest>)
    ensures S.FirstText(head + CallBlocks(calls)) == S.FirstText(head)
  {
    if head == [] {
      assert head + CallBlocks(calls) == CallBlocks(calls);
      CallBlocksAre(calls);
    } else {
      assert (head + CallBlocks(calls))[1..] == head[1..] + CallBlocks(calls);
      FirstTextOfCalls(head[1..], calls);
    }
  }

  lemma {:induction false} FirstTextOfProse(reply: Reply)
    ensures var text := TrimBlankLines(reply.text);
            S.FirstText(ProseBlocks(reply)) == if Blank(text) then None else Some(text)
  {
    var b := ProseBlocks(reply);
    assert b != [] ==> S.FirstText(b[1..]) == if b[1..] == [] then None else Some(b[1..][0].text);
  }

  /** The calls of a reply that are persisted: of a rejected batch, those that can be answered. */
  function Kept(calls: seq<ToolRequest>): seq<ToolRequest> {
    if InvalidToolCalls(calls).Some? then WithIds(calls) else calls
  }

  /** A reply that calls tools and whose visible text begins with the digest title. */
  predicate Mimics(reply: Reply) {
    S.TITLE <= TrimBlankLines(reply.text) && Kept(reply.calls) != []
  }

  lemma {:induction false} HonestReplyIsNoDigest(reply: Reply, calls: seq<ToolRequest>)
    requires !(S.TITLE <= TrimBlankLines(reply.text))
    ensures !S.IsSummaryMessage(AssistantMessage(reply, calls))
  {
    FirstTextOfCalls(ProseBlocks(reply), calls);
    FirstTextOfProse(reply);
  }

  // ---------------------------------------------------------------------------
  // What a turn says, as a function of what happens in it

  function UserTexts(texts: seq<string>): seq<Message> {
    seq(|texts|, i requires 0 <= i < |texts| => TextMessage(User, texts[i]))
  }

  function Rejections(calls: seq<ToolRequest>, why: string): seq<Message> {
    seq(|calls|, i requires 0 <= i < |calls| => ResultMessage(calls[i].id, "tool call rejected: " + why, true))
  }

  /** What the registry answers for call number `k`; nobody waits for an answer after an abort. */
  function DispatchAt(dispatches: seq<Dispatch>, k: nat): Dispatch {
    if k < |dispatches| then dispatches[k] else Aborted
  }

  function ResultOf(id: string, outcome: Dispatch): Message {
    match outcome
    case Finished(output, isError) => ResultMessage(id, output, isError)
    case Aborted => ResultMessage(id, "cancelled by the user; execution aborted", true)
  }

  function ResultsOf(calls: seq<ToolRequest>, dispatches: seq<Dispatch>, n: nat): seq<Message>
    requires n <= |calls|
  {
    seq(n, i requires 0 <= i < n => ResultOf(calls[i].id, DispatchAt(dispatches, i)))
  }

  /** How many calls from number `k` on are run: up to and including the first that is aborted. */
  function RunUntil(dispatches: seq<Dispatch>, k: nat, n: nat): (r: nat)
    requires k <= n
    ensures k <= r <= n && (k < n ==> k < r)
    ensures k < n && !DispatchAt(dispatches, r - 1).Aborted? ==> r == n
    decreases n - k
  {
    if k == n then n
    else if DispatchAt(dispatches, k).Aborted? then k + 1
    else RunUntil(dispatches, k + 1, n)
  }

  /** What a step of the loop says, whether it ends the turn, whether it retries after an overflow, and
      which calls it leaves open. */
  datatype Act = Act(said: seq<Message>, stop: Option<StopReason>, again: bool, open: seq<string>)

  function Spoken(reply: Reply, calls: seq<ToolRequest>): seq<Message> {
    var m := AssistantMessage(reply, calls);
    if m.content == [] then [] else [m]
  }

  /** Acting on a reply that arrived whole. */
  function ActOn(reply: Reply, dispatches: seq<Dispatch>): Act {
    var rejection := InvalidToolCalls(reply.calls);
    if rejection.Some? then
      var calls := WithIds(reply.calls);
      Act(Spoken(reply, calls) + Rejections(calls, rejection.value)
          + (if calls == [] then [SyntheticUser(rejection.value, "tool call rejected")] else []), None, false, [])
    else if reply.calls == [] then Act(Spoken(reply, []), Some(Done), false, [])
    else
      var calls := reply.calls;
      var n := RunUntil(dispatches, 0, |calls|);
      var aborted := DispatchAt(dispatches, n - 1).Aborted?;
      Act(Spoken(reply, calls) + ResultsOf(calls, dispatches, n), if aborted then Some(Cancelled) else None, false,
          Ids(calls)[n..])
  }

  function OverflowAct(retried: bool): Act {
    Act([], if retried then Some(ProviderError) else None, !retried, [])
  }

  function ReplyAct(reply: Reply, r: Round, retried: bool): Act {
    if reply.end == Interrupted then Act([], Some(Cancelled), false, [])
    else if reply.end == Stopped then Act([], Some(ProviderError), false, [])
    else if reply.end == Overflowed then OverflowAct(retried)
    else if reply.limited then Act([], Some(ProviderError), false, [])
    else if reply.end == Broken || r.badOutput then
      if r.degraded then Act([], Some(Degraded), false, [])
      else Act([SyntheticUser(REPAIR_PROMPT, "repair prompt")], None, false, [])
    else ActOn(reply, r.dispatches)
  }

  function AfterSteering(r: Round, retried: bool): Act {
    match r.open
    case OpenCancelled => Act([], Some(Cancelled), false, [])
    case OpenFailed => Act([], Some(ProviderError), false, [])
    case OpenOverflow => OverflowAct(retried)
    case Opened(items) => ReplyAct(ReadFrom(EMPTY_REPLY, items), r, retried)
  }

  function RoundAct(r: Round, retried: bool): Act {
    if r.cancelled then Act([], Some(Cancelled), false, [])
    else
      var act := AfterSteering(r, retried);
      act.(said := UserTexts(r.steering) + act.said)
  }

  datatype Played = Played(said: seq<Message>, reason: StopReason, retries: nat, open: seq<string>)

  /** A turn played out: everything said until a round ends it. */
  function Play(script: seq<Round>, retried: bool): Played {
    if script == [] then Played([], StillRunning, 0, [])
    else
      var act := RoundAct(script[0], retried);
      if act.stop.Some? then Played(act.said, act.stop.value, if act.again then 1 else 0, act.open)
      else
        var rest := Play(script[1..], retried || act.again);
        rest.(said := act.said + rest.said, retries := rest.retries + if act.again then 1 else 0)
  }

  /** A turn of which the beginning has been played. */
  function Continued(said: seq<Message>, reason: StopReason, retries: nat, open: seq<string>, rest: seq<Round>): Played {
    if reason != StillRunning then Played(said, reason, retries, open)
    else
      var p := Play(rest, retries > 0);
      p.(said := said + p.said, retries := retries + p.retries)
  }

  lemma {:induction false} ContinuedStarts(script: seq<Round>)
    ensures Continued([], StillRunning, 0, [], script) == Play(script, false)
  {
    hide Play;
    assert [] + Play(script, false).said == Play(script, false).said;
  }

  lemma {:induction false} RoundSettles(r: Round, retried: bool)
    ensures RoundAct(r, retried).stop != Some(StillRunning)
    ensures RoundAct(r, retried).again ==> !retried && RoundAct(r, retried).stop.None?
    ensures RoundAct(r, retried).stop.None? ==> RoundAct(r, retried).open == []
  {
    hide Spoken, Rejections, ResultsOf, InvalidToolCalls, WithIds, ReadFrom, UserTexts;
  }

  lemma {:induction false} ContinuedStep(
      script: seq<Round>, i: nat, said: seq<Message>, more: seq<Message>, retries: nat, act: Act)
    requires i < |script| && act == RoundAct(script[i], retries > 0) && more == act.said
    ensures Continued(said, StillRunning, retries, [], script[i..])
         == Continued(said + more, if act.stop.Some? then act.stop.value else StillRunning,
                      retries + (if act.again then 1 else 0), act.open, script[i + 1..])
  {
    RoundSettles(script[i], retries > 0);
    hide RoundAct;
    assert script[i..][0] == script[i] && script[i..][1..] == script[i + 1..];
    var rest := Play(script[i + 1..], retries > 0 || act.again);
    assert said + (act.said + rest.said) == said + act.said + rest.said;
  }

  lemma {:induction false} ContinuedEnds(said: seq<Message>, reason: StopReason, retries: nat, open: seq<string>, rest: seq<Round>)
    requires rest == [] || reason != StillRunning
    requires reason == StillRunning ==> open == []
    ensures Continued(said, reason, retries, open, rest) == Played(said, reason, retries, open)
  {
    if reason == StillRunning {
      assert said + [] == said;
    }
  }
}
