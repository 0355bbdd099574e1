/** What a turn says, whatever happens in it: pairing, exits and retries, told without the runtime. */
module TurnLaws {
  import opened Wrappers
  import opened Messages
  import opened Session
  import L = CompactionLaws
  import T = Text

  lemma {:induction false} ScanOne(open: seq<string>, m: Message)
    ensures Scan(true, open, [m]) == Advance(true, open, m)
  {
    assert [m][1..] == [];
  }

  /** Every result closes the next call of its batch. */
  lemma {:induction false} ResultsClose(calls: seq<ToolRequest>, dispatches: seq<Dispatch>, n: nat)
    requires n <= |calls|
    ensures Scan(true, Ids(calls), ResultsOf(calls, dispatches, n)) == Some(Ids(calls)[n..])
  {
    hide Ids, Advance, ResultOf, DispatchAt;
    if n == 0 {
      assert ResultsOf(calls, dispatches, 0) == [] && Ids(calls)[0..] == Ids(calls);
    } else {
      ResultsClose(calls, dispatches, n - 1);
      var m := ResultOf(calls[n - 1].id, DispatchAt(dispatches, n - 1));
      assert ResultsOf(calls, dispatches, n) == ResultsOf(calls, dispatches, n - 1) + [m];
      hide ResultsOf, Scan;
      var ids := Ids(calls);
      IdAt(calls, n - 1);
      ScanConcat(true, ids, ResultsOf(calls, dispatches, n - 1), [m]);
      ScanOne(ids[n - 1..], m);
      ResultCloses(ids[n - 1..], calls[n - 1].id, DispatchAt(dispatches, n - 1));
      assert ids[n - 1..][1..] == ids[n..];
    }
  }

  lemma {:induction false} IdAt(calls: seq<ToolRequest>, i: nat)
    requires i < |calls|
    ensures Ids(calls)[i] == calls[i].id
  {
  }

  lemma {:induction false} ResultCloses(open: seq<string>, id: string, outcome: Dispatch)
    requires open != [] && open[0] == id
    ensures Advance(true, open, ResultOf(id, outcome)) == Some(open[1..])
  {
    assert ResultOf(id, outcome).content[0].ToolResult?;
  }

  lemma {:induction false} RejectionsClose(calls: seq<ToolRequest>, why: string)
    ensures Scan(true, Ids(calls), Rejections(calls, why)) == Some([])
  {
    var rejected := seq(|calls|, i => Finished("tool call rejected: " + why, true));
    ResultsClose(calls, rejected, |calls|);
    assert Rejections(calls, why) == ResultsOf(calls, rejected, |calls|);
    assert Ids(calls)[|calls|..] == [];
  }

  /** What is persisted of a reply opens exactly its calls. */
  lemma {:induction false} SpokenOpens(reply: Reply, calls: seq<ToolRequest>)
    ensures Scan(true, [], Spoken(reply, calls)) == Some(Ids(calls))
    ensures calls != [] ==> Spoken(reply, calls) == [AssistantMessage(reply, calls)]
  {
    AssistantMessageAsks(reply, calls);
    hide AssistantMessage;
    var m := AssistantMessage(reply, calls);
    ScanOne([], m);
    if m.content == [] {
      assert Ids(calls) == [];
    } else {
      assert Advance(true, [], m) == Some(Ids(calls));
    }
  }

  lemma {:induction false} Chains(open: seq<string>, a: seq<Message>, mid: seq<string>, b: seq<Message>, end: seq<string>)
    requires Scan(true, open, a) == Some(mid) && Scan(true, mid, b) == Some(end)
    ensures Scan(true, open, a + b) == Some(end)
  {
    hide Scan;
    ScanConcat(true, open, a, b);
  }

  lemma {:induction false} SyntheticIsPlain(text: string, why: string)
    ensures Scan(true, [], [SyntheticUser(text, why)]) == Some([])
  {
    L.TextIsToolFree(User, text);
    assert SyntheticUser(text, why).content == TextMessage(User, text).content;
    ScanToolFree(true, [SyntheticUser(text, why)]);
  }

  lemma {:induction false} ActOnIsPaired(reply: Reply, dispatches: seq<Dispatch>)
    ensures Scan(true, [], ActOn(reply, dispatches).said) == Some(ActOn(reply, dispatches).open)
  {
    hide Scan, Ids, Spoken, Rejections, ResultsOf, InvalidToolCalls, WithIds, RunUntil, SyntheticUser;
    var rejection := InvalidToolCalls(reply.calls);
    if rejection.Some? {
      var calls := WithIds(reply.calls);
      SpokenOpens(reply, calls);
      RejectionsClose(calls, rejection.value);
      Chains([], Spoken(reply, calls), Ids(calls), Rejections(calls, rejection.value), []);
      SyntheticIsPlain(rejection.value, "tool call rejected");
      var said := Spoken(reply, calls) + Rejections(calls, rejection.value);
      if calls == [] {
        Chains([], said, [], [SyntheticUser(rejection.value, "tool call rejected")], []);
      } else {
        assert said + [] == said;
      }
    } else {
      SpokenOpens(reply, reply.calls);
      var n := RunUntil(dispatches, 0, |reply.calls|);
      ResultsClose(reply.calls, dispatches, n);
      Chains([], Spoken(reply, reply.calls), Ids(reply.calls), ResultsOf(reply.calls, dispatches, n), Ids(reply.calls)[n..]);
      if reply.calls == [] {
        assert Ids(reply.calls) == [] && reply.calls == [];
      }
    }
  }

  /** Whatever happens in a round, what it says is paired but for the calls it leaves open, and it leaves
      calls open only when it ends the turn cancelled. */
  lemma {:induction false} RoundIsPaired(r: Round, retried: bool)
    ensures Scan(true, [], RoundAct(r, retried).said) == Some(RoundAct(r, retried).open)
    ensures RoundAct(r, retried).open != [] ==> RoundAct(r, retried).stop == Some(Cancelled)
  {
    hide Scan, ActOn, UserTexts, ReadFrom;
    NothingSaid();
    SyntheticIsPlain(REPAIR_PROMPT, "repair prompt");
    if r.open.Opened? {
      var reply := ReadFrom(EMPTY_REPLY, r.open.items);
      ActOnIsPaired(reply, r.dispatches);
      ActOnLeaves(reply, r.dispatches);
    }
    SteeringIsPlain(r.steering);
    var act := AfterSteering(r, retried);
    Chains([], UserTexts(r.steering), [], act.said, act.open);
  }

  lemma {:induction false} NothingSaid()
    ensures Scan(true, [], []) == Some([])
  {
  }

  lemma {:induction false} ActOnLeaves(reply: Reply, dispatches: seq<Dispatch>)
    ensures ActOn(reply, dispatches).open != [] ==> ActOn(reply, dispatches).stop == Some(Cancelled)
  {
    hide Spoken, Rejections, ResultsOf, InvalidToolCalls, WithIds;
  }

  lemma {:induction false} SteeringIsPlain(texts: seq<string>)
    ensures Scan(true, [], UserTexts(texts)) == Some([])
  {
    forall i | 0 <= i < |texts| ensures ToolFree(UserTexts(texts)[i]) {
      L.TextIsToolFree(User, texts[i]);
    }
    ScanToolFree(true, UserTexts(texts));
  }

  /** Over every script, a turn's messages are paired but for what a cancelled tool run left open, and at
      most one overflow is retried, none after an earlier retry. */
  lemma {:induction false} PlayIsPaired(script: seq<Round>, retried: bool)
    ensures Scan(true, [], Play(script, retried).said) == Some(Play(script, retried).open)
    ensures Play(script, retried).open != [] ==> Play(script, retried).reason == Cancelled
    ensures Play(script, retried).retries <= if retried then 0 else 1
    ensures Play(script, retried).reason == StillRunning ==> Play(script, retried).open == []
  {
    hide Scan, RoundAct;
    if script == [] {
      NothingSaid();
    } else {
      var act := RoundAct(script[0], retried);
      RoundIsPaired(script[0], retried);
      RoundSettles(script[0], retried);
      if act.stop.None? {
        var rest := Play(script[1..], retried || act.again);
        PlayIsPaired(script[1..], retried || act.again);
        Chains([], act.said, [], rest.said, rest.open);
      }
    }
  }

  // ---------------------------------------------------------------------------
  // Which turns leave calls unanswered

  /** An abort that calls of the same batch come after. */
  predicate AbortsEarly(calls: seq<ToolRequest>, dispatches: seq<Dispatch>) {
    exists j :: 0 <= j < |calls| - 1 && DispatchAt(dispatches, j).Aborted?
  }

  predicate Aborts(calls: seq<ToolRequest>, dispatches: seq<Dispatch>) {
    exists j :: 0 <= j < |calls| && DispatchAt(dispatches, j).Aborted?
  }

  /** What the stream of a round comes to. */
  function ReplyOf(r: Round): Reply {
    if r.open.Opened? then ReadFrom(EMPTY_REPLY, r.open.items) else EMPTY_REPLY
  }

  /** The round reads a whole reply worth acting on. */
  predicate Acts(r: Round) {
    var reply := ReplyOf(r);
    !r.cancelled && r.open.Opened? && reply.end == Ended && !reply.limited && !r.badOutput
  }

  /** The round persists calls under a text that reads like a digest. */
  predicate CallsAsDigest(r: Round) {
    Acts(r) && Mimics(ReplyOf(r))
  }

  /** There is no summarizer, or no round persists calls under a text that reads like a digest. */
  ghost predicate Honest(smart: bool, script: seq<Round>) {
    smart ==> forall i :: 0 <= i < |script| ==> !CallsAsDigest(script[i])
  }

  /** The round runs a valid batch and the user aborts a call other calls come after. */
  predicate CutsBatch(r: Round) {
    Acts(r) && InvalidToolCalls(ReplyOf(r).calls).None? && AbortsEarly(ReplyOf(r).calls, r.dispatches)
  }

  predicate Overflows(r: Round) {
    !r.cancelled && (r.open.OpenOverflow? || (r.open.Opened? && ReplyOf(r).end == Overflowed))
  }

  /** The round asks for a repair of what it read. */
  predicate Repairs(r: Round) {
    var reply := ReplyOf(r);
    && !r.cancelled && r.open.Opened? && !reply.limited && !r.degraded
    && (reply.end == Broken || (reply.end == Ended && r.badOutput))
  }

  /** The round leads to another: a first overflow, a repair, a rejected batch, or one that ran through. */
  predicate GoesOn(r: Round, retried: bool) {
    var calls := ReplyOf(r).calls;
    || (Overflows(r) && !retried)
    || Repairs(r)
    || (Acts(r) && (InvalidToolCalls(calls).Some? || (calls != [] && !Aborts(calls, r.dispatches))))
  }

  /** Whether an overflow was retried before round `i`. */
  predicate RetriedBefore(script: seq<Round>, i: nat, retried: bool) {
    retried || exists k :: 0 <= k < i && k < |script| && Overflows(script[k])
  }

  /** Round `i` is reached and cuts its batch. */
  predicate CutAt(script: seq<Round>, i: nat, retried: bool) {
    && i < |script| && CutsBatch(script[i])
    && forall j :: 0 <= j < i ==> GoesOn(script[j], RetriedBefore(script, j, retried))
  }

  /** Some round cuts its batch, and every round before it leads to the next. */
  ghost predicate LeavesOpen(script: seq<Round>, retried: bool) {
    exists i: nat :: CutAt(script, i, retried)
  }

  lemma {:induction false} RunsUntil(dispatches: seq<Dispatch>, k: nat, n: nat)
    requires k <= n
    ensures RunUntil(dispatches, k, n) < n <==> exists j :: k <= j < n - 1 && DispatchAt(dispatches, j).Aborted?
    ensures k < n ==>
              (DispatchAt(dispatches, RunUntil(dispatches, k, n) - 1).Aborted?
               <==> exists j :: k <= j < n && DispatchAt(dispatches, j).Aborted?)
    decreases n - k
  {
    hide DispatchAt;
    if k < n && !DispatchAt(dispatches, k).Aborted? {
      RunsUntil(dispatches, k + 1, n);
    }
  }

  /** Acting on a reply leaves calls open exactly when the batch is valid and a call before its last is
      aborted; it ends the turn exactly when nothing is rejected and no call runs or one is aborted. */
  lemma {:induction false} ActOnOpensExactlyWhen(reply: Reply, dispatches: seq<Dispatch>)
    ensures ActOn(reply, dispatches).open != []
       <==> InvalidToolCalls(reply.calls).None? && AbortsEarly(reply.calls, dispatches)
    ensures ActOn(reply, dispatches).stop.None?
       <==> InvalidToolCalls(reply.calls).Some? || (reply.calls != [] && !Aborts(reply.calls, dispatches))
  {
    hide Spoken, Rejections, ResultsOf, InvalidToolCalls, WithIds, RunUntil, DispatchAt;
    RunsUntil(dispatches, 0, |reply.calls|);
    var n := RunUntil(dispatches, 0, |reply.calls|);
    assert |Ids(reply.calls)[n..]| == |reply.calls| - n;
  }

  /** A round leaves calls open exactly when it cuts its batch, and leads to another exactly when it goes on. */
  lemma {:induction false} RoundOpensExactlyWhen(r: Round, retried: bool)
    ensures RoundAct(r, retried).open != [] <==> CutsBatch(r)
    ensures RoundAct(r, retried).stop.None? <==> GoesOn(r, retried)
    ensures RoundAct(r, retried).stop.None? ==> (RoundAct(r, retried).again <==> Overflows(r))
  {
    hide ActOn, ReadFrom, UserTexts, InvalidToolCalls, Aborts, AbortsEarly;
    ActOnOpensExactlyWhen(ReplyOf(r), r.dispatches);
    ActOnNeverRetries(ReplyOf(r), r.dispatches);
  }

  lemma {:induction false} ActOnNeverRetries(reply: Reply, dispatches: seq<Dispatch>)
    ensures !ActOn(reply, dispatches).again
  {
  }

  lemma {:induction false} RetriedShifts(script: seq<Round>, i: nat, retried: bool)
    requires script != []
    ensures RetriedBefore(script, i + 1, retried) == RetriedBefore(script[1..], i, retried || Overflows(script[0]))
    ensures RetriedBefore(script, 0, retried) == retried
  {
    hide Overflows;
    if k :| 0 <= k < i + 1 && k < |script| && Overflows(script[k]) {
      assert k > 0 ==> script[1..][k - 1] == script[k];
    }
    if k :| 0 <= k < i && k < |script[1..]| && Overflows(script[1..][k]) {
      assert script[k + 1] == script[1..][k];
    }
  }

  lemma {:induction false} LeavesOpenStep(script: seq<Round>, retried: bool)
    requires script != []
    ensures LeavesOpen(script, retried)
       <==> CutsBatch(script[0]) || (GoesOn(script[0], retried) && LeavesOpen(script[1..], retried || Overflows(script[0])))
  {
    hide CutsBatch, GoesOn, Overflows, RetriedBefore, CutAt;
    if i: nat :| CutAt(script, i, retried) {
      CutAtStep(script, i, retried);
    }
    if CutsBatch(script[0]) {
      CutAtStep(script, 0, retried);
    }
    if GoesOn(script[0], retried) && LeavesOpen(script[1..], retried || Overflows(script[0])) {
      var i: nat :| CutAt(script[1..], i, retried || Overflows(script[0]));
      CutAtStep(script, i + 1, retried);
    }
  }

  lemma {:induction false} CutAtStep(script: seq<Round>, i: nat, retried: bool)
    requires script != []
    ensures CutAt(script, i, retried)
       <==> if i == 0 then CutsBatch(script[0])
            else GoesOn(script[0], retried) && CutAt(script[1..], i - 1, retried || Overflows(script[0]))
  {
    hide CutsBatch, GoesOn, Overflows, RetriedBefore;
    var rest, again := script[1..], retried || Overflows(script[0]);
    RetriedShifts(script, 0, retried);
    forall j: nat ensures RetriedBefore(script, j + 1, retried) == RetriedBefore(rest, j, again) {
      RetriedShifts(script, j, retried);
    }
    if i > 0 && i < |script| {
      assert script[i] == rest[i - 1];
      if GoesOn(script[0], retried) && CutAt(rest, i - 1, again) {
        forall j | 0 <= j < i ensures GoesOn(script[j], RetriedBefore(script, j, retried)) {
          assert j > 0 ==> script[j] == rest[j - 1] && RetriedBefore(script, j - 1 + 1, retried) == RetriedBefore(rest, j - 1, again);
        }
      }
      if CutAt(script, i, retried) {
        assert GoesOn(script[0], RetriedBefore(script, 0, retried));
        forall j | 0 <= j < i - 1 ensures GoesOn(rest[j], RetriedBefore(rest, j, again)) {
          assert GoesOn(script[j + 1], RetriedBefore(script, j + 1, retried));
        }
      }
    }
  }

  /** A turn leaves calls unanswered exactly when some round cuts its batch and every round before leads on. */
  lemma {:induction false} PlayOpensExactlyWhen(script: seq<Round>, retried: bool)
    ensures Play(script, retried).open != [] <==> LeavesOpen(script, retried)
  {
    hide RoundAct, CutsBatch, GoesOn, Overflows, LeavesOpen;
    if script == [] {
      NothingLeavesOpen(retried);
    } else {
      var act := RoundAct(script[0], retried);
      RoundOpensExactlyWhen(script[0], retried);
      RoundSettles(script[0], retried);
      LeavesOpenStep(script, retried);
      if act.stop.None? {
        PlayOpensExactlyWhen(script[1..], retried || act.again);
      }
    }
  }

  lemma {:induction false} NothingLeavesOpen(retried: bool)
    ensures !LeavesOpen([], retried)
  {
  }

  /** Two calls, the first aborted by the user: the second is persisted and never answered. */
  lemma {:induction false} AbortLeavesCallOpen() returns (script: seq<Round>)
    ensures Play(script, false).reason == Cancelled && Play(script, false).open == ["second"]
    ensures LeavesOpen(script, false)
    ensures var said := Play(script, false).said;
            && |said| == 2 && UseIds(said[0].content) == ["first", "second"]
            && said[1] == ResultMessage("first", "cancelled by the user; execution aborted", true)
  {
    var calls := [ToolRequest("first", "ls", Json("{}", true)), ToolRequest("second", "ls", Json("{}", true))];
    var items := [ToolCallItem(calls[0]), ToolCallItem(calls[1]), DoneItem];
    var r := Round(false, [], None, None, Opened(items), false, false, [Aborted]);
    script := [r];
    var reply := Reply(Ended, "", "", calls, false);
    ReadsCalls(items, calls);
    FirstAborted(reply, calls);
    hide *;
    var act := ActOn(reply, [Aborted]);
    QuietRound(r, reply);
    OneRound(r, act);
    PlayOpensExactlyWhen(script, false);
    ResultIs("first");
  }

  lemma {:induction false} ResultIs(id: string)
    ensures ResultOf(id, Aborted) == ResultMessage(id, "cancelled by the user; execution aborted", true)
  {
  }

  /** A round without steering that reads a whole reply says what acting on the reply says. */
  lemma {:induction false} QuietRound(r: Round, reply: Reply)
    requires !r.cancelled && r.steering == [] && r.open.Opened? && ReadFrom(EMPTY_REPLY, r.open.items) == reply
    requires reply.end == Ended && !reply.limited && !r.badOutput
    ensures RoundAct(r, false) == ActOn(reply, r.dispatches)
  {
    hide ActOn, ReadFrom;
    assert UserTexts([]) + ActOn(reply, r.dispatches).said == ActOn(reply, r.dispatches).said;
  }

  lemma {:induction false} OneRound(r: Round, act: Act)
    requires act == RoundAct(r, false) && act.stop.Some? && !act.again
    ensures Play([r], false) == Played(act.said, act.stop.value, 0, act.open)
  {
    hide RoundAct;
  }

  lemma {:induction false} FirstAborted(reply: Reply, calls: seq<ToolRequest>)
    requires reply.calls == calls && |calls| == 2 && calls[0].input.isObject && calls[1].input.isObject
    requires calls[0].id == "first" && calls[1].id == "second" && calls[0].name == calls[1].name == "ls"
    ensures ActOn(reply, [Aborted])
         == Act([AssistantMessage(reply, calls), ResultOf("first", Aborted)], Some(Cancelled), false, ["second"])
    ensures UseIds(AssistantMessage(reply, calls).content) == ["first", "second"]
  {
    NoneInvalid(calls);
    AssistantMessageAsks(reply, calls);
    SpokenOpens(reply, calls);
    hide InvalidToolCalls, AssistantMessage, Spoken;
    assert Ids(calls) == ["first", "second"];
    assert DispatchAt([Aborted], 0) == Aborted && RunUntil([Aborted], 0, 2) == 1;
    assert ResultsOf(calls, [Aborted], 1) == [ResultOf("first", Aborted)];
    assert Ids(calls)[1..] == ["second"];
  }

  lemma {:induction false} ReadsCalls(items: seq<StreamItem>, calls: seq<ToolRequest>)
    requires |calls| == 2 && items == [ToolCallItem(calls[0]), ToolCallItem(calls[1]), DoneItem]
    ensures ReadFrom(EMPTY_REPLY, items) == Reply(Ended, "", "", calls, false)
  {
    assert items[1..] == [ToolCallItem(calls[1]), DoneItem] && items[1..][1..] == [DoneItem];
    assert [] + [calls[0]] == [calls[0]] && [calls[0]] + [calls[1]] == calls;
    assert ReadFrom(EMPTY_REPLY.(calls := calls), [DoneItem]) == Reply(Ended, "", "", calls, false);
    assert ReadFrom(EMPTY_REPLY.(calls := [calls[0]]), items[1..]) == Reply(Ended, "", "", calls, false);
  }

  lemma {:induction false} NoneInvalid(calls: seq<ToolRequest>)
    requires |calls| == 2 && calls[0].input.isObject && calls[1].input.isObject
    requires calls[0].id == "first" && calls[1].id == "second" && calls[0].name == calls[1].name == "ls"
    ensures InvalidToolCalls(calls).None?
  {
    NotBlank("first");
    NotBlank("second");
    NotBlank("ls");
    hide Blank;
    assert calls[1..] == [calls[1]] && calls[1..][1..] == [];
    assert InvalidToolCalls(calls[1..]).None?;
  }

  lemma {:induction false} NotBlank(s: string)
    requires s != "" && !T.IsSpace(s[0])
    ensures !Blank(s)
  {
    TrimKeepsFirst(s);
  }

  lemma {:induction false} TrimKeepsFirst(s: string)
    requires s != "" && !T.IsSpace(s[0])
    ensures T.TrimEnd(s) != ""
  {
    if T.IsSpace(s[|s| - 1]) {
      TrimKeepsFirst(s[..|s| - 1]);
    }
  }
}
