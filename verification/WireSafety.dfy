/** From the session loop to the wire: when what a turn sends is a request the provider accepts. */
module WireSafety {
  import opened Wrappers
  import opened Messages
  import opened AnthropicWire
  import opened Runtime
  import opened AnsweredLaws
  import C = Compaction
  import L = CompactionLaws

  /** Strictly alternating turns in which every batch of calls is answered at once and in order, and the
      translatable blocks of the request, each once and in order. */
  ghost predicate WireValid(request: seq<Message>) {
    var body := request[C.SystemCount(request)..];
    var turns := Turns(body);
    && Alternating(turns)
    && (forall i :: 0 <= i < |turns| ==> ContractAt(turns, i))
    && FlatBlocks(turns) == TranslatedBody(body)
  }

  lemma {:induction false} PairedIsWireValid(request: seq<Message>)
    requires ExactlyPaired(request)
    ensures WireValid(request)
  {
    WireFormIsPaired(request);
    WireKeepsOrder(request[C.SystemCount(request)..]);
  }

  /** Every request the loop sends from an exactly paired history is valid on the wire: through retrieval,
      compaction, smart cutover, the overflow retry and the folding of system messages. */
  lemma {:induction false} SentRequestIsWireValid(request: seq<Message>)
    requires RequestOk(request, true)
    ensures WireValid(request)
  {
    PairedIsWireValid(request);
  }

  /** The same straight from a history: whatever the limit and the digest, what is compacted, folded and
      translated keeps the provider's contract. */
  lemma {:induction false} HistoryReachesTheWire(ms: seq<Message>, limit: nat, smart: Option<string>)
    requires ExactlyPaired(ms) && L.SwapIsSafe(ms, limit, smart)
    ensures WireValid(C.MergeSystem(C.Candidate(ms, limit, smart).messages))
  {
    L.CandidateKeepsPairing(true, ms, limit, smart);
    StrictImpliesLenient([], C.Candidate(ms, limit, smart).messages);
    L.MergeKeepsPairing(true, C.Candidate(ms, limit, smart).messages);
    PairedIsWireValid(C.MergeSystem(C.Candidate(ms, limit, smart).messages));
  }

  // ---------------------------------------------------------------------------
  // Abandoned batches on the wire

  function Results(content: seq<Block>): nat {
    if content == [] then 0
    else Results(content[..|content| - 1]) + if content[|content| - 1].ToolResult? then 1 else 0
  }

  function WireResults(blocks: seq<WireBlock>): nat {
    if blocks == [] then 0
    else WireResults(blocks[..|blocks| - 1]) + if blocks[|blocks| - 1].WireResult? then 1 else 0
  }

  /** Calls made and results given in a history. */
  function CallsMade(ms: seq<Message>): nat {
    if ms == [] then 0 else |UseIds(ms[0].content)| + CallsMade(ms[1..])
  }

  function ResultsGiven(ms: seq<Message>): nat {
    if ms == [] then 0 else Results(ms[0].content) + ResultsGiven(ms[1..])
  }

  lemma {:induction false} ResultsOf(content: seq<Block>)
    ensures Results(content) == 0 <==> !HasResult(content)
    ensures |content| == 1 && HasResult(content) ==> Results(content) == 1
  {
    if content != [] {
      var init, last := content[..|content| - 1], content[|content| - 1];
      ResultsOf(init);
      if HasResult(init) {
        var i :| 0 <= i < |init| && init[i].ToolResult?;
        assert content[i].ToolResult?;
      }
      if HasResult(content) && !last.ToolResult? {
        var i :| 0 <= i < |content| && content[i].ToolResult?;
        assert init[i].ToolResult?;
      }
    }
  }

  /** A history without orphans gives no more results than it makes calls, and as many only when no batch
      is abandoned. */
  lemma {:induction false} AbandoningLosesResults(open: seq<string>, ms: seq<Message>)
    requires Scan(false, open, ms) == Some([])
    ensures ResultsGiven(ms) <= |open| + CallsMade(ms)
    ensures ResultsGiven(ms) == |open| + CallsMade(ms) ==> Scan(true, open, ms) == Some([])
    decreases |ms|
  {
    hide HasResult, UseIds, Results, Answers;
    if ms != [] {
      var m := ms[0];
      ResultsOf(m.content);
      if open != [] && Answers(m, open[0]) {
        ResultAsksNothing(m, open[0]);
        AnswerIsOne(m, open[0]);
      }
      AbandoningLosesResults(Advance(false, open, m).value, ms[1..]);
    }
  }

  lemma {:induction false} AnswerIsOne(m: Message, id: string)
    requires Answers(m, id)
    ensures |m.content| == 1
  {
  }

  lemma {:induction false} WireResultsConcat(a: seq<WireBlock>, b: seq<WireBlock>)
    ensures WireResults(a + b) == WireResults(a) + WireResults(b)
  {
    if b == [] {
      assert a + b == a;
    } else {
      assert (a + b)[..|a + b| - 1] == a + b[..|b| - 1];
      WireResultsConcat(a, b[..|b| - 1]);
    }
  }

  lemma {:induction false} TranslationKeepsResults(content: seq<Block>)
    ensures WireResults(TranslateBlocks(content)) == Results(content)
  {
    if content != [] {
      var last := content[|content| - 1];
      TranslationKeepsResults(content[..|content| - 1]);
      WireResultsConcat(TranslateBlocks(content[..|content| - 1]), TranslateBlock(last));
      BlockKeepsResult(last);
    }
  }

  lemma {:induction false} BlockKeepsResult(b: Block)
    ensures WireResults(TranslateBlock(b)) == if b.ToolResult? then 1 else 0
  {
    var t := TranslateBlock(b);
    if t != [] {
      assert WireResults(t[..0]) == 0;
    }
  }

  lemma {:induction false} CountsSnoc(ms: seq<Message>, m: Message)
    ensures CallsMade(ms + [m]) == CallsMade(ms) + |UseIds(m.content)|
    ensures ResultsGiven(ms + [m]) == ResultsGiven(ms) + Results(m.content)
  {
    hide UseIds, Results;
    if ms == [] {
      assert ms + [m] == [m] && [m][1..] == [];
    } else {
      assert (ms + [m])[1..] == ms[1..] + [m];
      CountsSnoc(ms[1..], m);
    }
  }

  lemma {:induction false} BodyCounts(body: seq<Message>)
    ensures |WireUses(TranslatedBody(body))| == CallsMade(body)
    ensures WireResults(TranslatedBody(body)) == ResultsGiven(body)
  {
    hide UseIds, Results, WireUses, WireResults, CallsMade, ResultsGiven;
    if body == [] {
      NothingCounts();
    } else {
      var init, m := body[..|body| - 1], body[|body| - 1];
      BodyCounts(init);
      assert body == init + [m];
      CountsSnoc(init, m);
      TranslationKeepsTools(m.content);
      TranslationKeepsResults(m.content);
      WireUsesConcat(TranslatedBody(init), TranslateBlocks(m.content));
      WireResultsConcat(TranslatedBody(init), TranslateBlocks(m.content));
    }
  }

  lemma {:induction false} NothingCounts()
    ensures CallsMade([]) == ResultsGiven([]) == WireResults([]) == |WireUses([])| == 0
  {
  }

  lemma {:induction false} LeadingCount(blocks: seq<WireBlock>, ids: seq<string>)
    requires LeadingResults(blocks, ids)
    ensures WireResults(blocks) == |ids|
  {
    if blocks != [] {
      var init := blocks[..|blocks| - 1];
      if |ids| == |blocks| {
        LeadingCount(init, ids[..|ids| - 1]);
      } else {
        LeadingCount(init, ids);
      }
    }
  }

  lemma {:induction false} NoResultsCount(blocks: seq<WireBlock>)
    requires NoResults(blocks)
    ensures WireResults(blocks) == 0
  {
    if blocks != [] {
      NoResultsCount(blocks[..|blocks| - 1]);
    }
  }

  /** Up to turn `n` every call was answered but those of the last turn. */
  lemma {:induction false} TurnCounts(turns: seq<Turn>, n: nat)
    requires n <= |turns| && Alternating(turns) && forall i :: 0 <= i < |turns| ==> ContractAt(turns, i)
    ensures |WireUses(FlatBlocks(turns[..n]))| ==
            WireResults(FlatBlocks(turns[..n])) + if n == 0 then 0 else |WireUses(turns[n - 1].blocks)|
  {
    hide WireUses, WireResults, LeadingResults, NoResults;
    if n == 0 {
      NothingCounts();
    } else {
      var before, t := turns[..n - 1], turns[n - 1];
      TurnCounts(turns, n - 1);
      assert turns[..n] == before + [t] && turns[..n][..n - 1] == before;
      WireUsesConcat(FlatBlocks(before), t.blocks);
      WireResultsConcat(FlatBlocks(before), t.blocks);
      assert ContractAt(turns, n - 1);
      if t.role == AssistantTurn {
        NoResultsCount(t.blocks);
        if n > 1 {
          assert ContractAt(turns, n - 2);
          assert turns[n - 2].role != turns[n - 2 + 1].role;
        }
      } else {
        LeadingCount(t.blocks, Asked(turns, n - 1));
        NothingCounts();
      }
    }
  }

  /** A request without orphans that leaves nothing open is accepted on the wire if and only if every batch
      of calls in it is answered. */
  lemma {:induction false} WireValidExactlyWhen(request: seq<Message>)
    requires Scan(false, [], request) == Some([])
    ensures WireValid(request) <==> AllAnswered(request)
  {
    hide Scan, AllAnswered, Turns, WireUses, WireResults, CallsMade, ResultsGiven, FlatBlocks, TranslatedBody;
    PairedExactlyWhen(request);
    if ExactlyPaired(request) {
      PairedIsWireValid(request);
    } else if WireValid(request) {
      var body := request[C.SystemCount(request)..];
      var turns := Turns(body);
      var n := |turns|;
      assert turns[..n] == turns;
      TurnCounts(turns, n);
      if n > 0 {
        assert ContractAt(turns, n - 1);
        NothingCounts();
      }
      BodyCounts(body);
      L.ScanOfBody(false, request);
      AbandoningLosesResults([], body);
      BodyDecides(request);
    }
  }

  lemma {:induction false} BodyDecides(request: seq<Message>)
    requires OrphanFree(request)
    ensures Scan(true, [], request) == Scan(true, [], request[C.SystemCount(request)..])
  {
    var n := C.SystemCount(request);
    L.ScanOfBody(false, request);
    ScanToolFree(true, request[..n]);
    ScanConcat(true, [], request[..n], request[n..]);
    assert request == request[..n] + request[n..];
  }

  /** What the loop makes of a history with nothing open is accepted on the wire if and only if every batch
      the compaction keeps was answered. */
  lemma {:induction false} HistoryAcceptedExactlyWhen(ms: seq<Message>, limit: nat, smart: Option<string>)
    requires Scan(false, [], ms) == Some([]) && L.SwapIsSafe(ms, limit, smart)
    ensures WireValid(C.MergeSystem(C.Candidate(ms, limit, smart).messages)) <==> AllAnswered(Shown(ms, limit))
  {
    hide Scan, AllAnswered, WireValid, C.Candidate, C.MergeSystem, L.SwapIsSafe;
    var c := C.Candidate(ms, limit, smart).messages;
    L.CandidateKeepsPairing(false, ms, limit, smart);
    L.MergeKeepsPairing(false, c);
    WireValidExactlyWhen(C.MergeSystem(c));
    PairedExactlyWhen(C.MergeSystem(c));
    RequestPairedExactlyWhen(ms, limit, smart);
  }

  /** After a turn that left calls open, the next turn's request is refused as long as the compaction keeps
      the abandoned batch: always when the history fits. */
  lemma {:induction false} AbandonedBatchIsRefused(
      ms: seq<Message>, open: seq<string>, next: Message, rest: seq<Message>, limit: nat, smart: Option<string>)
    requires Scan(false, [], ms) == Some(open) && open != [] && !HasResult(next.content)
    requires Scan(false, [], ms + [next] + rest) == Some([]) && Fits(ms + [next] + rest, limit)
    ensures !WireValid(C.MergeSystem(C.Candidate(ms + [next] + rest, limit, smart).messages))
  {
    hide Scan, AllAnswered, WireValid, C.MergeSystem, Fits;
    OpenStaysUnanswered(ms, open, next, rest);
    HistoryAcceptedExactlyWhen(ms + [next] + rest, limit, smart);
  }
}
