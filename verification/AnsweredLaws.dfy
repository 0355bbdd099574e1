/** Histories in which some batch of calls was abandoned: when what is made of them is still
    exactly paired. */
module AnsweredLaws {
  import opened Wrappers
  import opened Messages
  import opened Compaction
  import opened CompactionLaws
  import S = Summary

  /** The history begins with the results of `ids`, in order. */
  predicate BeginsWith(ms: seq<Message>, ids: seq<string>) {
    |ids| <= |ms| && forall k :: 0 <= k < |ids| ==> Answers(ms[k], ids[k])
  }

  /** The calls of message `i` are answered at once and in order. */
  predicate AnsweredAt(ms: seq<Message>, i: nat)
    requires i < |ms|
  {
    BeginsWith(ms[i + 1..], UseIds(ms[i].content))
  }

  /** Every batch of calls is answered. */
  ghost predicate AllAnswered(ms: seq<Message>) {
    forall i :: 0 <= i < |ms| ==> AnsweredAt(ms, i)
  }

  lemma {:induction false} AllAnsweredStep(ms: seq<Message>)
    requires ms != []
    ensures AllAnswered(ms) <==> AnsweredAt(ms, 0) && AllAnswered(ms[1..])
  {
    hide BeginsWith;
    var rest := ms[1..];
    forall i | 0 <= i < |rest| ensures AnsweredAt(rest, i) == AnsweredAt(ms, i + 1) {
      assert rest[i + 1..] == ms[i + 2..];
    }
    if AllAnswered(rest) && AnsweredAt(ms, 0) {
      forall i | 0 <= i < |ms| ensures AnsweredAt(ms, i) {
        assert i > 0 ==> AnsweredAt(rest, i - 1);
      }
    }
    if AllAnswered(ms) {
      assert AnsweredAt(ms, 0);
      forall i | 0 <= i < |rest| ensures AnsweredAt(rest, i) {
        assert AnsweredAt(ms, i + 1);
      }
    }
  }

  lemma {:induction false} BeginsStep(ms: seq<Message>, ids: seq<string>)
    requires ms != [] && ids != []
    ensures BeginsWith(ms, ids) <==> Answers(ms[0], ids[0]) && BeginsWith(ms[1..], ids[1..])
  {
    if Answers(ms[0], ids[0]) && BeginsWith(ms[1..], ids[1..]) {
      forall k | 0 <= k < |ids| ensures Answers(ms[k], ids[k]) {
        assert k > 0 ==> Answers(ms[1..][k - 1], ids[1..][k - 1]);
      }
    }
  }

  lemma {:induction false} ResultAsksNothing(m: Message, id: string)
    requires Answers(m, id)
    ensures HasResult(m.content) && UseIds(m.content) == []
  {
    assert m.content[0].ToolResult?;
    assert m.content[1..] == [];
  }

  lemma {:induction false} StrictExactlyWhen(open: seq<string>, ms: seq<Message>)
    requires Scan(false, open, ms) == Some([])
    ensures Scan(true, open, ms) == Some([]) <==> BeginsWith(ms, open) && AllAnswered(ms)
    decreases |ms|
  {
    hide AllAnswered, Answers, HasResult, UseIds;
    if ms == [] {
      NothingToAnswer();
    } else {
      var m, rest := ms[0], ms[1..];
      AllAnsweredStep(ms);
      StrictExactlyWhen(Advance(false, open, m).value, rest);
      if open != [] {
        BeginsStep(ms, open);
        if Answers(m, open[0]) {
          ResultAsksNothing(m, open[0]);
        }
      }
    }
  }

  lemma {:induction false} NothingToAnswer()
    ensures AllAnswered([])
  {
  }

  /** A history without orphans that ends with nothing open is exactly paired if and only if every
      batch of calls in it is answered. */
  lemma {:induction false} PairedExactlyWhen(ms: seq<Message>)
    requires Scan(false, [], ms) == Some([])
    ensures ExactlyPaired(ms) <==> AllAnswered(ms)
  {
    StrictExactlyWhen([], ms);
  }

  /** Whatever is said next but a result, calls left open stay unanswered. */
  lemma {:induction false} OpenStaysUnanswered(ms: seq<Message>, open: seq<string>, next: Message, rest: seq<Message>)
    requires Scan(false, [], ms) == Some(open) && open != [] && !HasResult(next.content)
    requires Scan(false, [], ms + [next] + rest) == Some([])
    ensures !AllAnswered(ms + [next] + rest)
  {
    hide Answers, HasResult, UseIds, AllAnswered;
    var whole := ms + [next] + rest;
    PairedExactlyWhen(whole);
    if ExactlyPaired(whole) {
      assert whole == ms + ([next] + rest);
      ScanConcat(true, [], ms, [next] + rest);
      StrictImpliesLenient([], ms);
    }
  }

  // ---------------------------------------------------------------------------
  // Requests

  /** The part of a history a compaction shows: all of it, or the exchanges it keeps. */
  function Shown(ms: seq<Message>, limit: nat): seq<Message> {
    if Fits(ms, limit) then ms else Flatten(CutOf(ms, limit).kept)
  }

  lemma {:induction false} PlanScans(strict: bool, ms: seq<Message>, limit: nat)
    requires OrphanFree(ms)
    ensures Scan(strict, [], CompactPlan(ms, limit).messages) == Scan(strict, [], Shown(ms, limit))
  {
    if !Fits(ms, limit) {
      hide Scan, S.Retained, CutOf, ChosenDigest, ClipPoint, Build, Flatten;
      var ctx, c := ContextOf(ms, limit), CutOf(ms, limit);
      ScanOfBody(false, ms);
      RetainedSystem(ms[..SystemCount(ms)]);
      ScanOfBuild(strict, ctx.system, ChosenDigest(ctx, c), c.kept);
      var out := Projection(ctx, c);
      ScanAfterClip(strict, [], out, ClippedTo(out, ClipPoint(out, limit, 0)));
    }
  }

  lemma {:induction false} CandidateScans(strict: bool, ms: seq<Message>, limit: nat, smart: Option<string>)
    requires OrphanFree(ms) && SwapIsSafe(ms, limit, smart)
    ensures Scan(strict, [], Candidate(ms, limit, smart).messages) == Scan(strict, [], Shown(ms, limit))
  {
    hide CompactPlan, Candidate, SwapSummary, Scan, Shown;
    PlanScans(strict, ms, limit);
    PlanScans(false, ms, limit);
    CompactionKeepsPairing(false, ms, limit);
    CandidateIsSwapped(ms, limit, smart);
    if Adopts(ms, limit, smart) {
      SwapHasSummary(CompactPlan(ms, limit).messages, smart.value);
      CutoverKeepsPairing(strict, CompactPlan(ms, limit).messages, smart.value);
    }
  }

  /** The request made of a history is exactly paired if and only if every batch of calls the
      compaction keeps was answered: an abandoned batch spoils every request until it is dropped,
      and none after. */
  lemma {:induction false} RequestPairedExactlyWhen(ms: seq<Message>, limit: nat, smart: Option<string>)
    requires Scan(false, [], ms) == Some([]) && SwapIsSafe(ms, limit, smart)
    ensures ExactlyPaired(MergeSystem(Candidate(ms, limit, smart).messages)) <==> AllAnswered(Shown(ms, limit))
  {
    hide Candidate, Scan, Shown, SwapIsSafe, MergeSystem, AllAnswered;
    var c := Candidate(ms, limit, smart).messages;
    CandidateKeepsPairing(false, ms, limit, smart);
    CandidateScans(false, ms, limit, smart);
    CandidateScans(true, ms, limit, smart);
    MergeKeepsPairing(true, c);
    PairedExactlyWhen(Shown(ms, limit));
  }
}
