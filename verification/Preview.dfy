/** The ingestion preview: which files of a walk a run may take within its budgets. */
module Preview {
  import opened Numbers

  /** A file of the walk as classified: a candidate for ingestion, or skipped for its own sake. */
  datatype File = File(candidate: bool, bytes: nat, tokens: nat)

  datatype Limits = Limits(files: nat, bytes: nat, tokens: nat)

  datatype Totals = Totals(files: nat, bytes: nat, tokens: nat)

  datatype Verdict = Accepted | OverBudget | Skipped

  /** What the manifest reports of the whole walk. */
  datatype Estimates = Estimates(
    accepted: Totals, skipped: nat, overFiles: bool, overBytes: bool, overTokens: bool)

  const ZERO := Totals(0, 0, 0)

  function Add(t: Totals, f: File): Totals {
    Totals(SatAdd(t.files, 1), SatAdd(t.bytes, f.bytes), SatAdd(t.tokens, f.tokens))
  }

  predicate Within(t: Totals, limits: Limits) {
    t.files <= limits.files && t.bytes <= limits.bytes && t.tokens <= limits.tokens
  }

  /** The running totals over the candidates of a walk, taken or not. */
  function Running(walk: seq<File>): Totals {
    if walk == [] then ZERO
    else
      var before, f := Running(walk[..|walk| - 1]), walk[|walk| - 1];
      if f.candidate then Add(before, f) else before
  }

  function VerdictAt(walk: seq<File>, i: nat, limits: Limits): Verdict
    requires i < |walk|
  {
    if !walk[i].candidate then Skipped
    else if Within(Running(walk[..i + 1]), limits) then Accepted
    else OverBudget
  }

  function TakenTotals(walk: seq<File>, n: nat, limits: Limits): Totals
    requires n <= |walk|
  {
    if n == 0 then ZERO
    else
      var before := TakenTotals(walk, n - 1, limits);
      if VerdictAt(walk, n - 1, limits) == Accepted then Add(before, walk[n - 1]) else before
  }

  function NotTaken(walk: seq<File>, n: nat, limits: Limits): nat
    requires n <= |walk|
  {
    if n == 0 then 0
    else NotTaken(walk, n - 1, limits) + if VerdictAt(walk, n - 1, limits) == Accepted then 0 else 1
  }

  /** Walks the tree once, judging each file as it comes. */
  method JudgeWalk(walk: seq<File>, limits: Limits) returns (verdicts: seq<Verdict>, estimates: Estimates)
    ensures |verdicts| == |walk| && forall i :: 0 <= i < |walk| ==> verdicts[i] == VerdictAt(walk, i, limits)
    ensures estimates == Estimates(TakenTotals(walk, |walk|, limits), NotTaken(walk, |walk|, limits), false, false, false)
  {
    verdicts := [];
    var files: nat, bytes: nat, tokens: nat := 0, 0, 0;
    var accepted := ZERO;
    var skipped: nat := 0;
    assert walk[..0] == [];
    for i := 0 to |walk|
      invariant Totals(files, bytes, tokens) == Running(walk[..i])
      invariant |verdicts| == i && forall k :: 0 <= k < i ==> verdicts[k] == VerdictAt(walk, k, limits)
      invariant accepted == TakenTotals(walk, i, limits) && skipped == NotTaken(walk, i, limits)
    {
      var f := walk[i];
      var verdict := Skipped;
      assert walk[..i + 1][..i] == walk[..i];
      if f.candidate {
        files, bytes, tokens := SatAdd(files, 1), SatAdd(bytes, f.bytes), SatAdd(tokens, f.tokens);
        verdict := if files > limits.files || bytes > limits.bytes || tokens > limits.tokens then OverBudget else Accepted;
      }
      if verdict == Accepted {
        accepted := Totals(SatAdd(accepted.files, 1), SatAdd(accepted.bytes, f.bytes), SatAdd(accepted.tokens, f.tokens));
      } else {
        skipped := skipped + 1;
      }
      verdicts := verdicts + [verdict];
    }
    TakenFits(walk, |walk|, limits);
    estimates := Estimates(
      accepted, skipped, accepted.files > limits.files, accepted.bytes > limits.bytes, accepted.tokens > limits.tokens);
  }

  lemma {:induction false} RunningGrows(walk: seq<File>, i: nat, j: nat)
    requires i <= j <= |walk|
    ensures Running(walk[..i]).files <= Running(walk[..j]).files <= U64_MAX
    ensures Running(walk[..i]).bytes <= Running(walk[..j]).bytes <= U64_MAX
    ensures Running(walk[..i]).tokens <= Running(walk[..j]).tokens <= U64_MAX
    decreases j
  {
    if j > 0 {
      assert walk[..j][..j - 1] == walk[..j - 1];
      RunningGrows(walk, if i < j then i else j - 1, j - 1);
    }
  }

  /** The files taken are the candidates up to one point of the walk, the last where all the candidates so
      far fit every budget; from there on every candidate is refused, however small. */
  lemma {:induction false} TakenIsPrefix(walk: seq<File>, limits: Limits) returns (cut: nat)
    ensures cut <= |walk|
    ensures forall i :: 0 <= i < |walk| && walk[i].candidate ==> (VerdictAt(walk, i, limits) == Accepted <==> i < cut)
    ensures cut < |walk| ==> walk[cut].candidate && !Within(Running(walk[..cut + 1]), limits)
  {
    hide Running;
    cut := 0;
    while cut < |walk| && VerdictAt(walk, cut, limits) != OverBudget
      invariant cut <= |walk|
      invariant forall i :: 0 <= i < cut ==> VerdictAt(walk, i, limits) != OverBudget
    {
      cut := cut + 1;
    }
    forall i | cut <= i < |walk| && walk[i].candidate ensures VerdictAt(walk, i, limits) == OverBudget {
      RunningGrows(walk, cut + 1, i + 1);
    }
  }

  /** What is taken fits, so the over-budget flags of the estimates are never set. */
  lemma {:induction false} TakenFits(walk: seq<File>, n: nat, limits: Limits)
    requires n <= |walk|
    ensures Within(TakenTotals(walk, n, limits), limits)
    ensures (forall i :: 0 <= i < n ==> VerdictAt(walk, i, limits) != OverBudget) ==>
              TakenTotals(walk, n, limits) == Running(walk[..n])
  {
    if n > 0 {
      TakenFits(walk, n - 1, limits);
      assert walk[..n][..n - 1] == walk[..n - 1];
      var cut := TakenIsPrefix(walk, limits);
      if VerdictAt(walk, n - 1, limits) == Accepted {
        assert forall i :: 0 <= i < n && walk[i].candidate ==> VerdictAt(walk, i, limits) == Accepted;
      }
    }
  }

  // ---------------------------------------------------------------------------
  // What the totals count

  /** The positions of the candidates among the first `n` files. */
  function CandidatesTo(walk: seq<File>, n: nat): set<nat>
    requires n <= |walk|
  {
    set i: nat | i < n && walk[i].candidate
  }

  /** The positions among the first `n` files that are taken. */
  function TakenTo(walk: seq<File>, n: nat, limits: Limits): set<nat>
    requires n <= |walk|
  {
    set i: nat | i < n && VerdictAt(walk, i, limits) == Accepted
  }

  function AtMost(a: nat, limit: nat): nat {
    if a <= limit then a else limit
  }

  const BYTES: File -> nat := (f: File) => f.bytes
  const TOKENS: File -> nat := (f: File) => f.tokens

  /** What the files at `positions` among the first `n` weigh by one measure. */
  function Weight(walk: seq<File>, n: nat, positions: set<nat>, measure: File -> nat): nat
    requires n <= |walk|
  {
    if n == 0 then 0
    else Weight(walk, n - 1, positions, measure) + if n - 1 in positions then measure(walk[n - 1]) else 0
  }

  lemma {:induction false} WeightIsLocal(walk: seq<File>, n: nat, a: set<nat>, b: set<nat>, measure: File -> nat)
    requires n <= |walk| && forall i :: 0 <= i < n ==> (i in a <==> i in b)
    ensures Weight(walk, n, a, measure) == Weight(walk, n, b, measure)
  {
    if n > 0 {
      WeightIsLocal(walk, n - 1, a, b, measure);
    }
  }

  /** One more file at the end of `before` adds its own weight, or nothing. */
  lemma {:induction false} WeightGrows(walk: seq<File>, n: nat, before: set<nat>, chosen: bool, measure: File -> nat)
    requires 0 < n <= |walk| && n - 1 !in before
    ensures var here := if chosen then before + {n - 1} else before;
            && |here| == |before| + (if chosen then 1 else 0)
            && Weight(walk, n, here, measure)
               == Weight(walk, n - 1, before, measure) + (if chosen then measure(walk[n - 1]) else 0)
  {
    WeightIsLocal(walk, n - 1, before, if chosen then before + {n - 1} else before, measure);
  }

  /** The number, the bytes and the tokens of the files at `positions`, each as far as 64 bits reach. */
  function Counted(walk: seq<File>, n: nat, positions: set<nat>): Totals
    requires n <= |walk|
  {
    Totals(AtMost(|positions|, U64_MAX), AtMost(Weight(walk, n, positions, BYTES), U64_MAX),
           AtMost(Weight(walk, n, positions, TOKENS), U64_MAX))
  }

  lemma {:induction false} SaturatesOnce(a: nat, b: nat)
    ensures SatAdd(AtMost(a, U64_MAX), b) == AtMost(a + b, U64_MAX)
  {
  }

  lemma {:induction false} CountedGrows(walk: seq<File>, n: nat, before: set<nat>, chosen: bool)
    requires 0 < n <= |walk| && n - 1 !in before
    ensures var f := Counted(walk, n - 1, before);
            Counted(walk, n, if chosen then before + {n - 1} else before) == if chosen then Add(f, walk[n - 1]) else f
  {
    hide Weight, SatAdd, AtMost;
    WeightGrows(walk, n, before, chosen, BYTES);
    WeightGrows(walk, n, before, chosen, TOKENS);
    SaturatesOnce(|before|, 1);
    SaturatesOnce(Weight(walk, n - 1, before, BYTES), walk[n - 1].bytes);
    SaturatesOnce(Weight(walk, n - 1, before, TOKENS), walk[n - 1].tokens);
  }

  lemma {:induction false} RunningStep(walk: seq<File>, n: nat)
    requires 0 < n <= |walk|
    ensures var before := Running(walk[..n - 1]);
            Running(walk[..n]) == if walk[n - 1].candidate then Add(before, walk[n - 1]) else before
  {
    assert walk[..n][..n - 1] == walk[..n - 1];
  }

  /** The totals a file is judged by are those of the candidates up to it, itself included. */
  lemma {:induction false} RunningCounts(walk: seq<File>, n: nat)
    requires n <= |walk|
    ensures Running(walk[..n]) == Counted(walk, n, CandidatesTo(walk, n))
  {
    if n > 0 {
      hide Counted, Running, Add;
      RunningStep(walk, n);
      RunningCounts(walk, n - 1);
      var before, chosen := CandidatesTo(walk, n - 1), walk[n - 1].candidate;
      assert CandidatesTo(walk, n) == if chosen then before + {n - 1} else before;
      CountedGrows(walk, n, before, chosen);
    }
  }

  /** The estimates count what is taken, and every other file as not taken. */
  lemma {:induction false} EstimatesCount(walk: seq<File>, n: nat, limits: Limits)
    requires n <= |walk|
    ensures TakenTotals(walk, n, limits) == Counted(walk, n, TakenTo(walk, n, limits))
    ensures NotTaken(walk, n, limits) == n - |TakenTo(walk, n, limits)|
  {
    hide VerdictAt;
    if n > 0 {
      hide Counted, Add;
      EstimatesCount(walk, n - 1, limits);
      var before, chosen := TakenTo(walk, n - 1, limits), VerdictAt(walk, n - 1, limits) == Accepted;
      assert TakenTo(walk, n, limits) == if chosen then before + {n - 1} else before;
      CountedGrows(walk, n, before, chosen);
    }
  }
}
