/** The step-completion gate and the anti-sunk-cost loop around a plan step. */
module Worker {
  import opened Wrappers
  import opened Rules

  datatype AttemptResult = Success | RetryWith(reason: string) | DiscardWith(reason: string)

  datatype StepDecision =
    | Commit
    | RetrySameContext(reason: string)
    | DiscardAndReset(reason: string)
    | Replan(logs: seq<string>)
    | GiveUp

  /** Attempts since the last replan, replans so far, and the reasons collected. */
  datatype Tally = Tally(attempts: nat, replans: nat, logs: seq<string>)

  const UNTRIED := Tally(0, 0, [])

  /** A retry keeps its context, a discard starts over. */
  function TryAgain(failure: AttemptResult): StepDecision
    requires !failure.Success?
  {
    if failure.RetryWith? then RetrySameContext(failure.reason) else DiscardAndReset(failure.reason)
  }

  /** What one attempt changes, and what is decided. */
  function OnAttempt(t: Tally, maxAttempts: nat, maxReplans: nat, result: AttemptResult): (Tally, StepDecision) {
    if result.Success? then (t, Commit)
    else
      var attempts, logs := t.attempts + 1, t.logs + [result.reason];
      if attempts < maxAttempts then
        (Tally(attempts, t.replans, logs), TryAgain(result))
      else if t.replans < maxReplans then (Tally(0, t.replans + 1, []), Replan(logs))
      else (Tally(attempts, t.replans, logs), GiveUp)
  }

  class StepLoop {
    const maxAttempts: nat
    const maxReplans: nat
    var attempts: nat
    var replans: nat
    var attemptLogs: seq<string>

    constructor (maxAttempts: nat, maxReplans: nat)
      ensures this.maxAttempts == maxAttempts && this.maxReplans == maxReplans && Standing() == UNTRIED
    {
      this.maxAttempts, this.maxReplans := maxAttempts, maxReplans;
      attempts, replans, attemptLogs := 0, 0, [];
    }

    function Standing(): Tally
      reads this
    {
      Tally(attempts, replans, attemptLogs)
    }

    method Record(result: AttemptResult) returns (decision: StepDecision)
      modifies this
      ensures (Standing(), decision) == OnAttempt(old(Standing()), maxAttempts, maxReplans, result)
    {
      if result.Success? {
        return Commit;
      }
      var reason := result.reason;
      attempts := attempts + 1;
      attemptLogs := attemptLogs + [reason];
      if attempts >= maxAttempts {
        if replans >= maxReplans {
          return GiveUp;
        }
        replans := replans + 1;
        attempts := 0;
        decision := Replan(attemptLogs);
        attemptLogs := [];
      } else if result.RetryWith? {
        decision := RetrySameContext(reason);
      } else {
        decision := DiscardAndReset(reason);
      }
    }
  }

  // ---------------------------------------------------------------------------
  // The budget over a run of failures

  function After(failures: seq<AttemptResult>, maxAttempts: nat, maxReplans: nat): Tally {
    if failures == [] then UNTRIED
    else
      OnAttempt(After(failures[..|failures| - 1], maxAttempts, maxReplans), maxAttempts, maxReplans,
                failures[|failures| - 1]).0
  }

  /** What is decided on the last of a run of failures. */
  function Decision(failures: seq<AttemptResult>, maxAttempts: nat, maxReplans: nat): StepDecision
    requires failures != []
  {
    OnAttempt(After(failures[..|failures| - 1], maxAttempts, maxReplans), maxAttempts, maxReplans,
              failures[|failures| - 1]).1
  }

  predicate AllFail(results: seq<AttemptResult>) {
    forall i :: 0 <= i < |results| ==> !results[i].Success?
  }

  function Reasons(failures: seq<AttemptResult>): seq<string>
    requires AllFail(failures)
  {
    seq(|failures|, i requires 0 <= i < |failures| => failures[i].reason)
  }

  /** Calls per round: a cap of zero acts like one. */
  function PerRound(maxAttempts: nat): nat {
    if maxAttempts == 0 then 1 else maxAttempts
  }

  /** The reasons of the last `into` failures. */
  function LastReasons(failures: seq<AttemptResult>, into: nat): seq<string>
    requires AllFail(failures) && into <= |failures|
  {
    Reasons(failures[|failures| - into..])
  }

  lemma {:induction false} LastReasonsGrow(failures: seq<AttemptResult>, into: nat)
    requires AllFail(failures) && into < |failures|
    ensures LastReasons(failures, into + 1)
         == LastReasons(failures[..|failures| - 1], into) + [failures[|failures| - 1].reason]
    ensures LastReasons(failures, 0) == []
  {
    var init, n := failures[..|failures| - 1], |failures|;
    assert failures[n - (into + 1)..] == init[n - 1 - into..] + [failures[n - 1]];
  }

  /** After `rounds` full rounds and `into` failures of the next, while replans last. */
  lemma {:induction false} TallyAfter(failures: seq<AttemptResult>, maxAttempts: nat, maxReplans: nat, rounds: nat, into: nat)
    requires AllFail(failures) && rounds <= maxReplans && into < PerRound(maxAttempts) && into <= |failures|
    requires |failures| == rounds * PerRound(maxAttempts) + into
    ensures After(failures, maxAttempts, maxReplans) == Tally(into, rounds, LastReasons(failures, into))
    decreases |failures|
  {
    var m := PerRound(maxAttempts);
    if failures == [] {
      NoFailures(rounds, into, m);
    } else {
      var init, last := failures[..|failures| - 1], failures[|failures| - 1];
      hide LastReasons;
      if into > 0 {
        TallyAfter(init, maxAttempts, maxReplans, rounds, into - 1);
        LastReasonsGrow(failures, into - 1);
      } else {
        RoundEnds(rounds, m);
        RoundFits(rounds - 1, m, |failures|);
        TallyAfter(init, maxAttempts, maxReplans, rounds - 1, m - 1);
        LastReasonsGrow(failures, 0);
      }
    }
  }

  lemma {:induction false} NoFailures(rounds: nat, into: nat, m: nat)
    requires 0 == rounds * m + into && m > 0
    ensures rounds == 0 && into == 0
  {
    assert rounds * m == rounds * (m - 1) + rounds;
  }

  lemma {:induction false} RoundEnds(rounds: nat, m: nat)
    requires rounds * m > 0
    ensures rounds > 0 && rounds * m - 1 == (rounds - 1) * m + (m - 1)
  {
    assert rounds * m == (rounds - 1) * m + m;
  }

  /** In each round, all failures but the last go back to the same step; the last replans it with exactly
      the round's reasons, in order, or gives up when the replans are spent. */
  lemma {:induction false} BudgetSchedule(
      failures: seq<AttemptResult>, maxAttempts: nat, maxReplans: nat, rounds: nat, into: nat, m: nat, last: AttemptResult)
    requires AllFail(failures) && m == PerRound(maxAttempts) && rounds <= maxReplans && into < m
    requires |failures| == rounds * m + into + 1 && into < |failures| && last == failures[|failures| - 1]
    ensures into + 1 < m ==> Decision(failures, maxAttempts, maxReplans) == TryAgain(last)
    ensures into + 1 == m && rounds < maxReplans ==>
              Decision(failures, maxAttempts, maxReplans) == Replan(LastReasons(failures, into + 1))
    ensures into + 1 == m && rounds == maxReplans ==> Decision(failures, maxAttempts, maxReplans) == GiveUp
  {
    hide LastReasons, After;
    TallyAfter(failures[..|failures| - 1], maxAttempts, maxReplans, rounds, into);
    LastReasonsGrow(failures, into);
  }

  lemma {:induction false} RoundFits(rounds: nat, m: nat, n: nat)
    requires n == rounds * m + m
    ensures n >= m
  {
  }

  /** Once given up, the loop stays so. */
  lemma {:induction false} StaysGivenUp(failures: seq<AttemptResult>, maxAttempts: nat, maxReplans: nat, m: nat)
    requires AllFail(failures) && m == PerRound(maxAttempts) && |failures| >= m * (maxReplans + 1)
    ensures var t := After(failures, maxAttempts, maxReplans); t.attempts >= m && t.replans == maxReplans
    ensures failures != [] && Decision(failures, maxAttempts, maxReplans) == GiveUp
    decreases |failures|
  {
    assert m * (maxReplans + 1) == maxReplans * m + m;
    var init := failures[..|failures| - 1];
    if |init| >= m * (maxReplans + 1) {
      StaysGivenUp(init, maxAttempts, maxReplans, m);
    } else {
      hide LastReasons;
      TallyAfter(init, maxAttempts, maxReplans, maxReplans, m - 1);
    }
  }

  /** The loop gives up exactly from failure number `max(1, maxAttempts) * (maxReplans + 1)` on. */
  lemma {:induction false} GivesUpExactlyWhen(failures: seq<AttemptResult>, maxAttempts: nat, maxReplans: nat)
    requires AllFail(failures) && failures != []
    ensures Decision(failures, maxAttempts, maxReplans) == GiveUp
       <==> |failures| >= PerRound(maxAttempts) * (maxReplans + 1)
  {
    var m := PerRound(maxAttempts);
    if |failures| >= m * (maxReplans + 1) {
      StaysGivenUp(failures, maxAttempts, maxReplans, m);
    } else {
      var rounds, into := RoundOf(|failures| - 1, m, maxReplans);
      BudgetSchedule(failures, maxAttempts, maxReplans, rounds, into, m, failures[|failures| - 1]);
      LastOfAll(|failures|, rounds, into, m, maxReplans);
    }
  }

  lemma {:induction false} LastOfAll(n: nat, rounds: nat, into: nat, m: nat, maxReplans: nat)
    requires n == rounds * m + into + 1 && n < m * (maxReplans + 1) && into < m
    ensures !(into + 1 == m && rounds == maxReplans)
  {
    assert m * (maxReplans + 1) == maxReplans * m + m;
  }

  lemma {:induction false} RoundOf(n: nat, m: nat, maxReplans: nat) returns (rounds: nat, into: nat)
    requires m > 0 && n < m * (maxReplans + 1)
    ensures n == rounds * m + into && into < m && rounds <= maxReplans
  {
    if n < m {
      rounds, into := 0, n;
      assert 0 * m == 0;
    } else {
      assert maxReplans > 0;
      assert m * (maxReplans + 1) == m * maxReplans + m;
      rounds, into := RoundOf(n - m, m, maxReplans - 1);
      assert (rounds + 1) * m == rounds * m + m;
      rounds := rounds + 1;
    }
  }

  // ---------------------------------------------------------------------------
  // The gate

  datatype StepAction = Proceed | Rework(reason: string) | Stop(reason: string)

  function ActionRank(a: StepAction): nat {
    match a
    case Proceed => 0
    case Rework(_) => 1
    case Stop(_) => 2
  }

  function ActionFor(finding: (string, Verdict)): StepAction {
    match finding.1
    case Allow => Proceed
    case Warn(_) => Proceed
    case Retry(reason) => Rework(reason)
    case Discard(reason) => Rework(reason)
    case Block(reason) => Stop(finding.0 + ": " + reason)
  }

  /** The first of the most severe actions. */
  function Reduce(findings: seq<(string, Verdict)>): StepAction {
    if findings == [] then Proceed
    else
      var before, a := Reduce(findings[..|findings| - 1]), ActionFor(findings[|findings| - 1]);
      if ActionRank(a) > ActionRank(before) then a else before
  }

  function StepFindings(config: Config, c: Context): seq<(string, Verdict)> {
    Evaluate(config, PostTest, c) + Evaluate(config, PreCommit, c) + Evaluate(config, StepComplete, c)
  }

  function DecideStep(config: Config, c: Context): StepAction {
    Reduce(StepFindings(config, c))
  }

  /** The findings of the first `n` of the gate's triggers. */
  ghost function FindingsUpTo(config: Config, c: Context, n: nat): seq<(string, Verdict)>
    requires n <= 3
  {
    if n == 0 then []
    else FindingsUpTo(config, c, n - 1) + Evaluate(config, [PostTest, PreCommit, StepComplete][n - 1], c)
  }

  method DecideStepByRules(config: Config, c: Context) returns (action: StepAction)
    ensures action == DecideStep(config, c)
  {
    hide Evaluate, Reduce;
    action := Proceed;
    ReduceNone();
    var triggers := [PostTest, PreCommit, StepComplete];
    for t := 0 to 3
      invariant action == Reduce(FindingsUpTo(config, c, t))
    {
      var outcomes := EvaluateRules(config, triggers[t], c);
      action := TakeFindings(action, outcomes, FindingsUpTo(config, c, t));
    }
    AllTriggers(config, c);
  }

  method TakeFindings(action: StepAction, outcomes: seq<(string, Verdict)>, ghost before: seq<(string, Verdict)>)
    returns (r: StepAction)
    requires action == Reduce(before)
    ensures r == Reduce(before + outcomes)
  {
    hide ActionFor, ActionRank, Reduce;
    r := action;
    assert before + outcomes[..0] == before;
    for k := 0 to |outcomes|
      invariant r == Reduce(before + outcomes[..k])
    {
      var candidate := ActionFor(outcomes[k]);
      ReducePush(before + outcomes[..k], outcomes[k]);
      assert before + outcomes[..k + 1] == before + outcomes[..k] + [outcomes[k]];
      if ActionRank(candidate) > ActionRank(r) {
        r := candidate;
      }
    }
    assert outcomes[..|outcomes|] == outcomes;
  }

  lemma {:induction false} AllTriggers(config: Config, c: Context)
    ensures FindingsUpTo(config, c, 3) == StepFindings(config, c)
  {
    hide Evaluate;
    assert FindingsUpTo(config, c, 1) == [] + Evaluate(config, PostTest, c);
    assert FindingsUpTo(config, c, 2) == FindingsUpTo(config, c, 1) + Evaluate(config, PreCommit, c);
  }

  lemma {:induction false} ReduceNone()
    ensures Reduce([]) == Proceed
  {
  }

  lemma {:induction false} ReducePush(findings: seq<(string, Verdict)>, f: (string, Verdict))
    ensures Reduce(findings + [f])
         == if ActionRank(ActionFor(f)) > ActionRank(Reduce(findings)) then ActionFor(f) else Reduce(findings)
  {
    hide ActionFor, ActionRank;
    assert (findings + [f])[..|findings|] == findings;
  }
}
