/** Why a resume stops, and how its work ends. */
module StopLaws {
  import opened Wrappers
  import opened Rules
  import opened Worker
  import opened GateLaws
  import opened Resume
  import opened ResumeLaws
  import P = ProgressFile
  import D = DecisionsFile
  import S = Session

  // ---------------------------------------------------------------------------
  // Which rules are enforced

  predicate SetTo(config: Config, key: string, severity: Severity) {
    key in config && config[key] == severity
  }

  /** What a setting under a rule's key comes to: the rules that guard the workspace, the tests, the message and the checks
      stay enforced unless set to warn, even turned off; those for stale changes, progress and attempts unless set to warn
      or off; those for secret files and test-first editing are enforced only when set to block. */
  lemma {:induction false} EnforcedExactlyWhen(config: Config)
    ensures Enforced(config, WorkspaceBoundary) <==> !SetTo(config, "workspace_boundary", WarnOnly)
    ensures Enforced(config, SuiteGreen) <==> !SetTo(config, "suite_green", WarnOnly)
    ensures Enforced(config, CommitMessageClean) <==> !SetTo(config, "commit_message_clean", WarnOnly)
    ensures Enforced(config, QualityGate) <==> !SetTo(config, "quality_gate", WarnOnly)
    ensures Enforced(config, NoStaleUncommitted)
       <==> !SetTo(config, "no_stale_uncommitted", WarnOnly) && !SetTo(config, "no_stale_uncommitted", Off)
    ensures Enforced(config, ProgressUpdated)
       <==> !SetTo(config, "progress_updated", WarnOnly) && !SetTo(config, "progress_updated", Off)
    ensures Enforced(config, AttemptLimit)
       <==> !SetTo(config, "attempt_limit", WarnOnly) && !SetTo(config, "attempt_limit", Off)
    ensures Enforced(config, SecretFileGuard) <==> SetTo(config, "secret_file_guard", Blocking)
    ensures Enforced(config, TestFirst) <==> SetTo(config, "test_first_when_configured", Blocking)
  {
  }

  // ---------------------------------------------------------------------------
  // The reason given

  /** Position `i` is the first that blocks. */
  predicate FirstToBlock(outcomes: seq<CheckOutcome>, i: nat) {
    i < |outcomes| && Blocks(outcomes[i]) && forall j :: 0 <= j < i ==> !Blocks(outcomes[j])
  }

  function Complaint(o: CheckOutcome): string {
    if o.status.Denied? then "quality check `" + o.name + "` was denied by the permission engine"
    else if o.status.Errored? then "quality check `" + o.name + "` could not run"
    else "quality check `" + o.name + "` reported blocking findings"
  }

  function Told(rule: string, reason: string): string {
    rule + ": " + reason
  }

  /** Why a stopped step is stopped: the tests come first, then the message, then the cap, then the first check
      that blocks. */
  ghost predicate StoppedFor(job: Job, step: P.Step, outcomes: seq<CheckOutcome>, reason: string) {
    if TestFailed(outcomes) && Enforced(job.config, SuiteGreen) then
      reason == Told("suite_green", "the configured test command did not pass")
    else if Unclean(job, step) then
      reason == Told("commit_message_clean", "the commit message contains a secret or a prohibited reference")
    else if Capped(job) then
      reason == Told("attempt_limit", "the per-step attempt limit was reached")
    else
      exists i: nat :: FirstToBlock(outcomes, i) && reason == Told("quality_gate", Complaint(outcomes[i]))
  }

  lemma {:induction false} ReduceJoins(a: seq<(string, Verdict)>, b: seq<(string, Verdict)>)
    ensures Reduce(a + b) == if ActionRank(Reduce(b)) > ActionRank(Reduce(a)) then Reduce(b) else Reduce(a)
  {
    hide ActionFor, ActionRank;
    NothingIsFine();
    if b == [] {
      assert a + b == a;
      ProceedIsLeast(Reduce(a));
    } else {
      var init, last := b[..|b| - 1], b[|b| - 1];
      ReduceJoins(a, init);
      assert a + b == (a + init) + [last] && b == init + [last];
      hide Reduce;
      ReducePush(a + init, last);
      ReducePush(init, last);
    }
  }

  lemma {:induction false} ProceedIsLeast(a: StepAction)
    ensures ActionRank(a) >= ActionRank(Proceed)
    ensures ActionRank(a) == 2 <==> a.Stop?
  {
  }

  /** A stop on a trigger is asked for by one of the rules consulted. */
  lemma {:induction false} StopHasRule(config: Config, t: Trigger, c: Context, rules: seq<Rule>)
    requires Reduce(Findings(config, t, c, rules)).Stop?
    ensures exists r :: r in rules && Asks(config, t, c, r) == 2
                        && Reduce(Findings(config, t, c, rules)) == ActionFor((Name(r), Says(config, t, c, r)))
  {
    hide Findings, Reduce, ActionFor, Says, Name;
    ReduceFinds(Findings(config, t, c, rules));
    var f :| f in Findings(config, t, c, rules) && ActionFor(f) == Reduce(Findings(config, t, c, rules));
    FindingsSay(config, t, c, rules, f);
  }

  /** A rule that asks for a stop gets one. */
  lemma {:induction false} RuleStops(config: Config, t: Trigger, c: Context, rules: seq<Rule>, r: Rule)
    requires r in rules && Asks(config, t, c, r) == 2
    ensures Reduce(Findings(config, t, c, rules)).Stop?
  {
    hide Findings, Reduce, ActionFor, Says, Name;
    ReduceIsWorst(Findings(config, t, c, rules), 2);
    FindingsAsk(config, t, c, rules, 2);
    hide Asks;
    ProceedIsLeast(Reduce(Findings(config, t, c, rules)));
  }

  /** Whether a rule stops the step, told over the job. */
  ghost predicate RuleHolds(job: Job, step: P.Step, outcomes: seq<CheckOutcome>, r: Rule) {
    match r
    case SuiteGreen => TestFailed(outcomes) && Enforced(job.config, SuiteGreen)
    case CommitMessageClean => Unclean(job, step)
    case AttemptLimit => Capped(job)
    case QualityGate => Enforced(job.config, QualityGate) && exists o :: o in outcomes && Blocks(o)
    case _ => false
  }

  lemma {:induction false} JobLevels(job: Job, step: P.Step, outcomes: seq<CheckOutcome>, r: Rule)
    ensures Level(job.config, GateContext(job, step, outcomes), r) == 2 <==> RuleHolds(job, step, outcomes, r)
  {
    TestsPassedSays(outcomes);
    hide UncleanMessage, EffectiveSeverity, TestsPassed, TestFailed, Blocks, AsksForRework;
  }

  /** What the rule asks for at a trigger of the gate. */
  lemma {:induction false} JobAsks(job: Job, step: P.Step, outcomes: seq<CheckOutcome>, t: Trigger, r: Rule)
    requires IsGateTrigger(t)
    ensures Asks(job.config, t, GateContext(job, step, outcomes), r) == 2
       <==> AppliesTo(r, t) && RuleHolds(job, step, outcomes, r)
  {
    RuleAsks(job.config, t, GateContext(job, step, outcomes), r);
    JobLevels(job, step, outcomes, r);
    hide Asks, GateContext, Level, RuleHolds;
  }

  /** What a rule that stops the step says. */
  lemma {:induction false} RuleSpeaks(job: Job, step: P.Step, outcomes: seq<CheckOutcome>, t: Trigger, r: Rule)
    requires IsGateTrigger(t) && Asks(job.config, t, GateContext(job, step, outcomes), r) == 2 && !r.QualityGate?
    ensures var action := ActionFor((Name(r), Says(job.config, t, GateContext(job, step, outcomes), r)));
            || (r.SuiteGreen? && action == Stop(Told("suite_green", "the configured test command did not pass")))
            || (r.CommitMessageClean?
                && action == Stop(Told("commit_message_clean", "the commit message contains a secret or a prohibited reference")))
            || (r.AttemptLimit? && action == Stop(Told("attempt_limit", "the per-step attempt limit was reached")))
  {
    JobAsks(job, step, outcomes, t, r);
    hide EffectiveSeverity, UncleanMessage, TestsPassed, TestFailed, Capped, Enforced;
  }

  lemma {:induction false} WorstBlocks(outcomes: seq<CheckOutcome>)
    requires Worst(outcomes).Block?
    ensures exists i: nat :: FirstToBlock(outcomes, i) && Worst(outcomes) == Block(Complaint(outcomes[i]))
  {
    var init, n := outcomes[..|outcomes| - 1], |outcomes| - 1;
    if Worst(init).Block? {
      WorstBlocks(init);
      var i: nat :| FirstToBlock(init, i) && Worst(init) == Block(Complaint(init[i]));
      hide Blocks, Complaint, OutcomeVerdict;
      assert FirstToBlock(outcomes, i);
    } else {
      hide Blocks, Complaint, OutcomeVerdict;
      WorstSays(init);
      VerdictSays(outcomes[n]);
      ComplaintSays(outcomes[n]);
      forall j | 0 <= j < n ensures !Blocks(outcomes[j]) {
        assert outcomes[j] == init[j] && init[j] in init;
      }
      assert FirstToBlock(outcomes, n);
    }
  }

  lemma {:induction false} ComplaintSays(o: CheckOutcome)
    requires OutcomeVerdict(o).Block?
    ensures OutcomeVerdict(o) == Block(Complaint(o))
  {
  }

  /** What the gate says when it stops the step. */
  lemma {:induction false} GateSpeaks(job: Job, step: P.Step, outcomes: seq<CheckOutcome>)
    requires Asks(job.config, StepComplete, GateContext(job, step, outcomes), QualityGate) == 2
    ensures exists i: nat :: FirstToBlock(outcomes, i)
              && ActionFor((Name(QualityGate), Says(job.config, StepComplete, GateContext(job, step, outcomes), QualityGate)))
                 == Stop(Told("quality_gate", Complaint(outcomes[i])))
  {
    hide EffectiveSeverity, Worst, Complaint, FirstToBlock;
    JobAsks(job, step, outcomes, StepComplete, QualityGate);
    assert Worst(outcomes).Block?;
    WorstBlocks(outcomes);
  }

  /** All rules but the gate's stand before it. */
  lemma {:induction false} GateIsLast(config: Config, t: Trigger, c: Context)
    ensures var finding := (Name(QualityGate), Says(config, t, c, QualityGate));
            Reduce(Evaluate(config, t, c))
            == (var before := Reduce(Findings(config, t, c, BASELINE[..8]));
                if ActionRank(ActionFor(finding)) > ActionRank(before) then ActionFor(finding) else before)
  {
    hide Says, Name, ActionFor, ActionRank;
    AllowAsksNothing(Name(QualityGate));
    var v := Says(config, t, c, QualityGate);
    assert BASELINE[|BASELINE| - 1] == QualityGate;
    var before := Findings(config, t, c, BASELINE[..8]);
    hide Reduce;
    if v.Allow? {
      assert Evaluate(config, t, c) == before;
      VerdictRanks(Name(QualityGate));
    } else {
      assert Evaluate(config, t, c) == before + [(Name(QualityGate), v)];
      ReducePush(before, (Name(QualityGate), v));
    }
  }

  lemma {:induction false} VerdictRanks(name: string)
    ensures forall a :: ActionRank(a) >= ActionRank(ActionFor((name, Allow)))
  {
  }

  /** What a trigger comes to over some rules, when the only rule among them that can stop the step there is `r`. */
  lemma {:induction false} OneStops(job: Job, step: P.Step, outcomes: seq<CheckOutcome>, t: Trigger, rules: seq<Rule>, r: Rule)
    requires IsGateTrigger(t) && r in rules && AppliesTo(r, t) && !r.QualityGate?
    requires forall x :: x in rules && AppliesTo(x, t) && RuleHolds(job, step, outcomes, x) ==> x == r
    ensures var a := Reduce(Findings(job.config, t, GateContext(job, step, outcomes), rules));
            && (a.Stop? <==> RuleHolds(job, step, outcomes, r))
            && (a.Stop? ==> a == ActionFor((Name(r), Says(job.config, t, GateContext(job, step, outcomes), r)))
                            && Asks(job.config, t, GateContext(job, step, outcomes), r) == 2)
  {
    hide Reduce, Findings, Says, Name, ActionFor, Asks, AppliesTo, RuleHolds, GateContext;
    var config, c := job.config, GateContext(job, step, outcomes);
    JobAsks(job, step, outcomes, t, r);
    if RuleHolds(job, step, outcomes, r) {
      RuleStops(config, t, c, rules, r);
    }
    if Reduce(Findings(config, t, c, rules)).Stop? {
      StopHasRule(config, t, c, rules);
      var x :| x in rules && Asks(config, t, c, x) == 2
               && Reduce(Findings(config, t, c, rules)) == ActionFor((Name(x), Says(config, t, c, x)));
      JobAsks(job, step, outcomes, t, x);
    }
  }

  /** What each trigger of the gate comes to, as far as it stops the step. */
  lemma {:induction false} TriggersStop(job: Job, step: P.Step, outcomes: seq<CheckOutcome>)
    ensures var a := Reduce(Evaluate(job.config, PostTest, GateContext(job, step, outcomes)));
            && (a.Stop? <==> TestFailed(outcomes) && Enforced(job.config, SuiteGreen))
            && (a.Stop? ==> a == Stop(Told("suite_green", "the configured test command did not pass")))
    ensures var a := Reduce(Evaluate(job.config, PreCommit, GateContext(job, step, outcomes)));
            && (a.Stop? <==> Unclean(job, step))
            && (a.Stop? ==> a == Stop(Told("commit_message_clean",
                                           "the commit message contains a secret or a prohibited reference")))
  {
    hide Reduce, Findings, Says, Name, ActionFor, Asks, GateContext, Unclean, TestFailed, Enforced, Told, Capped, Blocks;
    assert SuiteGreen in BASELINE && CommitMessageClean in BASELINE;
    OneStops(job, step, outcomes, PostTest, BASELINE, SuiteGreen);
    if RuleHolds(job, step, outcomes, SuiteGreen) {
      RuleSpeaks(job, step, outcomes, PostTest, SuiteGreen);
    }
    OneStops(job, step, outcomes, PreCommit, BASELINE, CommitMessageClean);
    if RuleHolds(job, step, outcomes, CommitMessageClean) {
      RuleSpeaks(job, step, outcomes, PreCommit, CommitMessageClean);
    }
  }

  /** The last trigger, when neither the tests nor the message stop the step. */
  lemma {:induction false} CompletionStops(job: Job, step: P.Step, outcomes: seq<CheckOutcome>)
    requires !(TestFailed(outcomes) && Enforced(job.config, SuiteGreen)) && !Unclean(job, step)
    ensures var a := Reduce(Evaluate(job.config, StepComplete, GateContext(job, step, outcomes)));
            a.Stop? ==> StoppedFor(job, step, outcomes, a.reason)
  {
    hide Reduce, Findings, Says, Name, ActionFor, GateContext, Unclean, TestFailed, Enforced, Told, Capped, Blocks,
         Complaint, FirstToBlock, Evaluate;
    var config, c := job.config, GateContext(job, step, outcomes);
    assert AttemptLimit == BASELINE[..8][7];
    OneStops(job, step, outcomes, StepComplete, BASELINE[..8], AttemptLimit);
    if RuleHolds(job, step, outcomes, AttemptLimit) {
      RuleSpeaks(job, step, outcomes, StepComplete, AttemptLimit);
    }
    GateIsLast(config, StepComplete, c);
    ProceedIsLeast(Reduce(Evaluate(config, StepComplete, c)));
    ProceedIsLeast(Reduce(Findings(config, StepComplete, c, BASELINE[..8])));
    ProceedIsLeast(ActionFor((Name(QualityGate), Says(config, StepComplete, c, QualityGate))));
    if Asks(config, StepComplete, c, QualityGate) == 2 {
      GateSpeaks(job, step, outcomes);
    }
    hide ActionRank, RuleHolds;
  }

  /** A stopped step is told why: of its tests before its message, of its message before its cap, and of its cap
      before the first check that blocks. */
  lemma {:induction false} StopSays(job: Job, step: P.Step, k: nat)
    requires Stopped(job, step, job.turns(k).outcomes) && job.turns(k).stop == S.Done
    ensures Action(job, step, k).Stop? && StoppedFor(job, step, job.turns(k).outcomes, Action(job, step, k).reason)
  {
    ActionSays(job, step, k);
    var outcomes := job.turns(k).outcomes;
    TriggersStop(job, step, outcomes);
    hide Evaluate, GateContext, Unclean, TestFailed, Enforced, Told, Capped, Blocks, Complaint, FirstToBlock, Stopped,
         NeedsRework, Passes, Returns;
    var config, c := job.config, GateContext(job, step, outcomes);
    var first, second, third := Evaluate(config, PostTest, c), Evaluate(config, PreCommit, c), Evaluate(config, StepComplete, c);
    hide Reduce;
    ReduceJoins(first, second);
    ReduceJoins(first + second, third);
    ProceedIsLeast(Reduce(first));
    ProceedIsLeast(Reduce(second));
    ProceedIsLeast(Reduce(third));
    if !Reduce(first).Stop? && !Reduce(second).Stop? {
      CompletionStops(job, step, outcomes);
    }
  }

  // ---------------------------------------------------------------------------
  // How the work ends

  /** How the work stands after its last turn, the turns before it having been sent back. */
  ghost predicate EndsAs(job: Job, step: P.Step, last: nat, o: Outcome) {
    var turn := job.turns(last);
    && o.turns == last + 1
    && o.gate == (if turn.stop == S.Done then turn.outcomes else [])
    && match o.ending
       case TurnEnded(stop) => stop == turn.stop && stop != S.Done
       case Committed => Passes(job, step, last)
       case StoppedBy(reason) => turn.stop == S.Done && StoppedFor(job, step, turn.outcomes, reason)
       case Replanned(_) => Returns(job, step, last) && o.turns == Budget(job)
  }

  /** The work takes the turns the gate sends back and one more, which says how it ends, and reports the checks of
      that one alone. */
  lemma {:induction false} WorkEnds(job: Job, step: P.Step, k: nat, logs: seq<string>)
    requires k < Budget(job)
    ensures var o := Work(job, step, k, logs);
            && o.number == step.number && EndsAs(job, step, o.turns - 1, o)
            && forall j :: k <= j < o.turns - 1 ==> Returns(job, step, j)
    decreases Budget(job) - k
  {
    hide Passes, Returns, Action, StoppedFor, Stopped;
    ActionSays(job, step, k);
    if job.turns(k).stop == S.Done && Action(job, step, k).Stop? {
      StopSays(job, step, k);
    }
    if job.turns(k).stop == S.Done && Action(job, step, k).Rework? && k + 1 < Budget(job) {
      WorkEnds(job, step, k + 1, logs + [Action(job, step, k).reason]);
    }
  }

  // ---------------------------------------------------------------------------
  // Whether the work starts

  const STALE := "unrelated uncommitted changes are present; commit or stash them first"

  /** Only uncommitted changes are looked at before the work starts. */
  lemma {:induction false} OnlyStaleAtStart(config: Config, dirty: bool, rules: seq<Rule>)
    requires rules != [] && rules[0] == NoStaleUncommitted
    requires forall i :: 1 <= i < |rules| ==> rules[i] != NoStaleUncommitted
    ensures var c := QUIET.(uncommittedUnrelated := dirty);
            Findings(config, SessionStart, c, rules)
            == if Says(config, SessionStart, c, NoStaleUncommitted).Allow? then []
               else [(Name(NoStaleUncommitted), Says(config, SessionStart, c, NoStaleUncommitted))]
  {
    hide Check, EffectiveSeverity, Name;
    if |rules| > 1 {
      OnlyStaleAtStart(config, dirty, rules[..|rules| - 1]);
    } else {
      assert rules[..0] == [];
    }
  }

  lemma {:induction false} StaleSays(config: Config, dirty: bool)
    ensures var v := Says(config, SessionStart, QUIET.(uncommittedUnrelated := dirty), NoStaleUncommitted);
            if dirty && Enforced(config, NoStaleUncommitted) then v == Block(STALE) else !v.Block?
    ensures Name(NoStaleUncommitted) == "no_stale_uncommitted"
  {
    hide EffectiveSeverity;
  }

  lemma {:induction false} StartSays(config: Config, dirty: bool)
    ensures FirstBlock(Evaluate(config, SessionStart, QUIET.(uncommittedUnrelated := dirty)))
         == if dirty && Enforced(config, NoStaleUncommitted) then Some(Told("no_stale_uncommitted", STALE)) else None
  {
    OnlyStaleAtStart(config, dirty, BASELINE);
    StaleSays(config, dirty);
    hide Says, Name, Enforced, Findings;
  }

  /** What becomes of a resume of a readable plan. */
  ghost predicate Starts(job: Job, doc: P.Doc, at: nat, result: Result<Outcome, Failure>) {
    && at < |doc.steps| && !doc.steps[at].done && (forall j :: 0 <= j < at ==> doc.steps[j].done)
    && var step := doc.steps[at];
       if job.dirty && Enforced(job.config, NoStaleUncommitted)
       then result == Ok(Outcome(step.number, StoppedBy(Told("no_stale_uncommitted", STALE)), 0, []))
       else
         || result == Ok(Work(job, step, 0, []))
         || (Work(job, step, 0, []).ending.Replanned? && result.Err? && result.error.BadDecisions?
             && job.decisions.Some? && D.Parse(job.decisions.value).Err?)
  }

  /** A resume of a readable plan works its first open step unless unrelated changes lie uncommitted under the
      enforced rule, which stops it before its first turn. It fails only without an open step, or when a replan
      meets a decision log that cannot be read. */
  lemma {:induction false} ResumeStarts(job: Job, doc: P.Doc)
    requires P.Parse(job.progress) == Ok(doc)
    ensures AfterResume(job).result == Err(NoStepsRemain) <==> forall i :: 0 <= i < |doc.steps| ==> doc.steps[i].done
    ensures AfterResume(job).result != Err(NoStepsRemain) ==>
              exists at: nat :: Starts(job, doc, at, AfterResume(job).result)
  {
    StartSays(job.config, job.dirty);
    hide Work, Evaluate, FirstBlock, P.Parse, P.Render, P.Ticked, Enforced, Told, D.Parse, D.Render;
    if NextOpen(doc.steps) < |doc.steps| {
      assert Starts(job, doc, NextOpen(doc.steps), AfterResume(job).result);
    }
  }
}
