/** When the gate lets a step through. */
module GateLaws {
  import opened Wrappers
  import opened Rules
  import opened Worker

  // ---------------------------------------------------------------------------
  // Reductions keep the most severe

  lemma {:induction false} WorstIsWorst(outcomes: seq<CheckOutcome>)
    ensures forall i :: 0 <= i < |outcomes| ==> Rank(OutcomeVerdict(outcomes[i])) <= Rank(Worst(outcomes))
    ensures Worst(outcomes).Allow? || exists i :: 0 <= i < |outcomes| && OutcomeVerdict(outcomes[i]) == Worst(outcomes)
  {
    hide OutcomeVerdict;
    if outcomes != [] {
      var init, n := outcomes[..|outcomes| - 1], |outcomes| - 1;
      WorstIsWorst(init);
      if Rank(OutcomeVerdict(outcomes[n])) > Rank(Worst(init)) {
        assert OutcomeVerdict(outcomes[n]) == Worst(outcomes);
      } else if !Worst(init).Allow? {
        var i :| 0 <= i < |init| && OutcomeVerdict(init[i]) == Worst(init);
        assert outcomes[i] == init[i];
      }
      assert forall i :: 0 <= i < n ==> outcomes[i] == init[i];
    }
  }

  lemma {:induction false} ReduceIsWorst(findings: seq<(string, Verdict)>, k: nat)
    requires k > 0
    ensures ActionRank(Reduce(findings)) >= k
       <==> exists f :: f in findings && ActionRank(ActionFor(f)) >= k
  {
    hide ActionRank, ActionFor;
    if findings == [] {
      NothingIsFine();
    } else {
      var init, last := findings[..|findings| - 1], findings[|findings| - 1];
      assert findings == init + [last];
      ReduceIsWorst(init, k);
    }
  }

  lemma {:induction false} NothingIsFine()
    ensures ActionRank(Proceed) == 0
  {
  }

  /** How severe the action is that a rule asks for. */
  function Asks(config: Config, t: Trigger, c: Context, r: Rule): nat {
    ActionRank(ActionFor((Name(r), Says(config, t, c, r))))
  }

  lemma {:induction false} FindingsAsk(config: Config, t: Trigger, c: Context, rules: seq<Rule>, k: nat)
    requires k > 0
    ensures (exists f :: f in Findings(config, t, c, rules) && ActionRank(ActionFor(f)) >= k)
       <==> exists r :: r in rules && Asks(config, t, c, r) >= k
  {
    hide Says, Name;
    if rules != [] {
      var init, last := rules[..|rules| - 1], rules[|rules| - 1];
      assert rules == init + [last];
      FindingsAsk(config, t, c, init, k);
      var finding := (Name(last), Says(config, t, c, last));
      hide ActionFor, ActionRank;
      AllowAsksNothing(Name(last));
      if f :| f in Findings(config, t, c, rules) && ActionRank(ActionFor(f)) >= k {
        assert f in Findings(config, t, c, init) || f == finding;
      }
      if Asks(config, t, c, last) >= k {
        assert finding in Findings(config, t, c, rules);
      }
      if f :| f in Findings(config, t, c, init) && ActionRank(ActionFor(f)) >= k {
        assert f in Findings(config, t, c, rules);
      }
    }
  }

  lemma {:induction false} AllowAsksNothing(name: string)
    ensures ActionRank(ActionFor((name, Allow))) == 0
  {
  }

  predicate IsGateTrigger(t: Trigger) {
    t.PostTest? || t.PreCommit? || t.StepComplete?
  }

  /** The gate's action is as severe as the most severe thing any rule asks for. */
  lemma {:induction false} GateIsWorst(config: Config, c: Context, k: nat)
    requires k > 0
    ensures ActionRank(DecideStep(config, c)) >= k
       <==> exists t, r :: IsGateTrigger(t) && r in BASELINE && Asks(config, t, c, r) >= k
  {
    hide Reduce, ActionFor, ActionRank, Findings, Asks;
    ReduceIsWorst(StepFindings(config, c), k);
    FindingsAsk(config, PostTest, c, BASELINE, k);
    FindingsAsk(config, PreCommit, c, BASELINE, k);
    FindingsAsk(config, StepComplete, c, BASELINE, k);
    var first, second, third := Evaluate(config, PostTest, c), Evaluate(config, PreCommit, c), Evaluate(config, StepComplete, c);
    assert forall f :: f in StepFindings(config, c) <==> f in first || f in second || f in third;
    assert IsGateTrigger(PostTest) && IsGateTrigger(PreCommit) && IsGateTrigger(StepComplete);
  }

  // ---------------------------------------------------------------------------
  // The gate, told without rules

  predicate Enforced(config: Config, r: Rule) {
    EffectiveSeverity(config, r) == Blocking
  }

  predicate Blocks(o: CheckOutcome) {
    o.status.Denied? || o.status.Errored? || (o.status.Failed? && o.severity == Some(Blocking))
  }

  predicate AsksForRework(o: CheckOutcome) {
    o.status.Failed? && o.severity.None?
  }

  predicate MustStop(config: Config, c: Context) {
    || (c.testsPassed == Some(false) && Enforced(config, SuiteGreen))
    || (c.progressReflectsCompletion == Some(false) && Enforced(config, ProgressUpdated))
    || (c.commitMessage.Some? && UncleanMessage(c.commitMessage.value, c.messageHasSecret) && Enforced(config, CommitMessageClean))
    || (0 < c.maxAttempts <= c.attempts && Enforced(config, AttemptLimit))
    || (Enforced(config, QualityGate) && exists o :: o in c.gateOutcomes && Blocks(o))
  }

  predicate MustRework(config: Config, c: Context) {
    Enforced(config, QualityGate) && exists o :: o in c.gateOutcomes && AsksForRework(o)
  }

  lemma {:induction false} VerdictSays(o: CheckOutcome)
    ensures OutcomeVerdict(o).Block? <==> Blocks(o)
    ensures OutcomeVerdict(o).Retry? <==> AsksForRework(o)
    ensures !OutcomeVerdict(o).Discard?
  {
  }

  lemma {:induction false} WorstSays(outcomes: seq<CheckOutcome>)
    ensures Worst(outcomes).Block? <==> exists o :: o in outcomes && Blocks(o)
    ensures Worst(outcomes).Retry? || Worst(outcomes).Block?
       <==> exists o :: o in outcomes && (Blocks(o) || AsksForRework(o))
    ensures !Worst(outcomes).Discard?
  {
    WorstIsWorst(outcomes);
    hide Worst, Blocks, AsksForRework, OutcomeVerdict;
    if !Worst(outcomes).Allow? {
      var i :| 0 <= i < |outcomes| && OutcomeVerdict(outcomes[i]) == Worst(outcomes);
      VerdictSays(outcomes[i]);
      assert outcomes[i] in outcomes;
    }
    forall o | o in outcomes ensures Rank(OutcomeVerdict(o)) <= Rank(Worst(outcomes)) {
      var i :| 0 <= i < |outcomes| && outcomes[i] == o;
    }
    forall o | o in outcomes
      ensures OutcomeVerdict(o).Block? <==> Blocks(o)
      ensures OutcomeVerdict(o).Retry? <==> AsksForRework(o)
    {
      VerdictSays(o);
    }
  }

  /** The first check that asks for rework. */
  function FirstRework(outcomes: seq<CheckOutcome>): Option<CheckOutcome> {
    if outcomes == [] then None
    else
      var before, last := FirstRework(outcomes[..|outcomes| - 1]), outcomes[|outcomes| - 1];
      if before.Some? then before else if AsksForRework(last) then Some(last) else None
  }

  /** Its name. */
  function Blamed(outcomes: seq<CheckOutcome>): string {
    if FirstRework(outcomes).None? then "" else FirstRework(outcomes).value.name
  }

  function ReworkMessage(name: string): string {
    "quality check `" + name + "` failed; fix the findings and retry"
  }

  lemma {:induction false} WorstRework(outcomes: seq<CheckOutcome>)
    ensures Rank(Worst(outcomes)) < 2 ==> FirstRework(outcomes).None?
    ensures Worst(outcomes).Retry? ==> FirstRework(outcomes).Some?
    ensures Worst(outcomes).Retry? ==> Worst(outcomes) == Retry(ReworkMessage(Blamed(outcomes)))
  {
    if outcomes != [] {
      WorstRework(outcomes[..|outcomes| - 1]);
      ReworkSays(outcomes[|outcomes| - 1]);
      hide OutcomeVerdict, ReworkMessage, AsksForRework;
    }
  }

  lemma {:induction false} ReworkSays(o: CheckOutcome)
    ensures AsksForRework(o) <==> OutcomeVerdict(o) == Retry(ReworkMessage(o.name))
    ensures OutcomeVerdict(o).Retry? ==> AsksForRework(o)
  {
  }

  lemma {:induction false} ReduceFinds(findings: seq<(string, Verdict)>)
    ensures Reduce(findings) == Proceed || exists f :: f in findings && ActionFor(f) == Reduce(findings)
  {
    hide ActionFor, ActionRank;
    if findings != [] {
      var init, last := findings[..|findings| - 1], findings[|findings| - 1];
      ReduceFinds(init);
      assert last in findings;
    }
  }

  lemma {:induction false} FindingsSay(config: Config, t: Trigger, c: Context, rules: seq<Rule>, f: (string, Verdict))
    requires f in Findings(config, t, c, rules)
    ensures exists r :: r in rules && f == (Name(r), Says(config, t, c, r))
  {
    hide Says, Name;
    var init, last := rules[..|rules| - 1], rules[|rules| - 1];
    assert last in rules;
    if f in Findings(config, t, c, init) {
      FindingsSay(config, t, c, init, f);
      var r :| r in init && f == (Name(r), Says(config, t, c, r));
      assert r in rules;
    }
  }

  lemma {:induction false} EvaluateSays(config: Config, t: Trigger, c: Context, f: (string, Verdict))
    requires f in Evaluate(config, t, c)
    ensures exists r :: f == (Name(r), Says(config, t, c, r))
  {
    FindingsSay(config, t, c, BASELINE, f);
  }

  lemma {:induction false} GateSays(c: Context, severity: Severity)
    ensures var v := Check(QualityGate, c, severity);
            !v.Discard? && (v.Retry? ==> v == Retry(ReworkMessage(Blamed(c.gateOutcomes))))
  {
    hide Worst, ReworkMessage, Blamed;
    WorstSays(c.gateOutcomes);
    WorstRework(c.gateOutcomes);
  }

  /** What a rule asks for where the gate consults it. */
  ghost function Level(config: Config, c: Context, r: Rule): nat {
    if !Enforced(config, r) then 0
    else match r
      case SuiteGreen => if c.testsPassed == Some(false) then 2 else 0
      case ProgressUpdated => if c.progressReflectsCompletion == Some(false) then 2 else 0
      case CommitMessageClean =>
        if c.commitMessage.Some? && UncleanMessage(c.commitMessage.value, c.messageHasSecret) then 2 else 0
      case AttemptLimit => if 0 < c.maxAttempts <= c.attempts then 2 else 0
      case QualityGate =>
        if exists o :: o in c.gateOutcomes && Blocks(o) then 2
        else if exists o :: o in c.gateOutcomes && AsksForRework(o) then 1
        else 0
      case _ => 0
  }

  lemma {:induction false} AtAsks(name: string, severity: Severity, reason: string)
    ensures ActionRank(ActionFor((name, At(severity, reason)))) == if severity == Blocking then 2 else 0
  {
  }

  lemma {:induction false} GateVerdictAsks(config: Config, c: Context)
    ensures ActionRank(ActionFor((Name(QualityGate), GateVerdict(c.gateOutcomes, EffectiveSeverity(config, QualityGate)))))
         == Level(config, c, QualityGate)
  {
    WorstSays(c.gateOutcomes);
    hide Worst, Blocks, AsksForRework, EffectiveSeverity, Name;
  }

  lemma {:induction false} RuleAsks(config: Config, t: Trigger, c: Context, r: Rule)
    requires IsGateTrigger(t)
    ensures Asks(config, t, c, r) == if AppliesTo(r, t) then Level(config, c, r) else 0
  {
    hide GateVerdict, EffectiveSeverity, UncleanMessage, Name, ActionFor, ActionRank, Blocks, AsksForRework, At;
    AllowAsksNothing(Name(r));
    match r
    case SuiteGreen => AtAsks(Name(r), EffectiveSeverity(config, r), "the configured test command did not pass");
    case ProgressUpdated => AtAsks(Name(r), EffectiveSeverity(config, r), "PROGRESS.md does not yet reflect the completed step");
    case CommitMessageClean =>
      AtAsks(Name(r), EffectiveSeverity(config, r), "the commit message contains a secret or a prohibited reference");
    case AttemptLimit => AtAsks(Name(r), EffectiveSeverity(config, r), "the per-step attempt limit was reached");
    case QualityGate => GateVerdictAsks(config, c);
    case _ =>
  }

  /** The gate stops a step exactly for the conditions of its enforced rules, sends it back exactly for a
      failing check without an override when nothing stops it, and commits it otherwise. */
  lemma {:induction false} GateDecides(config: Config, c: Context)
    ensures DecideStep(config, c).Stop? <==> MustStop(config, c)
    ensures DecideStep(config, c).Rework? <==> !MustStop(config, c) && MustRework(config, c)
  {
    GateIsWorst(config, c, 1);
    GateIsWorst(config, c, 2);
    SomeRuleAsks(config, c, 1);
    SomeRuleAsks(config, c, 2);
    hide DecideStep, Asks, Level;
    LevelsSay(config, c);
  }

  lemma {:induction false} OnlyGateAsksOne(config: Config, c: Context, r: Rule)
    requires Level(config, c, r) == 1
    ensures r.QualityGate?
  {
    hide UncleanMessage, EffectiveSeverity, Blocks, AsksForRework;
  }

  /** Only a check of the gate asks for rework. */
  lemma {:induction false} SaysRework(config: Config, t: Trigger, c: Context, r: Rule)
    requires IsGateTrigger(t) && ActionFor((Name(r), Says(config, t, c, r))).Rework?
    ensures ActionFor((Name(r), Says(config, t, c, r))) == Rework(ReworkMessage(Blamed(c.gateOutcomes)))
  {
    RuleAsks(config, t, c, r);
    hide Name, EffectiveSeverity, Check, Worst, ReworkMessage, Blamed, Level;
    OnlyGateAsksOne(config, c, r);
    GateSays(c, EffectiveSeverity(config, r));
  }

  /** A step that is sent back is told of the first check that failed without a severity of its own. */
  lemma {:induction false} ReworkReason(config: Config, c: Context)
    requires DecideStep(config, c).Rework?
    ensures DecideStep(config, c) == Rework(ReworkMessage(Blamed(c.gateOutcomes)))
  {
    hide Reduce, ActionFor, Findings, ReworkMessage, Blamed, Says, Name;
    ReduceFinds(StepFindings(config, c));
    var f :| f in StepFindings(config, c) && ActionFor(f) == DecideStep(config, c);
    var t :| IsGateTrigger(t) && f in Evaluate(config, t, c);
    EvaluateSays(config, t, c, f);
    var r :| f == (Name(r), Says(config, t, c, r));
    SaysRework(config, t, c, r);
  }

  lemma {:induction false} SomeRuleAsks(config: Config, c: Context, k: nat)
    requires k > 0
    ensures (exists t, r :: IsGateTrigger(t) && r in BASELINE && Asks(config, t, c, r) >= k)
       <==> exists r :: r in BASELINE && Level(config, c, r) >= k
  {
    hide Asks, Level;
    if t, r :| IsGateTrigger(t) && r in BASELINE && Asks(config, t, c, r) >= k {
      RuleAsks(config, t, c, r);
    }
    if r :| r in BASELINE && Level(config, c, r) >= k {
      LevelApplies(config, c, r);
      var t := if r.CommitMessageClean? then PreCommit else StepComplete;
      RuleAsks(config, t, c, r);
    }
  }

  lemma {:induction false} LevelApplies(config: Config, c: Context, r: Rule)
    requires Level(config, c, r) > 0
    ensures AppliesTo(r, if r.CommitMessageClean? then PreCommit else StepComplete)
  {
    hide UncleanMessage, EffectiveSeverity;
  }

  lemma {:induction false} LevelsSay(config: Config, c: Context)
    ensures (exists r :: r in BASELINE && Level(config, c, r) >= 2) <==> MustStop(config, c)
    ensures (exists r :: r in BASELINE && Level(config, c, r) >= 1) <==> MustStop(config, c) || MustRework(config, c)
  {
    hide UncleanMessage, EffectiveSeverity, Blocks, AsksForRework;
    assert SuiteGreen in BASELINE && ProgressUpdated in BASELINE && CommitMessageClean in BASELINE
      && AttemptLimit in BASELINE && QualityGate in BASELINE;
    if MustStop(config, c) {
      assert Level(config, c, SuiteGreen) == 2 || Level(config, c, ProgressUpdated) == 2
        || Level(config, c, CommitMessageClean) == 2 || Level(config, c, AttemptLimit) == 2 || Level(config, c, QualityGate) == 2;
    } else if MustRework(config, c) {
      assert Level(config, c, QualityGate) == 1;
    }
  }

  /** The order the checks ran in does not matter to what is decided. */
  lemma {:induction false} OutcomeOrderIsIrrelevant(config: Config, c: Context, reordered: seq<CheckOutcome>)
    requires multiset(reordered) == multiset(c.gateOutcomes)
    ensures ActionRank(DecideStep(config, c.(gateOutcomes := reordered))) == ActionRank(DecideStep(config, c))
  {
    GateDecides(config, c);
    GateDecides(config, c.(gateOutcomes := reordered));
    hide DecideStep, UncleanMessage, EffectiveSeverity, Blocks, AsksForRework;
    assert forall o :: o in reordered <==> o in multiset(reordered);
    assert forall o :: o in c.gateOutcomes <==> o in multiset(c.gateOutcomes);
  }
}
