/** The deterministic rules that gate a step, and their severities. */
module Rules {
  import opened Wrappers
  import opened Markup
  import T = Text

  datatype Trigger =
    | SessionStart | PreTool | PostTool | PreEdit | PostEdit | PreShell | PostShell
    | PreCommit | PostTest | StepComplete | PhaseComplete

  datatype Severity = Off | WarnOnly | Blocking

  datatype Verdict = Allow | Warn(message: string) | Retry(message: string) | Discard(message: string) | Block(message: string)

  datatype Status = Passed | Failed | Denied | Errored

  datatype CheckOutcome = CheckOutcome(name: string, status: Status, severity: Option<Severity>)

  /** What a rule may look at. `messageHasSecret` is the redactor's opinion of the commit message. */
  datatype Context = Context(
    uncommittedUnrelated: bool,
    pathInsideWorkspace: Option<bool>,
    pathSecretLike: bool,
    commitMessage: Option<string>,
    messageHasSecret: bool,
    testsPassed: Option<bool>,
    progressReflectsCompletion: Option<bool>,
    testFirstRequired: bool,
    editingImplBeforeTests: bool,
    attempts: nat,
    maxAttempts: nat,
    gateOutcomes: seq<CheckOutcome>)

  datatype Rule =
    | NoStaleUncommitted | WorkspaceBoundary | SecretFileGuard | TestFirst | SuiteGreen
    | ProgressUpdated | CommitMessageClean | AttemptLimit | QualityGate

  const BASELINE := [
    NoStaleUncommitted, WorkspaceBoundary, SecretFileGuard, TestFirst, SuiteGreen,
    ProgressUpdated, CommitMessageClean, AttemptLimit, QualityGate]

  function Name(r: Rule): string {
    match r
    case NoStaleUncommitted => "no_stale_uncommitted"
    case WorkspaceBoundary => "workspace_boundary"
    case SecretFileGuard => "secret_file_guard"
    case TestFirst => "test_first_when_configured"
    case SuiteGreen => "suite_green"
    case ProgressUpdated => "progress_updated"
    case CommitMessageClean => "commit_message_clean"
    case AttemptLimit => "attempt_limit"
    case QualityGate => "quality_gate"
  }

  predicate AppliesTo(r: Rule, t: Trigger) {
    match r
    case NoStaleUncommitted => t.SessionStart?
    case WorkspaceBoundary => t.PreTool? || t.PreEdit?
    case SecretFileGuard => t.PreTool? || t.PreEdit?
    case TestFirst => t.PreEdit?
    case SuiteGreen => t.PostTest? || t.StepComplete?
    case ProgressUpdated => t.PreCommit? || t.StepComplete?
    case CommitMessageClean => t.PreCommit?
    case AttemptLimit => t.StepComplete?
    case QualityGate => t.StepComplete? || t.PhaseComplete?
  }

  function DefaultSeverity(r: Rule): Severity {
    if r.SecretFileGuard? || r.TestFirst? then WarnOnly else Blocking
  }

  predicate Critical(r: Rule) {
    r.WorkspaceBoundary? || r.SecretFileGuard? || r.SuiteGreen? || r.CommitMessageClean? || r.QualityGate?
  }

  type Config = map<string, Severity>

  /** The configured severity, or the default; a critical rule turned off keeps its default. */
  function EffectiveSeverity(config: Config, r: Rule): Severity {
    var configured := if Name(r) in config then config[Name(r)] else DefaultSeverity(r);
    if Critical(r) && configured == Off then DefaultSeverity(r) else configured
  }

  function At(severity: Severity, reason: string): Verdict {
    match severity
    case Off => Allow
    case WarnOnly => Warn(reason)
    case Blocking => Block(reason)
  }

  // ---------------------------------------------------------------------------
  // The quality gate

  function OutcomeVerdict(o: CheckOutcome): Verdict {
    match o.status
    case Passed => Allow
    case Denied => Block("quality check `" + o.name + "` was denied by the permission engine")
    case Errored => Block("quality check `" + o.name + "` could not run")
    case Failed =>
      match o.severity
      case Some(Off) => Allow
      case Some(WarnOnly) => Warn("quality check `" + o.name + "` reported findings")
      case Some(Blocking) => Block("quality check `" + o.name + "` reported blocking findings")
      case None => Retry("quality check `" + o.name + "` failed; fix the findings and retry")
  }

  function Rank(v: Verdict): nat {
    match v
    case Allow => 0
    case Warn(_) => 1
    case Retry(_) => 2
    case Discard(_) => 3
    case Block(_) => 4
  }

  /** The first of the most severe verdicts. */
  function Worst(outcomes: seq<CheckOutcome>): Verdict {
    if outcomes == [] then Allow
    else
      var before, v := Worst(outcomes[..|outcomes| - 1]), OutcomeVerdict(outcomes[|outcomes| - 1]);
      if Rank(v) > Rank(before) then v else before
  }

  function ApplyCeiling(v: Verdict, severity: Severity): Verdict {
    match severity
    case Blocking => v
    case Off => Allow
    case WarnOnly => if v.Allow? then Allow else Warn(v.message)
  }

  function GateVerdict(outcomes: seq<CheckOutcome>, severity: Severity): Verdict {
    if severity == Off then Allow else ApplyCeiling(Worst(outcomes), severity)
  }

  method ReduceOutcomes(outcomes: seq<CheckOutcome>, severity: Severity) returns (v: Verdict)
    ensures v == GateVerdict(outcomes, severity)
  {
    if severity == Off {
      return Allow;
    }
    hide OutcomeVerdict;
    var worst := Allow;
    assert outcomes[..0] == [];
    for i := 0 to |outcomes|
      invariant worst == Worst(outcomes[..i])
    {
      assert outcomes[..i + 1][..i] == outcomes[..i];
      var verdict := OutcomeVerdict(outcomes[i]);
      if Rank(verdict) > Rank(worst) {
        worst := verdict;
      }
    }
    assert outcomes[..|outcomes|] == outcomes;
    v := ApplyCeiling(worst, severity);
  }

  // ---------------------------------------------------------------------------
  // The rules

  const PROHIBITED := ["leaked", "source-map", "private endpoint"]

  predicate UncleanMessage(message: string, hasSecret: bool) {
    hasSecret || exists i :: 0 <= i < |PROHIBITED| && Find(T.Lower(message), PROHIBITED[i]).Some?
  }

  function Check(r: Rule, c: Context, severity: Severity): Verdict {
    match r
    case NoStaleUncommitted =>
      if c.uncommittedUnrelated
      then At(severity, "unrelated uncommitted changes are present; commit or stash them first") else Allow
    case WorkspaceBoundary =>
      if c.pathInsideWorkspace == Some(false) then At(severity, "the target path is outside the workspace boundary") else Allow
    case SecretFileGuard =>
      if c.pathSecretLike then At(severity, "the target looks like a secret-bearing file") else Allow
    case TestFirst =>
      if c.testFirstRequired && c.editingImplBeforeTests
      then At(severity, "implementation is being edited before its test") else Allow
    case SuiteGreen =>
      if c.testsPassed == Some(false) then At(severity, "the configured test command did not pass") else Allow
    case ProgressUpdated =>
      if c.progressReflectsCompletion == Some(false)
      then At(severity, "PROGRESS.md does not yet reflect the completed step") else Allow
    case CommitMessageClean =>
      if c.commitMessage.Some? && UncleanMessage(c.commitMessage.value, c.messageHasSecret)
      then At(severity, "the commit message contains a secret or a prohibited reference") else Allow
    case AttemptLimit =>
      if c.maxAttempts > 0 && c.attempts >= c.maxAttempts
      then At(severity, "the per-step attempt limit was reached") else Allow
    case QualityGate => GateVerdict(c.gateOutcomes, severity)
  }

  /** What a rule says on a trigger, at its effective severity. */
  function Says(config: Config, t: Trigger, c: Context, r: Rule): Verdict {
    if AppliesTo(r, t) then Check(r, c, EffectiveSeverity(config, r)) else Allow
  }

  /** The verdicts of some rules that are not plain allowances. */
  function Findings(config: Config, t: Trigger, c: Context, rules: seq<Rule>): seq<(string, Verdict)> {
    if rules == [] then []
    else
      var r := rules[|rules| - 1];
      Findings(config, t, c, rules[..|rules| - 1])
      + if Says(config, t, c, r).Allow? then [] else [(Name(r), Says(config, t, c, r))]
  }

  function Evaluate(config: Config, t: Trigger, c: Context): seq<(string, Verdict)> {
    Findings(config, t, c, BASELINE)
  }

  method EvaluateRules(config: Config, t: Trigger, c: Context) returns (outcomes: seq<(string, Verdict)>)
    ensures outcomes == Evaluate(config, t, c)
  {
    hide Check, EffectiveSeverity;
    outcomes := [];
    var rules := BASELINE;
    assert rules[..0] == [];
    for i := 0 to |rules|
      invariant outcomes == Findings(config, t, c, rules[..i])
    {
      assert rules[..i + 1][..i] == rules[..i];
      var rule := rules[i];
      if AppliesTo(rule, t) {
        var severity := EffectiveSeverity(config, rule);
        var verdict := Check(rule, c, severity);
        if verdict != Allow {
          outcomes := outcomes + [(Name(rule), verdict)];
        }
      }
    }
    assert rules[..|rules|] == rules;
  }

  /** No configuration turns a critical rule off. */
  lemma {:induction false} CriticalStaysOn(config: Config, r: Rule)
    ensures EffectiveSeverity(config, r) == Off <==> Name(r) in config && config[Name(r)] == Off && !Critical(r)
  {
  }
}
