/** What an evaluation of the rules reports, on any trigger. */
module RuleLaws {
  import opened Wrappers
  import opened Rules
  import opened GateLaws
  import opened Markup
  import T = Text

  /** The rules a trigger consults. */
  function Consulted(t: Trigger): set<Rule> {
    match t
    case SessionStart => {NoStaleUncommitted}
    case PreTool => {WorkspaceBoundary, SecretFileGuard}
    case PreEdit => {WorkspaceBoundary, SecretFileGuard, TestFirst}
    case PostTest => {SuiteGreen}
    case PreCommit => {ProgressUpdated, CommitMessageClean}
    case StepComplete => {SuiteGreen, ProgressUpdated, AttemptLimit, QualityGate}
    case PhaseComplete => {QualityGate}
    case _ => {}
  }

  /** A check the gate has something to say about. */
  predicate Notable(o: CheckOutcome) {
    Blocks(o) || AsksForRework(o) || (o.status.Failed? && o.severity == Some(WarnOnly))
  }

  /** What a rule guards against has happened. */
  predicate Violated(c: Context, r: Rule) {
    match r
    case NoStaleUncommitted => c.uncommittedUnrelated
    case WorkspaceBoundary => c.pathInsideWorkspace == Some(false)
    case SecretFileGuard => c.pathSecretLike
    case TestFirst => c.testFirstRequired && c.editingImplBeforeTests
    case SuiteGreen => c.testsPassed == Some(false)
    case ProgressUpdated => c.progressReflectsCompletion == Some(false)
    case CommitMessageClean => c.commitMessage.Some? && UncleanMessage(c.commitMessage.value, c.messageHasSecret)
    case AttemptLimit => 0 < c.maxAttempts <= c.attempts
    case QualityGate => exists o :: o in c.gateOutcomes && Notable(o)
  }

  /** The rules among some that the trigger consults, that are violated and that are not off, in order. */
  function Reported(config: Config, t: Trigger, c: Context, rules: seq<Rule>): seq<Rule> {
    if rules == [] then []
    else
      var last := rules[|rules| - 1];
      Reported(config, t, c, rules[..|rules| - 1])
      + if last in Consulted(t) && Violated(c, last) && EffectiveSeverity(config, last) != Off then [last] else []
  }

  /** A finding about a rule: a warning if the rule only warns; if it is enforced, a block, or whatever the most severe
      of its checks comes to. */
  predicate Reports(config: Config, c: Context, r: Rule, finding: (string, Verdict)) {
    && finding.0 == Name(r)
    && (EffectiveSeverity(config, r) == WarnOnly ==> finding.1.Warn?)
    && (EffectiveSeverity(config, r) == Blocking && !r.QualityGate? ==> finding.1.Block?)
    && (EffectiveSeverity(config, r) == Blocking && r.QualityGate? ==> finding.1 == Worst(c.gateOutcomes))
  }

  lemma {:induction false} OutcomeIsNotable(o: CheckOutcome)
    ensures OutcomeVerdict(o).Allow? <==> !Notable(o)
  {
  }

  lemma {:induction false} WorstIsNotable(outcomes: seq<CheckOutcome>)
    ensures Worst(outcomes).Allow? <==> forall o :: o in outcomes ==> !Notable(o)
  {
    hide OutcomeVerdict, Notable;
    if outcomes != [] {
      var init, last := outcomes[..|outcomes| - 1], outcomes[|outcomes| - 1];
      assert outcomes == init + [last];
      WorstIsNotable(init);
      OutcomeIsNotable(last);
    }
  }

  lemma {:induction false} GateReports(outcomes: seq<CheckOutcome>, severity: Severity)
    ensures GateVerdict(outcomes, severity).Allow? <==> severity == Off || forall o :: o in outcomes ==> !Notable(o)
    ensures severity == WarnOnly && !GateVerdict(outcomes, severity).Allow? ==> GateVerdict(outcomes, severity).Warn?
    ensures severity == Blocking ==> GateVerdict(outcomes, severity) == Worst(outcomes)
  {
    WorstIsNotable(outcomes);
    hide Worst, Notable;
  }

  lemma {:induction false} AtSays(severity: Severity, reason: string)
    ensures At(severity, reason).Allow? <==> severity == Off
    ensures severity == WarnOnly ==> At(severity, reason).Warn?
    ensures severity == Blocking ==> At(severity, reason).Block?
  {
  }

  /** What a rule but the gate says when it is violated. */
  function Grievance(r: Rule): string {
    match r
    case NoStaleUncommitted => "unrelated uncommitted changes are present; commit or stash them first"
    case WorkspaceBoundary => "the target path is outside the workspace boundary"
    case SecretFileGuard => "the target looks like a secret-bearing file"
    case TestFirst => "implementation is being edited before its test"
    case SuiteGreen => "the configured test command did not pass"
    case ProgressUpdated => "PROGRESS.md does not yet reflect the completed step"
    case CommitMessageClean => "the commit message contains a secret or a prohibited reference"
    case AttemptLimit => "the per-step attempt limit was reached"
    case QualityGate => ""
  }

  lemma {:induction false} EditCheckIs(r: Rule, c: Context, severity: Severity)
    requires r.NoStaleUncommitted? || r.WorkspaceBoundary? || r.SecretFileGuard? || r.TestFirst?
    ensures Check(r, c, severity) == if Violated(c, r) then At(severity, Grievance(r)) else Allow
  {
    hide At, UncleanMessage, Notable;
  }

  lemma {:induction false} StepCheckIs(r: Rule, c: Context, severity: Severity)
    requires r.SuiteGreen? || r.ProgressUpdated? || r.CommitMessageClean? || r.AttemptLimit?
    ensures Check(r, c, severity) == if Violated(c, r) then At(severity, Grievance(r)) else Allow
  {
    hide At, UncleanMessage, Notable;
  }

  lemma {:induction false} GateCheckIs(c: Context, severity: Severity)
    ensures var v := Check(QualityGate, c, severity);
            && (v.Allow? <==> severity == Off || !Violated(c, QualityGate))
            && (severity == WarnOnly && !v.Allow? ==> v.Warn?)
            && (severity == Blocking ==> v == Worst(c.gateOutcomes))
  {
    hide GateVerdict, Worst, Notable;
    GateReports(c.gateOutcomes, severity);
  }

  lemma {:induction false} CheckReports(config: Config, c: Context, r: Rule)
    ensures var v := Check(r, c, EffectiveSeverity(config, r));
            && (v.Allow? <==> !(Violated(c, r) && EffectiveSeverity(config, r) != Off))
            && (!v.Allow? ==> Reports(config, c, r, (Name(r), v)))
  {
    hide Check, At, Violated, Grievance, EffectiveSeverity, Name, Worst;
    var severity := EffectiveSeverity(config, r);
    if r.QualityGate? {
      GateCheckIs(c, severity);
    } else {
      if r.NoStaleUncommitted? || r.WorkspaceBoundary? || r.SecretFileGuard? || r.TestFirst? {
        EditCheckIs(r, c, severity);
      } else {
        StepCheckIs(r, c, severity);
      }
      AtSays(severity, Grievance(r));
    }
  }

  lemma {:induction false} ConsultedAre(t: Trigger, r: Rule)
    ensures AppliesTo(r, t) <==> r in Consulted(t)
  {
  }

  lemma {:induction false} FindingsReport(config: Config, t: Trigger, c: Context, rules: seq<Rule>)
    ensures var fs, rs := Findings(config, t, c, rules), Reported(config, t, c, rules);
            |fs| == |rs| && forall i :: 0 <= i < |fs| ==> Reports(config, c, rs[i], fs[i])
  {
    hide Check, EffectiveSeverity, Violated, Reports, AppliesTo, Consulted, Name;
    if rules != [] {
      var init, last := rules[..|rules| - 1], rules[|rules| - 1];
      FindingsReport(config, t, c, init);
      CheckReports(config, c, last);
      ConsultedAre(t, last);
    }
  }

  /** On every trigger: the rules reported are those it consults that are violated and not off, in their own order; a rule
      that only warns warns, and an enforced one blocks, but for the quality gate, which says what its worst check says. */
  lemma {:induction false} EvaluationReports(config: Config, t: Trigger, c: Context)
    ensures var found, rules := Evaluate(config, t, c), Reported(config, t, c, BASELINE);
            |found| == |rules| && forall i :: 0 <= i < |found| ==> Reports(config, c, rules[i], found[i])
  {
    hide Reports, Reported, Findings;
    FindingsReport(config, t, c, BASELINE);
  }

  // ---------------------------------------------------------------------------
  // Commit messages

  /** The same letter, or its capital. */
  predicate IsLetter(c: char, small: char) {
    c == small || ('a' <= small <= 'z' && c as int == small as int - 32)
  }

  /** The message holds the term somewhere, in letters of any case. */
  predicate HoldsAt(message: string, term: string, k: nat) {
    k + |term| <= |message| && forall j :: 0 <= j < |term| ==> IsLetter(message[k + j], term[j])
  }

  ghost predicate Holds(message: string, term: string) {
    exists k: nat :: HoldsAt(message, term, k)
  }

  predicate IsSmall(term: string) {
    forall j :: 0 <= j < |term| ==> !('A' <= term[j] <= 'Z')
  }

  lemma {:induction false} FindShifts(message: string, term: string, k: nat)
    requires message != ""
    ensures HoldsAt(message, term, k + 1) <==> HoldsAt(message[1..], term, k)
  {
    if HoldsAt(message[1..], term, k) {
      forall j | 0 <= j < |term| ensures IsLetter(message[k + 1 + j], term[j]) {
        assert message[1..][k + j] == message[k + 1 + j];
      }
    }
    if HoldsAt(message, term, k + 1) {
      forall j | 0 <= j < |term| ensures IsLetter(message[1..][k + j], term[j]) {
        assert message[1..][k + j] == message[k + 1 + j];
      }
    }
  }

  lemma {:induction false} FindStart(message: string, term: string)
    requires IsSmall(term)
    ensures HoldsAt(message, term, 0) <==> term <= T.Lower(message)
  {
    var small := T.Lower(message);
    if |term| <= |message| {
      forall j | 0 <= j < |term| ensures IsLetter(message[0 + j], term[j]) <==> small[j] == term[j] {
      }
      if HoldsAt(message, term, 0) {
        assert small[..|term|] == term;
      }
      if term <= small {
        assert forall j :: 0 <= j < |term| ==> small[j] == term[j];
      }
    }
  }

  lemma {:induction false} FindSays(message: string, term: string)
    requires IsSmall(term) && term != ""
    ensures Find(T.Lower(message), term).Some? <==> Holds(message, term)
    decreases |message|
  {
    var small := T.Lower(message);
    FindStart(message, term);
    if message != "" {
      var rest := message[1..];
      assert small[1..] == T.Lower(rest);
      FindSays(rest, term);
      hide HoldsAt, IsSmall, T.Lower;
      if Holds(rest, term) {
        var k: nat :| HoldsAt(rest, term, k);
        FindShifts(message, term, k);
      }
      if Holds(message, term) {
        var k: nat :| HoldsAt(message, term, k);
        if k > 0 {
          FindShifts(message, term, k - 1);
        }
      }
      if |message| < |term| {
        TooShort(message, term);
      }
    }
  }

  lemma {:induction false} TooShort(message: string, term: string)
    requires |message| < |term|
    ensures !Holds(message, term)
  {
  }

  /** A commit message is unclean exactly when it holds a secret or one of three terms, in letters of any case. */
  lemma {:induction false} UncleanSays(message: string, hasSecret: bool)
    ensures UncleanMessage(message, hasSecret)
       <==> hasSecret || Holds(message, "leaked") || Holds(message, "source-map") || Holds(message, "private endpoint")
  {
    hide Find, Holds, T.Lower;
    FindSays(message, "leaked");
    FindSays(message, "source-map");
    FindSays(message, "private endpoint");
    assert PROHIBITED[0] == "leaked" && PROHIBITED[1] == "source-map" && PROHIBITED[2] == "private endpoint";
  }
}
