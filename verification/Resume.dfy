/** Working one plan step: turns, the gate, the retry budget, and the documents that record the result. */
module Resume {
  import opened Wrappers
  import opened Rules
  import opened Worker
  import P = ProgressFile
  import D = DecisionsFile
  import S = Session
  import Markup
  import T = Text

  const MAX_REPLANS := 1

  /** How a turn ended, and what the checks run after it found. */
  datatype Turn = Turn(stop: S.StopReason, outcomes: seq<CheckOutcome>)

  /** Everything a resume depends on: the documents, the configuration, and what the world does. `turns`
      gives the result of each turn, `hash` the commit made for the step, if it changed anything. */
  datatype Job = Job(
    config: Config,
    progress: string,
    decisions: Option<string>,
    dirty: bool,
    maxAttempts: nat,
    messageHasSecret: bool,
    turns: nat -> Turn,
    hash: Option<string>,
    today: string)

  datatype Ending =
    | Committed
    | Replanned(logs: seq<string>)
    | StoppedBy(reason: string)
    | TurnEnded(stop: S.StopReason)

  datatype Outcome = Outcome(number: nat, ending: Ending, turns: nat, gate: seq<CheckOutcome>)

  datatype Failure = BadProgress(plan: P.Malformed) | NoStepsRemain | BadDecisions(log: D.Malformed)

  /** What a resume returns and leaves in the documents. */
  datatype Aftermath = Aftermath(result: Result<Outcome, Failure>, progress: string, decisions: Option<string>)

  const QUIET := Context(false, None, false, None, false, None, None, false, false, 0, 0, [])

  function TestsPassed(outcomes: seq<CheckOutcome>): Option<bool> {
    if outcomes == [] then None
    else if outcomes[0].name == "test" then Some(outcomes[0].status.Passed?)
    else TestsPassed(outcomes[1..])
  }

  function CommitMessage(step: P.Step): string {
    "harness: " + step.description
  }

  /** What the gate sees. The attempt count it is given is always one. */
  function GateContext(job: Job, step: P.Step, outcomes: seq<CheckOutcome>): Context {
    QUIET.(
      testsPassed := TestsPassed(outcomes),
      progressReflectsCompletion := Some(true),
      commitMessage := Some(CommitMessage(step)),
      messageHasSecret := job.messageHasSecret,
      attempts := 1,
      maxAttempts := job.maxAttempts,
      gateOutcomes := outcomes)
  }

  function Action(job: Job, step: P.Step, k: nat): StepAction {
    DecideStep(job.config, GateContext(job, step, job.turns(k).outcomes))
  }

  function Budget(job: Job): nat {
    PerRound(job.maxAttempts)
  }

  /** How the work ends from turn `k` on, with the reasons fed back so far. */
  function Work(job: Job, step: P.Step, k: nat, logs: seq<string>): (o: Outcome)
    requires k < Budget(job)
    ensures k < o.turns <= Budget(job)
    decreases Budget(job) - k
  {
    var turn := job.turns(k);
    if turn.stop != S.Done then Outcome(step.number, TurnEnded(turn.stop), k + 1, [])
    else
      match Action(job, step, k)
      case Proceed => Outcome(step.number, Committed, k + 1, turn.outcomes)
      case Stop(reason) => Outcome(step.number, StoppedBy(reason), k + 1, turn.outcomes)
      case Rework(reason) =>
        if k + 1 == Budget(job) then Outcome(step.number, Replanned(logs + [reason]), k + 1, turn.outcomes)
        else Work(job, step, k + 1, logs + [reason])
  }

  /** The first reason to block among some findings. */
  function FirstBlock(findings: seq<(string, Verdict)>): Option<string> {
    if findings == [] then None
    else if findings[0].1.Block? then Some(findings[0].0 + ": " + findings[0].1.message)
    else FirstBlock(findings[1..])
  }

  /** Position of the first open step, or the length. */
  function NextOpen(steps: seq<P.Step>): (i: nat)
    ensures i <= |steps| && forall j :: 0 <= j < i ==> steps[j].done
    ensures i < |steps| ==> !steps[i].done
  {
    if steps == [] then 0
    else
      var i := NextOpen(steps[..|steps| - 1]);
      if i == |steps| - 1 && steps[i].done then |steps| else i
  }

  const QUEUED := "the automated attempt budget was exhausted; the step is queued for replanning"

  function ReplanEntry(today: string, number: nat, logs: seq<string>): D.Decision {
    var refs := "step " + Markup.Decimal(number);
    D.Decision("", today, "Replan " + refs, QUEUED,
               if logs == [] then "the per-step attempt budget was exhausted"
               else "attempts failed: " + T.Join(logs, "; "),
               refs)
  }

  /** The decision log with a replan recorded, started when there is none yet. */
  function RecordReplan(job: Job, name: string, number: nat, logs: seq<string>): Result<string, D.Malformed> {
    var read := if job.decisions.Some? then D.Parse(job.decisions.value) else Ok(D.Log(name, []));
    if read.Err? then Err(read.error)
    else Ok(D.Render(read.value.(entries := D.Appended(read.value.entries, ReplanEntry(job.today, number, logs)))))
  }

  function AfterResume(job: Job): Aftermath {
    var read := P.Parse(job.progress);
    if read.Err? then Aftermath(Err(BadProgress(read.error)), job.progress, job.decisions)
    else if NextOpen(read.value.steps) == |read.value.steps| then
      Aftermath(Err(NoStepsRemain), job.progress, job.decisions)
    else
      var doc, step := read.value, read.value.steps[NextOpen(read.value.steps)];
      var start := FirstBlock(Evaluate(job.config, SessionStart, QUIET.(uncommittedUnrelated := job.dirty)));
      if start.Some? then
        Aftermath(Ok(Outcome(step.number, StoppedBy(start.value), 0, [])), job.progress, job.decisions)
      else
        var outcome := Work(job, step, 0, []);
        match outcome.ending
        case Committed =>
          Aftermath(Ok(outcome), P.Render(doc.(steps := P.Ticked(doc.steps, step.number, job.hash, 1))), job.decisions)
        case Replanned(logs) =>
          var recorded := RecordReplan(job, doc.name, step.number, logs);
          if recorded.Err? then Aftermath(Err(BadDecisions(recorded.error)), job.progress, job.decisions)
          else Aftermath(Ok(outcome), job.progress, Some(recorded.value))
        case _ => Aftermath(Ok(outcome), job.progress, job.decisions)
  }

  // ---------------------------------------------------------------------------
  // The loop

  /** Works the step turn by turn until it commits, stops or spends its budget. */
  method WorkStep(job: Job, step: P.Step) returns (outcome: Outcome, recordedAttempts: nat)
    ensures outcome == Work(job, step, 0, [])
    ensures outcome.ending.Committed? ==> recordedAttempts == 1
  {
    hide DecideStep, GateContext;
    var stepLoop := new StepLoop(if job.maxAttempts < 1 then 1 else job.maxAttempts, MAX_REPLANS);
    var k := 0;
    recordedAttempts := 1;
    while true
      invariant k < Budget(job) && fresh(stepLoop)
      invariant stepLoop.maxAttempts == Budget(job) && stepLoop.maxReplans == MAX_REPLANS
      invariant stepLoop.attempts == k && stepLoop.replans == 0
      invariant Work(job, step, 0, []) == Work(job, step, k, stepLoop.attemptLogs)
      decreases Budget(job) - k
    {
      var turn := job.turns(k);
      if turn.stop != S.Done {
        return Outcome(step.number, TurnEnded(turn.stop), k + 1, []), recordedAttempts;
      }
      var action := DecideStepByRules(job.config, GateContext(job, step, turn.outcomes));
      assert action == Action(job, step, k);
      match action
      case Proceed =>
        recordedAttempts := stepLoop.replans + 1;
        return Outcome(step.number, Committed, k + 1, turn.outcomes), recordedAttempts;
      case Stop(reason) =>
        return Outcome(step.number, StoppedBy(reason), k + 1, turn.outcomes), recordedAttempts;
      case Rework(reason) =>
        var decision := stepLoop.Record(RetryWith(reason));
        match decision
        case RetrySameContext(feedback) =>
          k := k + 1;
        case Replan(logs) =>
          return Outcome(step.number, Replanned(logs), k + 1, turn.outcomes), recordedAttempts;
        case DiscardAndReset(feedback) =>
          assert false;
        case GiveUp =>
          assert false;
        case Commit =>
          assert false;
    }
  }

  /** Appends a replan to the decision log, started when there is none yet. */
  method WriteReplan(job: Job, name: string, number: nat, logs: seq<string>) returns (r: Result<string, D.Malformed>)
    ensures r == RecordReplan(job, name, number, logs)
  {
    hide D.Parse, D.Render, D.NextId;
    var log := new D.DecisionLog(D.Log(name, []));
    if job.decisions.Some? {
      var parsed := D.ParseText(job.decisions.value);
      if parsed.Err? {
        return Err(parsed.error);
      }
      log := new D.DecisionLog(parsed.value);
    }
    var e := ReplanEntry(job.today, number, logs);
    var id := log.Append(e.date, e.title, e.decision, e.rationale, e.refs);
    var text := D.RenderText(log.Contents());
    r := Ok(text);
  }

  /** Resumes the next open step of a plan. */
  method ResumeOneStep(job: Job) returns (r: Aftermath)
    ensures r == AfterResume(job)
  {
    hide P.Parse, P.Render, RecordReplan, Evaluate, Work, FirstBlock, P.Ticked;
    var read := P.ParseText(job.progress);
    if read.Err? {
      return Aftermath(Err(BadProgress(read.error)), job.progress, job.decisions);
    }
    var plan := new P.Plan(read.value);
    var at := NextOpen(plan.steps);
    if at == |plan.steps| {
      return Aftermath(Err(NoStepsRemain), job.progress, job.decisions);
    }
    var step := plan.steps[at];
    var findings := EvaluateRules(job.config, SessionStart, QUIET.(uncommittedUnrelated := job.dirty));
    var start := FirstBlock(findings);
    if start.Some? {
      return Aftermath(Ok(Outcome(step.number, StoppedBy(start.value), 0, [])), job.progress, job.decisions);
    }
    var outcome, attempts := WorkStep(job, step);
    match outcome.ending
    case Committed =>
      var found := plan.MarkComplete(step.number, job.hash, attempts);
      var text := P.RenderText(plan.Contents());
      r := Aftermath(Ok(outcome), text, job.decisions);
    case Replanned(logs) =>
      var recorded := WriteReplan(job, plan.name, step.number, logs);
      if recorded.Err? {
        return Aftermath(Err(BadDecisions(recorded.error)), job.progress, job.decisions);
      }
      r := Aftermath(Ok(outcome), job.progress, Some(recorded.value));
    case StoppedBy(_) => r := Aftermath(Ok(outcome), job.progress, job.decisions);
    case TurnEnded(_) => r := Aftermath(Ok(outcome), job.progress, job.decisions);
  }
}
