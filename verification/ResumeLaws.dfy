/** What a resume can and cannot do. */
module ResumeLaws {
  import opened Wrappers
  import opened Numbers
  import opened Rules
  import opened Worker
  import opened GateLaws
  import opened Resume
  import opened Markup
  import P = ProgressFile
  import PL = ProgressLaws
  import D = DecisionsFile
  import DL = DecisionsLaws
  import S = Session
  import T = Text

  // ---------------------------------------------------------------------------
  // What a turn comes to, told from its checks

  /** The first check named "test" did not pass. */
  ghost predicate TestFailed(outcomes: seq<CheckOutcome>) {
    exists i :: 0 <= i < |outcomes| && IsFirstTest(outcomes, i) && outcomes[i].status != Passed
  }

  predicate IsFirstTest(outcomes: seq<CheckOutcome>, i: nat)
    requires i < |outcomes|
  {
    outcomes[i].name == "test" && forall j :: 0 <= j < i ==> outcomes[j].name != "test"
  }

  /** The message of the commit is unclean under an enforced rule. */
  predicate Unclean(job: Job, step: P.Step) {
    UncleanMessage("harness: " + step.description, job.messageHasSecret) && Enforced(job.config, CommitMessageClean)
  }

  /** The cap is one attempt under an enforced limit: the gate is told of one attempt every time. */
  predicate Capped(job: Job) {
    job.maxAttempts == 1 && Enforced(job.config, AttemptLimit)
  }

  /** Something stops the step for good. */
  ghost predicate Stopped(job: Job, step: P.Step, outcomes: seq<CheckOutcome>) {
    || (TestFailed(outcomes) && Enforced(job.config, SuiteGreen))
    || Unclean(job, step)
    || Capped(job)
    || (Enforced(job.config, QualityGate) && exists o :: o in outcomes && Blocks(o))
  }

  /** Some check asks for rework. */
  ghost predicate NeedsRework(job: Job, outcomes: seq<CheckOutcome>) {
    Enforced(job.config, QualityGate) && exists o :: o in outcomes && AsksForRework(o)
  }

  /** The gate lets the step through after turn `k`. */
  ghost predicate Passes(job: Job, step: P.Step, k: nat) {
    var turn := job.turns(k);
    turn.stop == S.Done && !Stopped(job, step, turn.outcomes) && !NeedsRework(job, turn.outcomes)
  }

  /** The gate sends the step back after turn `k`. */
  ghost predicate Returns(job: Job, step: P.Step, k: nat) {
    var turn := job.turns(k);
    turn.stop == S.Done && !Stopped(job, step, turn.outcomes) && NeedsRework(job, turn.outcomes)
  }

  lemma {:induction false} TestsPassedSays(outcomes: seq<CheckOutcome>)
    ensures TestsPassed(outcomes) == Some(false) <==> TestFailed(outcomes)
  {
    if outcomes != [] {
      var rest := outcomes[1..];
      TestsPassedSays(rest);
      if outcomes[0].name == "test" {
        assert outcomes[0].status != Passed ==> IsFirstTest(outcomes, 0);
      } else {
        if TestFailed(rest) {
          var i :| 0 <= i < |rest| && IsFirstTest(rest, i) && rest[i].status != Passed;
          assert IsFirstTest(outcomes, i + 1);
        }
        if TestFailed(outcomes) {
          var i :| 0 <= i < |outcomes| && IsFirstTest(outcomes, i) && outcomes[i].status != Passed;
          assert IsFirstTest(rest, i - 1);
        }
      }
    }
  }

  lemma {:induction false} ContextStops(job: Job, step: P.Step, outcomes: seq<CheckOutcome>)
    ensures MustStop(job.config, GateContext(job, step, outcomes)) <==> Stopped(job, step, outcomes)
    ensures MustRework(job.config, GateContext(job, step, outcomes)) <==> NeedsRework(job, outcomes)
  {
    hide UncleanMessage, EffectiveSeverity, TestsPassed, TestFailed, Blocks, AsksForRework;
    TestsPassedSays(outcomes);
  }

  /** What the gate decides after a turn: committed, sent back or stopped, told from the checks of the turn, the
      rules that are enforced, the step's description and the cap alone. */
  lemma {:induction false} ActionSays(job: Job, step: P.Step, k: nat)
    ensures job.turns(k).stop == S.Done ==>
              && (Action(job, step, k).Proceed? <==> Passes(job, step, k))
              && (Action(job, step, k).Rework? <==> Returns(job, step, k))
              && (Action(job, step, k).Stop? <==> Stopped(job, step, job.turns(k).outcomes))
  {
    GateDecides(job.config, GateContext(job, step, job.turns(k).outcomes));
    ContextStops(job, step, job.turns(k).outcomes);
    hide DecideStep, MustStop, MustRework, GateContext, Stopped, NeedsRework;
  }

  /** With `suite_green` enforced no step is committed at a turn whose first check named "test" did not pass. */
  lemma {:induction false} TestsMustPass(job: Job, step: P.Step)
    requires Enforced(job.config, SuiteGreen) && Work(job, step, 0, []).ending.Committed?
    ensures !TestFailed(job.turns(Work(job, step, 0, []).turns - 1).outcomes)
  {
    hide Work, TestFailed;
    CommitsExactlyWhen(job, step, 0, []);
  }

  /** A turn whose checks all passed commits the step exactly unless its message is unclean under an enforced
      rule or the cap is one attempt under an enforced limit. */
  lemma {:induction false} AllPassedCommits(job: Job, step: P.Step, k: nat)
    requires job.turns(k).stop == S.Done && forall o :: o in job.turns(k).outcomes ==> o.status == Passed
    ensures Passes(job, step, k) <==> !Unclean(job, step) && !Capped(job)
  {
    var outcomes := job.turns(k).outcomes;
    forall o | o in outcomes ensures !Blocks(o) && !AsksForRework(o) {
    }
    forall i | 0 <= i < |outcomes| ensures outcomes[i].status == Passed {
      assert outcomes[i] in outcomes;
    }
    assert !TestFailed(outcomes);
    hide UncleanMessage, EffectiveSeverity, TestFailed, Blocks, AsksForRework;
  }

  /** The step is committed exactly when some turn within the budget passes the gate and the gate had sent
      back every turn before it; no verdict asks for a retry, a discard or a block at the turn that commits. */
  lemma {:induction false} CommitsExactlyWhen(job: Job, step: P.Step, k: nat, logs: seq<string>)
    requires k < Budget(job)
    ensures Work(job, step, k, logs).ending.Committed?
       <==> exists n :: k <= n < Budget(job) && Passes(job, step, n) && forall j :: k <= j < n ==> Returns(job, step, j)
    ensures Work(job, step, k, logs).ending.Committed? ==> Passes(job, step, Work(job, step, k, logs).turns - 1)
    decreases Budget(job) - k
  {
    hide Passes, Returns, Action;
    ActionSays(job, step, k);
    PassesNotReturns(job, step, k);
    if job.turns(k).stop == S.Done && Action(job, step, k).Rework? && k + 1 < Budget(job) {
      var more := logs + [Action(job, step, k).reason];
      CommitsExactlyWhen(job, step, k + 1, more);
      assert Work(job, step, k, logs) == Work(job, step, k + 1, more);
      hide Work;
      if n :| k + 1 <= n < Budget(job) && Passes(job, step, n) && forall j :: k + 1 <= j < n ==> Returns(job, step, j) {
        assert forall j :: k <= j < n ==> Returns(job, step, j);
      }
      if n :| k <= n < Budget(job) && Passes(job, step, n) && forall j :: k <= j < n ==> Returns(job, step, j) {
        assert n != k;
      }
    } else {
      assert Work(job, step, k, logs).ending.Committed? <==> Passes(job, step, k);
      assert Work(job, step, k, logs).turns == k + 1;
      assert !Returns(job, step, k) || k + 1 == Budget(job);
    }
  }

  lemma {:induction false} PassesNotReturns(job: Job, step: P.Step, k: nat)
    ensures Passes(job, step, k) ==> !Returns(job, step, k) && job.turns(k).stop == S.Done
    ensures Returns(job, step, k) ==> job.turns(k).stop == S.Done
  {
  }

  /** What the turns `k` to `n` are sent back with. */
  function ReasonsOf(job: Job, k: nat, n: nat): (r: seq<string>)
    requires k <= n
    ensures |r| == n - k && forall i :: 0 <= i < |r| ==> r[i] == ReworkMessage(Blamed(job.turns(k + i).outcomes))
  {
    seq(n - k, i requires 0 <= i < n - k => ReworkMessage(Blamed(job.turns(k + i).outcomes)))
  }

  /** A replan is recorded exactly when the gate sends back every turn of the budget; it carries one reason a
      turn, and each names the first check of its turn that asked for rework. */
  lemma {:induction false} ReplansExactlyWhen(job: Job, step: P.Step, k: nat, logs: seq<string>)
    requires k < Budget(job)
    ensures Work(job, step, k, logs).ending.Replanned?
       <==> forall j :: k <= j < Budget(job) ==> Returns(job, step, j)
    ensures Work(job, step, k, logs).ending.Replanned? ==>
              Work(job, step, k, logs).ending.logs == logs + ReasonsOf(job, k, Budget(job))
    decreases Budget(job) - k
  {
    hide Returns, Passes, Action, ReworkMessage, Blamed;
    ActionSays(job, step, k);
    PassesNotReturns(job, step, k);
    if job.turns(k).stop == S.Done && Action(job, step, k).Rework? {
      ActionBlames(job, step, k);
      var reason := Action(job, step, k).reason;
      assert ReasonsOf(job, k, Budget(job)) == [reason] + ReasonsOf(job, k + 1, Budget(job));
      if k + 1 < Budget(job) {
        ReplansExactlyWhen(job, step, k + 1, logs + [reason]);
        assert logs + ReasonsOf(job, k, Budget(job)) == logs + [reason] + ReasonsOf(job, k + 1, Budget(job));
      }
    }
  }

  lemma {:induction false} ActionBlames(job: Job, step: P.Step, k: nat)
    requires Action(job, step, k).Rework?
    ensures Action(job, step, k).reason == ReworkMessage(Blamed(job.turns(k).outcomes))
  {
    hide DecideStep, ReworkMessage, Blamed;
    ReworkReason(job.config, GateContext(job, step, job.turns(k).outcomes));
  }

  // ---------------------------------------------------------------------------
  // Which steps can ever be committed

  /** What keeps a step from being committed whatever its turns do. */
  predicate Hopeless(job: Job, step: P.Step) {
    Capped(job) || Unclean(job, step)
  }

  /** A step can be committed by some run of turns exactly when neither its commit message nor a budget of
      one attempt under an enforced attempt limit forbids it: the gate is told of one attempt every time. */
  lemma {:induction false} CommittableExactlyWhen(job: Job, step: P.Step, clean: Job)
    requires clean == job.(turns := k => Turn(S.Done, []))
    ensures Hopeless(job, step) ==> !Work(job, step, 0, []).ending.Committed?
    ensures !Hopeless(job, step) ==> Work(clean, step, 0, []).ending.Committed?
  {
    hide Work, UncleanMessage, EffectiveSeverity;
    CommitsExactlyWhen(job, step, 0, []);
    CommitsExactlyWhen(clean, step, 0, []);
    if Hopeless(job, step) {
      forall k: nat ensures !Passes(job, step, k) {
      }
    } else {
      assert Passes(clean, step, 0);
    }
  }

  // ---------------------------------------------------------------------------
  // What is left in the documents

  lemma {:induction false} OpenStepIsFirst(doc: P.Doc, at: nat)
    requires PL.Printable(doc) && at == NextOpen(doc.steps) < |doc.steps|
    ensures P.Position(doc.steps, doc.steps[at].number) == at
  {
    var number := doc.steps[at].number;
    forall j | 0 <= j < |doc.steps| && j != at ensures doc.steps[j].number != number {
      assert if j < at then doc.steps[j].number != number else doc.steps[at].number != doc.steps[j].number;
    }
  }

  lemma {:induction false} TickKeepsPrintable(doc: P.Doc, number: nat, commit: Option<string>, attempts: nat)
    requires PL.Printable(doc) && (commit.Some? ==> Field(commit.value)) && attempts <= U32_MAX
    ensures PL.Printable(doc.(steps := P.Ticked(doc.steps, number, commit, attempts)))
  {
    hide Field;
  }

  lemma {:induction false} CommitLeaves(job: Job, doc: P.Doc, at: nat, outcome: Outcome)
    requires P.Parse(job.progress) == Ok(doc) && at == NextOpen(doc.steps) < |doc.steps|
    requires AfterResume(job).result == Ok(outcome) && outcome.ending.Committed?
    ensures outcome.number == doc.steps[at].number && AfterResume(job).decisions == job.decisions
    ensures AfterResume(job).progress == P.Render(doc.(steps := P.Ticked(doc.steps, doc.steps[at].number, job.hash, 1)))
  {
    hide Work, Evaluate, FirstBlock, P.Parse, P.Render, P.Ticked, RecordReplan;
    WorkNumber(job, doc.steps[at], 0, []);
  }

  lemma {:induction false} TickedThere(steps: seq<P.Step>, at: nat, ticked: P.Step, commit: Option<string>)
    requires at < |steps| && P.Position(steps, steps[at].number) == at
    requires ticked == P.Step(steps[at].number, steps[at].description, true, commit, 1)
    ensures PL.CleanedAll(P.Ticked(steps, steps[at].number, commit, 1)) == PL.CleanedAll(steps)[at := ticked]
  {
    hide P.Position;
  }

  /** A committed step is ticked off in the plan as written: it is the first open step, it carries the
      commit, and it always counts as one attempt however many turns it took. Every other step stays. */
  lemma {:induction false} CommitTicksPlan(job: Job, doc: P.Doc, at: nat, outcome: Outcome, ticked: P.Step)
    requires P.Parse(job.progress) == Ok(doc) && at == NextOpen(doc.steps) < |doc.steps|
    requires job.hash.Some? ==> Field(job.hash.value)
    requires AfterResume(job).result == Ok(outcome) && outcome.ending.Committed?
    requires ticked == P.Step(doc.steps[at].number, doc.steps[at].description, true, job.hash, 1)
    ensures outcome.number == doc.steps[at].number
    ensures P.Parse(AfterResume(job).progress) == Ok(doc.(steps := PL.CleanedAll(doc.steps)[at := ticked]))
    ensures AfterResume(job).decisions == job.decisions
  {
    CommitLeaves(job, doc, at, outcome);
    PL.ParseIsPrintable(job.progress);
    hide AfterResume, P.Parse, P.Render, PL.Printable, P.Position, P.Ticked, Field;
    OpenStepIsFirst(doc, at);
    TickKeepsPrintable(doc, doc.steps[at].number, job.hash, 1);
    PL.RenderReads(doc.(steps := P.Ticked(doc.steps, doc.steps[at].number, job.hash, 1)));
    TickedThere(doc.steps, at, ticked, job.hash);
  }

  lemma {:induction false} WorkNumber(job: Job, step: P.Step, k: nat, logs: seq<string>)
    requires k < Budget(job)
    ensures Work(job, step, k, logs).number == step.number
    decreases Budget(job) - k
  {
    hide Action;
    if job.turns(k).stop == S.Done && Action(job, step, k).Rework? && k + 1 < Budget(job) {
      WorkNumber(job, step, k + 1, logs + [Action(job, step, k).reason]);
    }
  }

  /** Any other ending leaves the plan's text alone, and only a replan touches the decision log. */
  lemma {:induction false} OtherwiseUntouched(job: Job)
    ensures AfterResume(job).result.Err? ==> AfterResume(job).progress == job.progress && AfterResume(job).decisions == job.decisions
    ensures AfterResume(job).result.Ok? && !AfterResume(job).result.value.ending.Committed? ==> AfterResume(job).progress == job.progress
    ensures AfterResume(job).result.Ok? && !AfterResume(job).result.value.ending.Replanned? ==> AfterResume(job).decisions == job.decisions
  {
    hide Work, Evaluate, FirstBlock, P.Parse, P.Render, D.Parse, D.Render, P.Ticked;
  }

  /** The decision log a replan is added to: the one there, or a new one under the plan's name. */
  ghost predicate StandingLog(job: Job, log: D.Log) {
    if job.decisions.Some? then D.Parse(job.decisions.value) == Ok(log)
    else P.Parse(job.progress).Ok? && log == D.Log(P.Parse(job.progress).value.name, [])
  }

  /** A replan is added to the log as written, behind everything already there and under a new id. The log
      then reads back exactly when the headers already there can be told apart and have titles, the date fits
      a header, and no check that asked for rework has a line break in its name. */
  lemma {:induction false} ReplanIsRecorded(job: Job, log: D.Log, outcome: Outcome, e: D.Decision)
    requires P.Parse(job.progress).Ok? && AfterResume(job).result == Ok(outcome) && outcome.ending.Replanned?
    requires StandingLog(job, log) && D.HighestId(log.entries) < U32_MAX
    requires e == ReplanEntry(job.today, outcome.number, outcome.ending.logs)
    ensures AfterResume(job).decisions.Some?
    ensures D.Parse(AfterResume(job).decisions.value) == Ok(log.(entries := D.Appended(log.entries, e))) <==>
            && (forall i :: 0 <= i < |log.entries| ==> DL.Splittable(log.entries[i]))
            && Field(job.today) && DL.Unsplit(job.today)
            && forall k :: 0 <= k < Budget(job) ==> '\n' !in Blamed(job.turns(k).outcomes)
  {
    var doc := P.Parse(job.progress).value;
    ReplanFields(outcome.number);
    ReplanLeaves(job, log, doc, outcome, e);
    StandingIsPrintable(job, log);
    hide *;
    hide AfterResume, Budget, Field;
    DL.AppendReadsExactlyWhen(log, e);
    EntryParts(job, outcome, e);
    RationaleReads(job, outcome.ending.logs);
  }

  lemma {:induction false} EntryParts(job: Job, outcome: Outcome, e: D.Decision)
    requires outcome.ending.Replanned? && outcome.ending.logs != []
    requires e == ReplanEntry(job.today, outcome.number, outcome.ending.logs)
    ensures e.date == job.today && e.decision == QUEUED && e.title != ""
    ensures e.refs == "step " + Decimal(outcome.number) && e.title == "Replan " + e.refs
    ensures e.rationale == "attempts failed: " + T.Join(outcome.ending.logs, "; ")
  {
  }

  lemma {:induction false} ReplanLeaves(job: Job, log: D.Log, doc: P.Doc, outcome: Outcome, e: D.Decision)
    requires P.Parse(job.progress) == Ok(doc) && AfterResume(job).result == Ok(outcome) && outcome.ending.Replanned?
    requires StandingLog(job, log) && e == ReplanEntry(job.today, outcome.number, outcome.ending.logs)
    ensures AfterResume(job).decisions == Some(D.Render(log.(entries := D.Appended(log.entries, e))))
    ensures outcome.ending.logs == ReasonsOf(job, 0, Budget(job))
  {
    hide Work, Evaluate, FirstBlock, P.Parse, P.Render, D.Parse, D.Render, P.Ticked, D.Appended, ReasonsOf;
    var step := doc.steps[NextOpen(doc.steps)];
    WorkNumber(job, step, 0, []);
    ReplansExactlyWhen(job, step, 0, []);
    assert [] + ReasonsOf(job, 0, Budget(job)) == ReasonsOf(job, 0, Budget(job));
  }

  lemma {:induction false} StandingIsPrintable(job: Job, log: D.Log)
    requires P.Parse(job.progress).Ok? && StandingLog(job, log)
    ensures DL.Printable(log)
  {
    hide P.Parse, D.Parse, Field;
    if job.decisions.Some? {
      DL.ParseIsPrintable(job.decisions.value);
    } else {
      PL.ParseIsPrintable(job.progress);
    }
  }

  lemma {:induction false} JoinStep(parts: seq<string>, separator: string)
    requires parts != []
    ensures T.Join(parts, separator) ==
            if |parts| == 1 then parts[0] else parts[0] + separator + T.Join(parts[1..], separator)
  {
  }

  lemma {:induction false} JoinHas(parts: seq<string>, separator: string, c: char)
    requires parts != [] && c !in separator
    ensures c in T.Join(parts, separator) <==> exists i :: 0 <= i < |parts| && c in parts[i]
  {
    hide T.Join;
    JoinStep(parts, separator);
    if |parts| > 1 {
      var rest := parts[1..];
      JoinHas(rest, separator, c);
      assert c in T.Join(parts, separator) <==> c in parts[0] || c in T.Join(rest, separator);
      if i :| 0 <= i < |parts| && c in parts[i] {
        assert i > 0 ==> c in rest[i - 1];
      }
      if i :| 0 <= i < |rest| && c in rest[i] {
        assert c in parts[i + 1];
      }
    }
  }

  lemma {:induction false} JoinEnds(parts: seq<string>, separator: string)
    requires parts != [] && parts[|parts| - 1] != ""
    ensures var last, all := parts[|parts| - 1], T.Join(parts, separator);
            all != "" && all[|all| - 1] == last[|last| - 1]
  {
    hide T.Join;
    JoinStep(parts, separator);
    if |parts| > 1 {
      JoinEnds(parts[1..], separator);
    }
  }

  lemma {:induction false} MessageReads(name: string)
    ensures ReworkMessage(name) != "" && ReworkMessage(name)[|ReworkMessage(name)| - 1] == 'y'
    ensures '\n' in ReworkMessage(name) <==> '\n' in name
  {
    var before, after := "quality check `", "` failed; fix the findings and retry";
    assert ReworkMessage(name) == before + name + after;
    assert '\n' !in before && '\n' !in after;
  }

  lemma {:induction false} RationaleReads(job: Job, logs: seq<string>)
    requires logs == ReasonsOf(job, 0, Budget(job))
    ensures logs != []
    ensures Field("attempts failed: " + T.Join(logs, "; ")) <==>
            forall k :: 0 <= k < Budget(job) ==> '\n' !in Blamed(job.turns(k).outcomes)
  {
    var n := Budget(job);
    assert n > 0 && |logs| == n;
    forall k | 0 <= k < n
      ensures logs[k] != "" && logs[k][|logs[k]| - 1] == 'y'
      ensures '\n' in logs[k] <==> '\n' in Blamed(job.turns(k).outcomes)
    {
      assert logs[k] == ReworkMessage(Blamed(job.turns(0 + k).outcomes));
      MessageReads(Blamed(job.turns(k).outcomes));
    }
    hide ReworkMessage, Blamed, T.Join, Budget;
    JoinHas(logs, "; ", '\n');
    JoinEnds(logs, "; ");
    ProseReads("attempts failed: ", T.Join(logs, "; "));
  }

  /** A prefix without a line break, and a text that ends in a letter, are a field if the text has none. */
  lemma {:induction false} ProseReads(prefix: string, s: string)
    requires prefix == "attempts failed: " && s != "" && s[|s| - 1] == 'y'
    ensures Field(prefix + s) <==> '\n' !in s
  {
    assert '\n' !in prefix && !T.IsSpace('a') && !T.IsSpace('y');
    hide T.Trim, T.IsSpace;
    TrimIsBare(prefix + s);
  }

  lemma {:induction false} FieldAfter(prefix: string, s: string)
    requires prefix != "" && !T.IsSpace(prefix[0]) && '\n' !in prefix && Field(s) && s != ""
    ensures Field(prefix + s)
  {
    hide T.Trim, T.IsSpace;
    TrimIsBare(s);
    TrimIsBare(prefix + s);
  }

  lemma {:induction false} ReplanFields(number: nat)
    ensures Field("step " + Decimal(number)) && Field("Replan " + ("step " + Decimal(number)))
    ensures Field(QUEUED)
  {
    PL.NumberIsField(number);
    QueuedReads();
    hide Decimal, Field;
    FieldAfter("step ", Decimal(number));
    FieldAfter("Replan ", "step " + Decimal(number));
  }

  /** A beginning of it, so that no proof looks far into the literal. */
  lemma {:induction false} QueuedStarts()
    ensures var s := "the automated attempt budget was exhausted;"; s[0] == 't' && '\n' !in s
  {
    var s := "the automated attempt ";
    assert s[0] == 't' && '\n' !in s;
  }

  lemma {:induction false} QueuedReads()
    ensures Field(QUEUED)
  {
    QueuedStarts();
    var s := "the automated attempt budget was exhausted; the step is queued";
    assert s[0] == 't' && '\n' !in s;
    assert QUEUED[0] == 't' && '\n' !in QUEUED && QUEUED[|QUEUED| - 1] == 'g';
    assert !T.IsSpace('t') && !T.IsSpace('g');
    hide T.Trim, T.IsSpace;
    TrimIsBare(QUEUED);
  }
}
