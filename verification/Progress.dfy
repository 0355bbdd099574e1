/** The plan document: numbered steps, ticked off with the commit and the attempts each took. */
module ProgressFile {
  import opened Wrappers
  import opened Numbers
  import opened Markup
  import opened TextLines
  import T = Text

  datatype Step = Step(number: nat, description: string, done: bool, commit: Option<string>, attempts: nat)

  datatype Doc = Doc(name: string, branch: string, steps: seq<Step>)

  datatype Malformed =
    | MissingTitle
    | MissingBranch
    | DuplicateStep(number: nat)
    | BadCheckbox(line: string)
    | MissingNumber(line: string)
    | BadNumber(text: string)
    | BadAttempts(text: string)

  // ---------------------------------------------------------------------------
  // Reading

  /** What follows the checkbox: a number and a description. */
  function ParseNumbered(line: string, after: string, done: bool): Result<Option<Step>, Malformed> {
    var parts := SplitOnce(after, ". ");
    if parts.None? then Err(MissingNumber(line))
    else
      var number := ParseNumber(T.Trim(parts.value.0), U64_MAX);
      if number.None? then Err(BadNumber(parts.value.0))
      else Ok(Some(Step(number.value, T.Trim(parts.value.1), done, None, 0)))
  }

  /** A step, nothing when the line is no checkbox, or what is wrong with it. */
  function ParseStepLine(line: string): Result<Option<Step>, Malformed> {
    var rest := StripPrefix(line, "- [");
    if rest.None? || rest.value == "" || rest.value[0] !in "xX " then Ok(None)
    else
      var after := StripPrefix(rest.value[1..], "] ");
      if after.None? then Err(BadCheckbox(line)) else ParseNumbered(line, after.value, rest.value[0] in "xX")
  }

  function ParseMetaLine(line: string): Option<(string, string)> {
    var rest := StripPrefix(line, "- ");
    if rest.None? then None
    else
      var parts := SplitOnce(rest.value, ":");
      if parts.None? then None else Some((T.Trim(parts.value.0), T.Trim(parts.value.1)))
  }

  predicate HasNumber(steps: seq<Step>, number: nat) {
    exists i :: 0 <= i < |steps| && steps[i].number == number
  }

  /** Metadata goes to the last step read. */
  function TakeMeta(steps: seq<Step>, key: string, value: string): Result<seq<Step>, Malformed> {
    if steps == [] then Ok(steps)
    else
      var n := |steps| - 1;
      if key == "commit" then Ok(steps[n := steps[n].(commit := Some(value))])
      else if key == "attempts" then
        var attempts := ParseNumber(value, U32_MAX);
        if attempts.None? then Err(BadAttempts(value)) else Ok(steps[n := steps[n].(attempts := attempts.value)])
      else Ok(steps)
  }

  function TakeLine(steps: seq<Step>, line: string): Result<seq<Step>, Malformed> {
    var trimmed := T.TrimStart(line);
    var step := ParseStepLine(trimmed);
    if step.Err? then Err(step.error)
    else if step.value.Some? then
      if HasNumber(steps, step.value.value.number) then Err(DuplicateStep(step.value.value.number))
      else Ok(steps + [step.value.value])
    else
      var meta := ParseMetaLine(trimmed);
      if meta.Some? then TakeMeta(steps, meta.value.0, meta.value.1) else Ok(steps)
  }

  function TakeLines(lines: seq<string>): Result<seq<Step>, Malformed> {
    if lines == [] then Ok([])
    else
      var before := TakeLines(lines[..|lines| - 1]);
      if before.Err? then before else TakeLine(before.value, lines[|lines| - 1])
  }

  function Parse(text: string): Result<Doc, Malformed> {
    var lines := T.Lines(ReplaceCrlf(text));
    var name, branch := TitleAfter(lines, "# Progress:"), TitleAfter(lines, "Branch:");
    if name.None? then Err(MissingTitle)
    else if branch.None? then Err(MissingBranch)
    else
      var steps := TakeLines(lines);
      if steps.Err? then Err(steps.error) else Ok(Doc(name.value, branch.value, steps.value))
  }

  method ParseText(text: string) returns (r: Result<Doc, Malformed>)
    ensures r == Parse(text)
  {
    hide ParseStepLine, ParseMetaLine, TakeMeta, HasNumber, TitleAfter, ReplaceCrlf;
    var lines := T.Lines(ReplaceCrlf(text));
    var name := TitleAfter(lines, "# Progress:");
    if name.None? {
      return Err(MissingTitle);
    }
    var branch := TitleAfter(lines, "Branch:");
    if branch.None? {
      return Err(MissingBranch);
    }
    var steps: seq<Step> := [];
    assert lines[..0] == [];
    for i := 0 to |lines|
      invariant TakeLines(lines[..i]) == Ok(steps)
    {
      assert lines[..i + 1][..i] == lines[..i];
      var trimmed := T.TrimStart(lines[i]);
      var step := ParseStepLine(trimmed);
      if step.Err? {
        StopsAt(lines, i, step.error);
        return Err(step.error);
      }
      if step.value.Some? {
        if HasNumber(steps, step.value.value.number) {
          StopsAt(lines, i, DuplicateStep(step.value.value.number));
          return Err(DuplicateStep(step.value.value.number));
        }
        steps := steps + [step.value.value];
      } else {
        var meta := ParseMetaLine(trimmed);
        if meta.Some? {
          var taken := TakeMeta(steps, meta.value.0, meta.value.1);
          if taken.Err? {
            StopsAt(lines, i, taken.error);
            return Err(taken.error);
          }
          steps := taken.value;
        }
      }
    }
    assert lines[..|lines|] == lines;
    r := Ok(Doc(name.value, branch.value, steps));
  }

  /** The first error is the document's. */
  lemma {:induction false} StopsAt(lines: seq<string>, i: nat, error: Malformed)
    requires i < |lines| && TakeLines(lines[..i + 1]) == Err(error)
    ensures TakeLines(lines) == Err(error)
    decreases |lines|
  {
    if i + 1 < |lines| {
      assert lines[..|lines| - 1][..i + 1] == lines[..i + 1];
      StopsAt(lines[..|lines| - 1], i, error);
    } else {
      assert lines[..i + 1] == lines;
    }
  }

  // ---------------------------------------------------------------------------
  // Writing

  function StepLine(s: Step): string {
    "- [" + (if s.done then "x" else " ") + "] " + Decimal(s.number) + ". " + s.description
  }

  function MetaLines(s: Step): seq<string> {
    if !s.done then []
    else
      (if s.commit.Some? then ["  - commit: " + s.commit.value] else [])
      + (if s.attempts > 0 then ["  - attempts: " + Decimal(s.attempts)] else [])
  }

  function StepLines(steps: seq<Step>): seq<string> {
    if steps == [] then []
    else
      var s := steps[|steps| - 1];
      StepLines(steps[..|steps| - 1]) + [StepLine(s)] + MetaLines(s)
  }

  function HeadLines(d: Doc): seq<string> {
    ["# Progress: " + d.name, "Branch: " + d.branch, "", "## Steps", ""]
  }

  function Render(d: Doc): string {
    Unlines(HeadLines(d) + StepLines(d.steps))
  }

  /** Appends one step, its metadata only when it is done. */
  method PushStep(out: string, step: Step, ghost before: seq<string>) returns (r: string)
    requires out == Unlines(before)
    ensures r == Unlines(before + ([StepLine(step)] + MetaLines(step)))
  {
    hide Unlines, Decimal, StepLine;
    r := out + StepLine(step) + "\n";
    UnlinesPush(before, StepLine(step));
    ghost var lines := before + [StepLine(step)];
    if step.done && step.commit.Some? {
      var line := "  - commit: " + step.commit.value;
      r := r + line + "\n";
      UnlinesPush(lines, line);
      lines := lines + [line];
    }
    if step.done && step.attempts > 0 {
      var line := "  - attempts: " + Decimal(step.attempts);
      r := r + line + "\n";
      UnlinesPush(lines, line);
      lines := lines + [line];
    }
    assert lines == before + ([StepLine(step)] + MetaLines(step));
  }

  method RenderText(d: Doc) returns (out: string)
    ensures out == Render(d)
  {
    hide Unlines, Decimal, StepLine, MetaLines, HeadLines;
    out := "# Progress: " + d.name + "\n" + "Branch: " + d.branch + "\n\n## Steps\n\n";
    HeadText(d);
    ghost var head := HeadLines(d);
    assert d.steps[..0] == [] && head + [] == head;
    for i := 0 to |d.steps|
      invariant out == Unlines(head + StepLines(d.steps[..i]))
    {
      var step := d.steps[i];
      assert d.steps[..i + 1][..i] == d.steps[..i];
      ghost var before := head + StepLines(d.steps[..i]);
      out := PushStep(out, step, before);
      assert before + ([StepLine(step)] + MetaLines(step)) == head + StepLines(d.steps[..i + 1]);
    }
    assert d.steps[..|d.steps|] == d.steps;
  }

  lemma {:induction false} HeadText(d: Doc)
    ensures "# Progress: " + d.name + "\n" + "Branch: " + d.branch + "\n\n## Steps\n\n" == Unlines(HeadLines(d))
  {
    hide Unlines;
    var name, branch := "# Progress: " + d.name, "Branch: " + d.branch;
    UnlinesCons(name, [branch, "", "## Steps", ""]);
    UnlinesCons(branch, ["", "## Steps", ""]);
    BlankText();
    assert HeadLines(d) == [name] + [branch, "", "## Steps", ""];
    assert [branch, "", "## Steps", ""] == [branch] + ["", "## Steps", ""];
    assert branch + "\n" + "\n## Steps\n\n" == branch + "\n\n## Steps\n\n";
  }

  lemma {:induction false} BlankText()
    ensures Unlines(["", "## Steps", ""]) == "\n## Steps\n\n"
  {
    hide Unlines;
    UnlinesCons("", ["## Steps", ""]);
    UnlinesCons("## Steps", [""]);
    UnlinesCons("", []);
    UnlinesNone();
    assert ["", "## Steps", ""] == [""] + ["## Steps", ""];
    assert ["## Steps", ""] == ["## Steps"] + [""];
    assert [""] + [] == [""];
  }

  // ---------------------------------------------------------------------------
  // Editing

  function Highest(steps: seq<Step>): nat {
    if steps == [] then 0
    else
      var rest, last := Highest(steps[..|steps| - 1]), steps[|steps| - 1].number;
      if rest < last then last else rest
  }

  /** A new open step after the highest number. */
  function Appended(steps: seq<Step>, description: string): seq<Step> {
    steps + [Step(Highest(steps) + 1, description, false, None, 0)]
  }

  /** Position of the first step with a number, or the length. */
  function Position(steps: seq<Step>, number: nat): (i: nat)
    ensures i <= |steps| && forall j :: 0 <= j < i ==> steps[j].number != number
    ensures i < |steps| ==> steps[i].number == number
  {
    if steps == [] then 0
    else
      var i := Position(steps[..|steps| - 1], number);
      if i == |steps| - 1 && steps[i].number != number then |steps| else i
  }

  function Ticked(steps: seq<Step>, number: nat, commit: Option<string>, attempts: nat): seq<Step> {
    var i := Position(steps, number);
    if i == |steps| then steps else steps[i := steps[i].(done := true, commit := commit, attempts := attempts)]
  }

  /** A plan held in memory while a run works through it. */
  class Plan {
    var name: string
    var branch: string
    var steps: seq<Step>

    constructor (d: Doc)
      ensures Contents() == d
    {
      name, branch, steps := d.name, d.branch, d.steps;
    }

    function Contents(): Doc
      reads this
    {
      Doc(name, branch, steps)
    }

    method AppendStep(description: string) returns (number: nat)
      modifies this
      ensures Contents() == old(Contents()).(steps := Appended(old(steps), description))
      ensures number == Highest(old(steps)) + 1
    {
      var highest: nat := 0;
      assert steps[..0] == [];
      for i := 0 to |steps|
        invariant steps == old(steps) && name == old(name) && branch == old(branch)
        invariant highest == Highest(steps[..i])
      {
        assert steps[..i + 1][..i] == steps[..i];
        if highest < steps[i].number {
          highest := steps[i].number;
        }
      }
      assert steps[..|steps|] == steps;
      number := highest + 1;
      steps := steps + [Step(number, description, false, None, 0)];
    }

    method MarkComplete(number: nat, commit: Option<string>, attempts: nat) returns (found: bool)
      modifies this
      ensures Contents() == old(Contents()).(steps := Ticked(old(steps), number, commit, attempts))
      ensures found <==> exists i :: 0 <= i < |old(steps)| && old(steps)[i].number == number
    {
      found := false;
      var i := 0;
      while i < |steps| && steps[i].number != number
        invariant i <= |steps| && forall j :: 0 <= j < i ==> steps[j].number != number
      {
        i := i + 1;
      }
      assert i == Position(steps, number);
      if i < |steps| {
        steps := steps[i := steps[i].(done := true, commit := commit, attempts := attempts)];
        found := true;
      }
    }
  }
}
