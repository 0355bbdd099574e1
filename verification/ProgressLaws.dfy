/** Reading back what was written, and editing a plan. */
module ProgressLaws {
  import opened Wrappers
  import opened Numbers
  import opened Markup
  import opened TextLines
  import opened ProgressFile
  import T = Text

  /** What the document's text can carry: one-line values, and every step number once. */
  ghost predicate Printable(d: Doc) {
    && Field(d.name) && d.name != "" && Field(d.branch) && d.branch != ""
    && PrintableSteps(d.steps)
  }

  ghost predicate PrintableStep(s: Step) {
    && s.number <= U64_MAX && Field(s.description)
    && s.attempts <= U32_MAX && (s.commit.Some? ==> Field(s.commit.value))
  }

  ghost predicate PrintableSteps(steps: seq<Step>) {
    && (forall i :: 0 <= i < |steps| ==> PrintableStep(steps[i]))
    && forall i, j :: 0 <= i < j < |steps| ==> steps[i].number != steps[j].number
  }

  /** Metadata is written for done steps only. */
  function Cleaned(s: Step): Step {
    if s.done then s else s.(commit := None, attempts := 0)
  }

  function CleanedAll(steps: seq<Step>): seq<Step> {
    seq(|steps|, i requires 0 <= i < |steps| => Cleaned(steps[i]))
  }

  ghost predicate WellFormed(d: Doc) {
    Printable(d) && forall i :: 0 <= i < |d.steps| ==> Cleaned(d.steps[i]) == d.steps[i]
  }

  // ---------------------------------------------------------------------------
  // Lines of a step

  lemma {:induction false} DecimalIsBare(n: nat)
    ensures T.Trim(Decimal(n)) == Decimal(n) && '.' !in Decimal(n) && '\n' !in Decimal(n)
  {
    DecimalParses(n);
    hide Decimal;
    var s := Decimal(n);
    assert IsDigit(s[0]) && IsDigit(s[|s| - 1]);
    TrimIsBare(s);
  }

  lemma {:induction false} Checkbox(line: string, mark: char, body: string)
    requires line == "- [" + ([mark] + ("] " + body)) && mark in "xX "
    ensures ParseStepLine(line) == ParseNumbered(line, body, mark in "xX")
  {
    hide ParseNumbered, StripPrefix;
    StripsPrefix("- [", [mark] + ("] " + body));
    assert ([mark] + ("] " + body))[1..] == "] " + body;
    StripsPrefix("] ", body);
  }

  lemma {:induction false} Numbered(line: string, number: nat, description: string, done: bool)
    requires number <= U64_MAX && Field(description)
    ensures ParseNumbered(line, Decimal(number) + ". " + description, done)
         == Ok(Some(Step(number, description, done, None, 0)))
  {
    DecimalIsBare(number);
    hide T.Trim, Decimal, SplitOnce, ParseNumber;
    SplitAtFirst(Decimal(number), ". ", description);
    NumberRoundTrip(number, U64_MAX);
  }

  function Mark(s: Step): char {
    if s.done then 'x' else ' '
  }

  lemma {:induction false} StepShape(s: Step)
    ensures StepLine(s) == "- [" + ([Mark(s)] + ("] " + (Decimal(s.number) + ". " + s.description)))
    ensures StepLine(s) == "- [" + [Mark(s)] + "] " + Decimal(s.number) + ". " + s.description
  {
    hide Decimal;
  }

  lemma {:induction false} StartsWithDash(rest: string)
    ensures T.TrimStart("- " + rest) == "- " + rest
  {
    assert "- " + rest == ['-'] + (" " + rest);
    KeepsStart('-', " " + rest);
  }

  lemma {:induction false} StepLineParses(s: Step)
    requires PrintableStep(s)
    ensures ParseStepLine(StepLine(s)) == Ok(Some(Step(s.number, s.description, s.done, None, 0)))
    ensures T.TrimStart(StepLine(s)) == StepLine(s) && PlainLine(StepLine(s))
  {
    StepShape(s);
    DecimalIsBare(s.number);
    hide StepLine, Decimal, Field, ParseStepLine, ParseNumbered, PlainLine, T.TrimStart;
    Checkbox(StepLine(s), Mark(s), Decimal(s.number) + ". " + s.description);
    Numbered(StepLine(s), s.number, s.description, s.done);
    EndsPlain("- [" + [Mark(s)] + "] " + Decimal(s.number) + ". ", s.description);
    var rest := "[" + ([Mark(s)] + ("] " + (Decimal(s.number) + ". " + s.description)));
    assert StepLine(s) == "- " + rest;
    StartsWithDash(rest);
  }

  lemma {:induction false} MetaTrims(rest: string)
    ensures T.TrimStart("  - " + rest) == "- " + rest
  {
    var line := "  - " + rest;
    assert line[1..][1..] == "- " + rest;
    assert T.IsSpace(' ') && line[0] == ' ' && line[1..][0] == ' ';
    hide T.IsSpace;
    StartsWithDash(rest);
  }

  lemma {:induction false} MetaParses(key: string, value: string)
    requires key in {"commit", "attempts"} && Field(value)
    ensures ParseMetaLine("- " + (key + ":" + (" " + value))) == Some((key, value))
    ensures ParseStepLine("- " + (key + ":" + (" " + value))) == Ok(None)
  {
    KeyIsBare(key);
    hide T.Trim, SplitOnce, ParseNumbered;
    StripsPrefix("- ", key + ":" + (" " + value));
    SplitAtFirst(key, ":", " " + value);
    TrimLeading(value);
    assert ("- " + (key + ":" + (" " + value)))[2] == key[0];
  }

  lemma {:induction false} KeyIsBare(key: string)
    requires key in {"commit", "attempts"}
    ensures T.Trim(key) == key && ':' !in key && key != "" && key[0] != '['
  {
    hide T.Trim;
    TrimIsBare(key);
  }

  lemma {:induction false} MetaLineParses(key: string, value: string, line: string)
    requires key in {"commit", "attempts"} && Field(value) && line == "  - " + key + ": " + value
    ensures ParseStepLine(T.TrimStart(line)) == Ok(None)
    ensures ParseMetaLine(T.TrimStart(line)) == Some((key, value))
    ensures PlainLine(line)
  {
    hide Field, ParseStepLine, ParseMetaLine, PlainLine, T.TrimStart;
    assert '\n' !in key;
    EndsPlain("  - " + key + ": ", value);
    var rest := key + ":" + (" " + value);
    assert line == "  - " + rest;
    MetaTrims(rest);
    MetaParses(key, value);
  }

  // ---------------------------------------------------------------------------
  // The whole document

  lemma {:induction false} TakePush(lines: seq<string>, steps: seq<Step>, line: string)
    requires TakeLines(lines) == Ok(steps)
    ensures TakeLines(lines + [line]) == TakeLine(steps, line)
  {
    hide TakeLine;
    assert (lines + [line])[..|lines|] == lines;
  }

  lemma {:induction false} PlainText(line: string)
    requires line == "" || line[0] in "#B"
    ensures TakeLine([], line) == Ok([])
  {
    if line != "" {
      assert line == [line[0]] + line[1..];
      KeepsStart(line[0], line[1..]);
    }
    hide ParseMetaLine, ParseNumbered;
    assert T.TrimStart(line) == line;
  }

  lemma {:induction false} HeadReads(d: Doc)
    ensures TakeLines(HeadLines(d)) == Ok([])
  {
    hide TakeLine, TakeLines;
    var lines := HeadLines(d);
    NothingRead();
    for i := 0 to 5
      invariant TakeLines(lines[..i]) == Ok([])
    {
      PlainText(lines[i]);
      TakePush(lines[..i], [], lines[i]);
      assert lines[..i + 1] == lines[..i] + [lines[i]];
    }
    assert lines[..5] == lines;
  }

  lemma {:induction false} NothingRead()
    ensures TakeLines([]) == Ok([])
  {
  }

  lemma {:induction false} CommitReads(lines: seq<string>, steps: seq<Step>, last: Step, commit: string, line: string)
    requires TakeLines(lines) == Ok(steps + [last]) && Field(commit) && line == "  - commit: " + commit
    ensures TakeLines(lines + [line]) == Ok(steps + [last.(commit := Some(commit))])
  {
    hide ParseStepLine, ParseMetaLine, PlainLine, TakeLines, HasNumber, T.TrimStart, Field;
    MetaLineParses("commit", commit, line);
    TakePush(lines, steps + [last], line);
    assert (steps + [last])[|steps| := last.(commit := Some(commit))] == steps + [last.(commit := Some(commit))];
  }

  lemma {:induction false} AttemptsRead(lines: seq<string>, steps: seq<Step>, last: Step, attempts: nat, line: string)
    requires TakeLines(lines) == Ok(steps + [last]) && attempts <= U32_MAX && line == "  - attempts: " + Decimal(attempts)
    ensures TakeLines(lines + [line]) == Ok(steps + [last.(attempts := attempts)])
  {
    hide ParseStepLine, ParseMetaLine, PlainLine, TakeLines, HasNumber, T.TrimStart, Field, Decimal, ParseNumber;
    NumberIsField(attempts);
    NumberRoundTrip(attempts, U32_MAX);
    MetaLineParses("attempts", Decimal(attempts), line);
    TakePush(lines, steps + [last], line);
    assert (steps + [last])[|steps| := last.(attempts := attempts)] == steps + [last.(attempts := attempts)];
  }

  lemma {:induction false} StepReads(lines: seq<string>, steps: seq<Step>, s: Step)
    requires TakeLines(lines) == Ok(steps) && PrintableStep(s) && !HasNumber(steps, s.number)
    ensures TakeLines(lines + ([StepLine(s)] + MetaLines(s))) == Ok(steps + [Cleaned(s)])
  {
    hide ParseStepLine, ParseMetaLine, StepLine, PlainLine, TakeLines, HasNumber, T.TrimStart, Field, Decimal;
    var read, last := lines + [StepLine(s)], Step(s.number, s.description, s.done, None, 0);
    StepLineParses(s);
    TakePush(lines, steps, StepLine(s));
    if s.done && s.commit.Some? {
      var line := "  - commit: " + s.commit.value;
      CommitReads(read, steps, last, s.commit.value, line);
      read, last := read + [line], last.(commit := s.commit);
    }
    if s.done && s.attempts > 0 {
      var line := "  - attempts: " + Decimal(s.attempts);
      AttemptsRead(read, steps, last, s.attempts, line);
      read, last := read + [line], last.(attempts := s.attempts);
    }
    assert read == lines + ([StepLine(s)] + MetaLines(s));
  }

  lemma {:induction false} NumberIsField(n: nat)
    ensures Field(Decimal(n))
  {
    DecimalIsBare(n);
  }

  lemma {:induction false} StepsRead(lines: seq<string>, steps: seq<Step>)
    requires TakeLines(lines) == Ok([]) && PrintableSteps(steps)
    ensures TakeLines(lines + StepLines(steps)) == Ok(CleanedAll(steps))
  {
    hide TakeLines, PrintableStep, StepLine, MetaLines, Cleaned;
    if steps == [] {
      assert lines + StepLines(steps) == lines && CleanedAll(steps) == [];
    } else {
      var init, s := steps[..|steps| - 1], steps[|steps| - 1];
      StepsRead(lines, init);
      CleanedNumbers(init, s.number);
      StepReads(lines + StepLines(init), CleanedAll(init), s);
      assert lines + StepLines(init) + ([StepLine(s)] + MetaLines(s)) == lines + StepLines(steps);
      assert CleanedAll(steps) == CleanedAll(init) + [Cleaned(s)];
    }
  }

  lemma {:induction false} CleanedNumbers(steps: seq<Step>, number: nat)
    requires forall i :: 0 <= i < |steps| ==> steps[i].number != number
    ensures !HasNumber(CleanedAll(steps), number)
  {
  }

  lemma {:induction false} StepLinesPlain(steps: seq<Step>)
    requires forall i :: 0 <= i < |steps| ==> PrintableStep(steps[i])
    ensures forall i :: 0 <= i < |StepLines(steps)| ==> PlainLine(StepLines(steps)[i])
  {
    hide PlainLine, PrintableStep, StepLine, MetaLines;
    if steps != [] {
      var s := steps[|steps| - 1];
      StepLinesPlain(steps[..|steps| - 1]);
      OneStepPlain(s);
    }
  }

  lemma {:induction false} OneStepPlain(s: Step)
    requires PrintableStep(s)
    ensures PlainLine(StepLine(s)) && forall i :: 0 <= i < |MetaLines(s)| ==> PlainLine(MetaLines(s)[i])
  {
    hide PlainLine, StepLine, Decimal, T.TrimStart, Field, ParseStepLine, ParseMetaLine;
    StepLineParses(s);
    NumberIsField(s.attempts);
    var attempts := "  - attempts: " + Decimal(s.attempts);
    MetaLineParses("attempts", Decimal(s.attempts), attempts);
    if s.commit.Some? {
      var commit := "  - commit: " + s.commit.value;
      MetaLineParses("commit", s.commit.value, commit);
      assert forall i :: 0 <= i < |MetaLines(s)| ==> MetaLines(s)[i] == commit || MetaLines(s)[i] == attempts;
    } else {
      assert forall i :: 0 <= i < |MetaLines(s)| ==> MetaLines(s)[i] == attempts;
    }
  }

  lemma {:induction false} HeadPlain(d: Doc)
    requires Printable(d)
    ensures forall i :: 0 <= i < 5 ==> PlainLine(HeadLines(d)[i])
  {
    EndsPlain("# Progress: ", d.name);
    EndsPlain("Branch: ", d.branch);
  }

  lemma {:induction false} HeadTitles(d: Doc, rest: seq<string>)
    requires Printable(d)
    ensures TitleAfter(HeadLines(d) + rest, "# Progress:") == Some(d.name)
    ensures TitleAfter(HeadLines(d) + rest, "Branch:") == Some(d.branch)
  {
    hide TitleAfter, Field, PrintableSteps;
    var lines := HeadLines(d) + rest;
    var name, branch := "# Progress: " + d.name, "Branch: " + d.branch;
    assert "# Progress:" + " " + d.name == name && "Branch:" + " " + d.branch == branch;
    assert lines == [name] + lines[1..] && lines[1..] == [branch] + lines[2..];
    TitleReads(d.name, "# Progress:", lines[1..]);
    TitleSkips(name, "Branch:", lines[1..]);
    TitleReads(d.branch, "Branch:", lines[2..]);
  }

  /** Whatever the text can carry is read back, except that open steps lose their metadata. */
  lemma {:induction false} RenderReads(d: Doc)
    requires Printable(d)
    ensures Parse(Render(d)) == Ok(d.(steps := CleanedAll(d.steps)))
  {
    hide TakeLines, Unlines, TitleAfter, HeadLines, StepLines, ReplaceCrlf, T.Lines, PlainLine;
    var lines := HeadLines(d) + StepLines(d.steps);
    HeadPlain(d);
    HeadHasFive(d);
    StepLinesPlain(d.steps);
    LinesRoundTrip(lines);
    HeadReads(d);
    StepsRead(HeadLines(d), d.steps);
    HeadTitles(d, StepLines(d.steps));
  }

  lemma {:induction false} HeadHasFive(d: Doc)
    ensures |HeadLines(d)| == 5
  {
  }

  // ---------------------------------------------------------------------------
  // What reading gives

  lemma {:induction false} NumberedIsPrintable(line: string, after: string, done: bool, r: Result<Option<Step>, Malformed>)
    requires '\n' !in after && r == ParseNumbered(line, after, done) && r.Ok?
    ensures r.value.Some? && PrintableStep(r.value.value)
  {
    hide SplitOnce, T.Trim, ParseNumber, Field;
    PartsWithin(after, ". ");
    TrimIsField(SplitOnce(after, ". ").value.1);
  }

  lemma {:induction false} StepIsPrintable(line: string)
    requires '\n' !in line && ParseStepLine(line).Ok? && ParseStepLine(line).value.Some?
    ensures PrintableStep(ParseStepLine(line).value.value)
  {
    hide ParseNumbered, PrintableStep;
    var rest := StripPrefix(line, "- [").value;
    var after := StripPrefix(rest[1..], "] ").value;
    NumberedIsPrintable(line, after, rest[0] in "xX", ParseStepLine(line));
  }

  lemma {:induction false} MetaIsField(line: string)
    requires '\n' !in line && ParseMetaLine(line).Some?
    ensures Field(ParseMetaLine(line).value.1)
  {
    hide SplitOnce, T.Trim, Field;
    var rest := StripPrefix(line, "- ").value;
    PartsWithin(rest, ":");
    TrimIsField(SplitOnce(rest, ":").value.1);
  }

  lemma {:induction false} TakeKeepsPrintable(steps: seq<Step>, line: string)
    requires PrintableSteps(steps) && '\n' !in line && TakeLine(steps, line).Ok?
    ensures PrintableSteps(TakeLine(steps, line).value)
  {
    hide ParseStepLine, ParseMetaLine, T.TrimStart, Field;
    var trimmed := T.TrimStart(line);
    TrimStartEnds(line);
    var step := ParseStepLine(trimmed);
    if step.value.Some? {
      StepIsPrintable(trimmed);
    } else if ParseMetaLine(trimmed).Some? {
      MetaIsField(trimmed);
    }
  }

  lemma {:induction false} LinesKeepPrintable(lines: seq<string>)
    requires forall i :: 0 <= i < |lines| ==> '\n' !in lines[i]
    ensures TakeLines(lines).Ok? ==> PrintableSteps(TakeLines(lines).value)
  {
    hide TakeLine, PrintableSteps;
    if lines == [] {
      NoSteps();
    } else {
      LinesKeepPrintable(lines[..|lines| - 1]);
      if TakeLines(lines).Ok? {
        TakeKeepsPrintable(TakeLines(lines[..|lines| - 1]).value, lines[|lines| - 1]);
      }
    }
  }

  lemma {:induction false} NoSteps()
    ensures PrintableSteps([])
  {
  }

  /** Reading only gives plans the text can carry; in particular every number once. */
  lemma {:induction false} ParseIsPrintable(text: string)
    ensures Parse(text).Ok? ==> Printable(Parse(text).value)
  {
    hide TakeLines, TitleAfter, PrintableSteps, Field, T.Lines, ReplaceCrlf;
    var lines := T.Lines(ReplaceCrlf(text));
    LinesAreSingle(ReplaceCrlf(text));
    LinesKeepPrintable(lines);
    TitleIsField(lines, "# Progress:");
    TitleIsField(lines, "Branch:");
  }

  /** Writing a plan and reading it back gives the plan exactly when its fields fit their lines, its numbers
      differ and its open steps carry no metadata. */
  lemma {:induction false} RoundTripExactlyWhen(d: Doc)
    ensures Parse(Render(d)) == Ok(d) <==> WellFormed(d)
  {
    hide Parse, Render, Printable, Cleaned;
    ParseIsPrintable(Render(d));
    if Printable(d) {
      RenderReads(d);
      CleanExactlyWhen(d.steps);
    }
  }

  lemma {:induction false} CleanExactlyWhen(steps: seq<Step>)
    ensures CleanedAll(steps) == steps <==> forall i :: 0 <= i < |steps| ==> Cleaned(steps[i]) == steps[i]
  {
    hide Cleaned;
    assert forall i :: 0 <= i < |steps| ==> CleanedAll(steps)[i] == Cleaned(steps[i]);
  }

  /** An open step that carries a commit: the text does not hold it, so it is read back without. */
  lemma {:induction false} OpenCommitIsLost() returns (d: Doc)
    ensures d.steps == [Step(1, "a", false, Some("c"), 0)]
    ensures Parse(Render(d)) == Ok(d.(steps := [Step(1, "a", false, None, 0)])) != Ok(d)
  {
    d := Doc("n", "b", [Step(1, "a", false, Some("c"), 0)]);
    LetterIsField('n');
    LetterIsField('b');
    LetterIsField('a');
    LetterIsField('c');
    RenderReads(d);
    hide Parse, Render;
    assert CleanedAll(d.steps) == [Step(1, "a", false, None, 0)];
  }

  lemma {:induction false} LetterIsField(c: char)
    requires 'a' <= c <= 'z'
    ensures Field([c])
  {
    TrimIsBare([c]);
  }

  // ---------------------------------------------------------------------------
  // Editing

  /** No number is skipped: the highest number is that of some step, or there is none above zero. */
  lemma {:induction false} HighestIsThere(steps: seq<Step>)
    ensures Highest(steps) == 0 || HasNumber(steps, Highest(steps))
  {
    if steps != [] {
      var init, n := steps[..|steps| - 1], |steps| - 1;
      HighestIsThere(init);
      if Highest(steps) != Highest(init) {
        assert steps[n].number == Highest(steps);
      } else if Highest(init) > 0 {
        var i :| 0 <= i < |init| && init[i].number == Highest(init);
        assert steps[i] == init[i];
      }
    }
  }

  lemma {:induction false} HighestBounds(steps: seq<Step>)
    ensures forall i :: 0 <= i < |steps| ==> steps[i].number <= Highest(steps)
  {
    if steps != [] {
      HighestBounds(steps[..|steps| - 1]);
    }
  }

  lemma {:induction false} AppendKeepsWellFormed(d: Doc, description: string)
    requires WellFormed(d) && Field(description) && Highest(d.steps) < U64_MAX
    ensures WellFormed(d.(steps := Appended(d.steps, description)))
  {
    hide Field;
    HighestBounds(d.steps);
  }

  lemma {:induction false} TickKeepsWellFormed(d: Doc, number: nat, commit: Option<string>, attempts: nat)
    requires WellFormed(d) && (commit.Some? ==> Field(commit.value)) && attempts <= U32_MAX
    ensures WellFormed(d.(steps := Ticked(d.steps, number, commit, attempts)))
  {
    hide Field;
  }

  datatype Edit = Append(description: string) | Tick(number: nat, commit: Option<string>, attempts: nat)

  predicate WritableEdit(e: Edit) {
    match e
    case Append(description) => Field(description)
    case Tick(_, commit, attempts) => (commit.Some? ==> Field(commit.value)) && attempts <= U32_MAX
  }

  function Edited(steps: seq<Step>, e: Edit): seq<Step> {
    match e
    case Append(description) => Appended(steps, description)
    case Tick(number, commit, attempts) => Ticked(steps, number, commit, attempts)
  }

  function EditedBy(steps: seq<Step>, edits: seq<Edit>): seq<Step> {
    if edits == [] then steps else Edited(EditedBy(steps, edits[..|edits| - 1]), edits[|edits| - 1])
  }

  lemma {:induction false} HighestSame(a: seq<Step>, b: seq<Step>)
    requires |a| == |b| && forall i :: 0 <= i < |a| ==> a[i].number == b[i].number
    ensures Highest(a) == Highest(b)
  {
    if a != [] {
      HighestSame(a[..|a| - 1], b[..|b| - 1]);
    }
  }

  lemma {:induction false} EditRaises(steps: seq<Step>, e: Edit)
    ensures Highest(Edited(steps, e)) <= Highest(steps) + 1
  {
    match e
    case Append(description) =>
      assert Appended(steps, description)[..|steps|] == steps;
    case Tick(number, commit, attempts) =>
      HighestSame(Ticked(steps, number, commit, attempts), steps);
  }

  /** Whatever is appended and ticked off, the plan still reads back, no step that was there is renumbered,
      reworded or moved, and none is unticked. */
  lemma {:induction false} EditsKeepPlan(d: Doc, edits: seq<Edit>, steps: seq<Step>)
    requires WellFormed(d) && steps == EditedBy(d.steps, edits) && Highest(d.steps) + |edits| <= U64_MAX
    requires forall k :: 0 <= k < |edits| ==> WritableEdit(edits[k])
    ensures Parse(Render(d.(steps := steps))) == Ok(d.(steps := steps))
    ensures |d.steps| <= |steps|
    ensures forall i :: 0 <= i < |d.steps| ==>
              && steps[i].number == d.steps[i].number && steps[i].description == d.steps[i].description
              && (d.steps[i].done ==> steps[i].done)
  {
    EditsKeepWellFormed(d, edits, steps);
    RoundTripExactlyWhen(d.(steps := steps));
  }

  lemma {:induction false} EditsKeepWellFormed(d: Doc, edits: seq<Edit>, steps: seq<Step>)
    requires WellFormed(d) && steps == EditedBy(d.steps, edits) && Highest(d.steps) + |edits| <= U64_MAX
    requires forall k :: 0 <= k < |edits| ==> WritableEdit(edits[k])
    ensures WellFormed(d.(steps := steps)) && Highest(steps) <= Highest(d.steps) + |edits|
    ensures |d.steps| <= |steps|
    ensures forall i :: 0 <= i < |d.steps| ==>
              && steps[i].number == d.steps[i].number && steps[i].description == d.steps[i].description
              && (d.steps[i].done ==> steps[i].done)
  {
    hide WellFormed;
    if edits == [] {
      assert d.(steps := steps) == d;
    } else {
      var init, e := edits[..|edits| - 1], edits[|edits| - 1];
      var before := EditedBy(d.steps, init);
      EditsKeepWellFormed(d, init, before);
      assert WritableEdit(e);
      EditRaises(before, e);
      match e
      case Append(description) => AppendKeepsWellFormed(d.(steps := before), description);
      case Tick(number, commit, attempts) => TickKeepsWellFormed(d.(steps := before), number, commit, attempts);
    }
  }
}
