/** Which texts are plan documents, line by line. */
module ProgressReads {
  import opened Wrappers
  import opened Numbers
  import opened Markup
  import opened ProgressFile
  import T = Text

  // ---------------------------------------------------------------------------
  // One line

  /** A line that begins with a checkbox, ticked or not. */
  predicate HasBox(line: string) {
    |line| >= 4 && line[..3] == "- [" && line[3] in ['x', 'X', ' ']
  }

  /** The number is what stands before the first period that is followed by a space, the description what stands
      behind it. */
  lemma {:induction false} NumberedSays(line: string, after: string, done: bool)
    ensures (forall k: nat :: !FirstAt(after, ". ", k)) ==> ParseNumbered(line, after, done) == Err(MissingNumber(line))
    ensures forall k: nat :: FirstAt(after, ". ", k) ==> ParseNumbered(line, after, done) == Numbered(after, k, done)
  {
    FindIsFirst(after, ". ");
    hide StandsAt, FirstAt, Find, ParseNumber, T.Trim;
    forall k: nat | FirstAt(after, ". ", k) ensures Find(after, ". ") == Some(k) {
      if Find(after, ". ").Some? {
        FirstIsUnique(after, ". ", Find(after, ". ").value, k);
      } else {
        FirstIsThere(after, ". ", k);
      }
    }
  }

  /** The step whose number ends at position `k`. */
  function Numbered(after: string, k: nat, done: bool): Result<Option<Step>, Malformed>
    requires k + 2 <= |after|
  {
    var n := ParseNumber(T.Trim(after[..k]), U64_MAX);
    if n.None? then Err(BadNumber(after[..k])) else Ok(Some(Step(n.value, T.Trim(after[k + 2..]), done, None, 0)))
  }

  /** A step is a box, a number, a period, a space and a description; a line without a box is none, and a box without
      the rest is an error. */
  lemma {:induction false} StepLineSays(line: string)
    ensures !HasBox(line) ==> ParseStepLine(line) == Ok(None)
    ensures HasBox(line) && !("] " <= line[4..]) ==> ParseStepLine(line) == Err(BadCheckbox(line))
    ensures HasBox(line) && "] " <= line[4..] && (forall k: nat :: !FirstAt(line[6..], ". ", k)) ==>
              ParseStepLine(line) == Err(MissingNumber(line))
    ensures forall k: nat :: HasBox(line) && "] " <= line[4..] && FirstAt(line[6..], ". ", k) ==>
              ParseStepLine(line) == Numbered(line[6..], k, line[3] != ' ')
  {
    hide FirstAt, ParseNumbered, Numbered;
    if HasBox(line) {
      BoxRest(line);
      if "] " <= line[4..] {
        NumberedSays(line, line[6..], line[3] != ' ');
        assert line[4..][2..] == line[6..];
      }
    } else {
      NoBox(line);
    }
  }

  lemma {:induction false} BoxRest(line: string)
    requires HasBox(line)
    ensures StripPrefix(line, "- [") == Some(line[3..]) && line[3..][0] == line[3] && line[3..][1..] == line[4..]
    ensures line[3] in "xX " && (line[3] in "xX" <==> line[3] != ' ')
  {
  }

  lemma {:induction false} NoBox(line: string)
    requires !HasBox(line)
    ensures ParseStepLine(line) == Ok(None)
  {
  }

  // ---------------------------------------------------------------------------
  // All lines

  /** What a line is, its leading space aside. */
  function Row(line: string): Result<Option<Step>, Malformed> {
    ParseStepLine(T.TrimStart(line))
  }

  predicate IsStep(line: string) {
    Row(line).Ok? && Row(line).value.Some?
  }

  predicate StepNumbered(line: string, number: nat) {
    IsStep(line) && Row(line).value.value.number == number
  }

  /** A count of attempts that is no number. */
  predicate HasBadAttempts(line: string) {
    && Row(line) == Ok(None)
    && var meta := ParseMetaLine(T.TrimStart(line));
       meta.Some? && meta.value.0 == "attempts" && ParseNumber(meta.value.1, U32_MAX).None?
  }

  /** Every step can be read, no number comes twice, and every count of attempts below a step is a number. */
  ghost predicate Readable(lines: seq<string>) {
    && (forall i :: 0 <= i < |lines| ==> Row(lines[i]).Ok?)
    && (forall i, j, number :: 0 <= i < j < |lines| && StepNumbered(lines[i], number) ==> !StepNumbered(lines[j], number))
    && (forall i, j :: 0 <= i < j < |lines| && IsStep(lines[i]) ==> !HasBadAttempts(lines[j]))
  }

  /** The steps as their own lines give them. */
  function StepsIn(lines: seq<string>): seq<Step> {
    if lines == [] then []
    else
      var last := lines[|lines| - 1];
      StepsIn(lines[..|lines| - 1]) + if IsStep(last) then [Row(last).value.value] else []
  }

  /** The steps but for what the lines below say of them. */
  ghost predicate SameSteps(steps: seq<Step>, rows: seq<Step>) {
    |steps| == |rows| && forall i :: 0 <= i < |rows| ==> steps[i].(commit := None, attempts := 0) == rows[i].(commit := None, attempts := 0)
  }

  /** A line that is no step speaks of the step above it only: it may name its commit or count its attempts, behind the
      first colon of a bullet. */
  lemma {:induction false} MetaSays(steps: seq<Step>, line: string, n: nat)
    requires Row(line) == Ok(None) && |steps| == n + 1
    ensures var t, now := T.TrimStart(line), TakeLine(steps, line);
            && (!("- " <= t) || (forall k: nat :: !FirstAt(t[2..], ":", k)) ==> now == Ok(steps))
            && forall k: nat :: "- " <= t && FirstAt(t[2..], ":", k) ==>
                 var key, value := T.Trim(t[2..][..k]), T.Trim(t[2..][k + 1..]);
                 now == (if key == "commit" then Ok(steps[n := steps[n].(commit := Some(value))])
                         else if key != "attempts" then Ok(steps)
                         else match ParseNumber(value, U32_MAX)
                           case None => Err(BadAttempts(value))
                           case Some(attempts) => Ok(steps[n := steps[n].(attempts := attempts)]))
  {
    hide StandsAt, FirstAt, Find, T.Trim, T.TrimStart, ParseStepLine, ParseNumber, HasNumber;
    var t := T.TrimStart(line);
    if "- " <= t {
      FindIsFirst(t[2..], ":");
      forall k: nat | FirstAt(t[2..], ":", k) ensures Find(t[2..], ":") == Some(k) {
        FirstIsThere(t[2..], ":", k);
        if Find(t[2..], ":").Some? {
          FirstIsUnique(t[2..], ":", Find(t[2..], ":").value, k);
        }
      }
    }
  }

  lemma {:induction false} MetaKeepsSteps(steps: seq<Step>, key: string, value: string)
    ensures TakeMeta(steps, key, value).Ok? <==> !(steps != [] && key == "attempts" && ParseNumber(value, U32_MAX).None?)
    ensures TakeMeta(steps, key, value).Ok? ==> SameSteps(TakeMeta(steps, key, value).value, steps)
  {
    hide ParseNumber;
  }

  lemma {:induction false} LineReads(steps: seq<Step>, line: string)
    ensures TakeLine(steps, line).Ok?
       <==> && Row(line).Ok?
            && (IsStep(line) ==> !HasNumber(steps, Row(line).value.value.number))
            && (HasBadAttempts(line) ==> steps == [])
    ensures TakeLine(steps, line).Ok? ==>
              SameSteps(TakeLine(steps, line).value, steps + if IsStep(line) then [Row(line).value.value] else [])
  {
    hide ParseStepLine, ParseMetaLine, ParseNumber, HasNumber, TakeMeta;
    var meta := ParseMetaLine(T.TrimStart(line));
    if meta.Some? {
      MetaKeepsSteps(steps, meta.value.0, meta.value.1);
    }
  }

  /** The lines read so far: their steps, by number. */
  lemma {:induction false} StepsInAre(lines: seq<string>)
    ensures forall number :: HasNumber(StepsIn(lines), number) <==> exists i :: 0 <= i < |lines| && StepNumbered(lines[i], number)
    ensures StepsIn(lines) == [] <==> forall i :: 0 <= i < |lines| ==> !IsStep(lines[i])
  {
    hide Row;
    if lines != [] {
      var init, last := lines[..|lines| - 1], lines[|lines| - 1];
      StepsInAre(init);
      NumbersGrow(StepsIn(init), if IsStep(last) then [Row(last).value.value] else []);
      assert forall i :: 0 <= i < |init| ==> lines[i] == init[i];
    }
  }

  lemma {:induction false} NumbersGrow(steps: seq<Step>, more: seq<Step>)
    ensures forall number :: HasNumber(steps + more, number) <==> HasNumber(steps, number) || HasNumber(more, number)
    ensures forall number :: |more| == 1 ==> (HasNumber(more, number) <==> more[0].number == number)
  {
    forall number | HasNumber(steps, number) || HasNumber(more, number) ensures HasNumber(steps + more, number) {
      if HasNumber(steps, number) {
        var i :| 0 <= i < |steps| && steps[i].number == number;
        assert (steps + more)[i] == steps[i];
      } else {
        var i :| 0 <= i < |more| && more[i].number == number;
        assert (steps + more)[|steps| + i] == more[i];
      }
    }
  }

  lemma {:induction false} SameNumbers(steps: seq<Step>, rows: seq<Step>, number: nat)
    requires SameSteps(steps, rows)
    ensures HasNumber(steps, number) <==> HasNumber(rows, number)
  {
    assert forall i :: 0 <= i < |rows| ==> steps[i].(commit := None, attempts := 0).number == rows[i].(commit := None, attempts := 0).number;
  }

  lemma {:induction false} ReadableGrows(lines: seq<string>)
    requires lines != []
    ensures var init, last := lines[..|lines| - 1], lines[|lines| - 1];
            Readable(lines) <==>
            && Readable(init) && Row(last).Ok?
            && (forall i, number :: 0 <= i < |init| && StepNumbered(last, number) ==> !StepNumbered(init[i], number))
            && (HasBadAttempts(last) ==> forall i :: 0 <= i < |init| ==> !IsStep(init[i]))
  {
    hide Row, HasBadAttempts, IsStep, StepNumbered;
    var init, n := lines[..|lines| - 1], |lines| - 1;
    assert forall i :: 0 <= i < n ==> init[i] == lines[i];
    if Readable(lines) {
      forall i, number | 0 <= i < |init| && StepNumbered(lines[n], number) ensures !StepNumbered(init[i], number) {
        assert init[i] == lines[i];
      }
      assert HasBadAttempts(lines[n]) ==> forall i :: 0 <= i < n ==> !IsStep(lines[i]);
    }
  }

  /** The lines can be read exactly when they are readable; the steps read are those of their own lines, in order. */
  lemma {:induction false} LinesReadExactlyWhen(lines: seq<string>)
    ensures TakeLines(lines).Ok? <==> Readable(lines)
    ensures TakeLines(lines).Ok? ==> SameSteps(TakeLines(lines).value, StepsIn(lines))
  {
    hide Row, HasBadAttempts, TakeLine, HasNumber;
    if lines != [] {
      var init, last := lines[..|lines| - 1], lines[|lines| - 1];
      LinesReadExactlyWhen(init);
      ReadableGrows(lines);
      if TakeLines(init).Ok? {
        var steps := TakeLines(init).value;
        LineReads(steps, last);
        StepsInAre(init);
        if IsStep(last) {
          SameNumbers(steps, StepsIn(init), Row(last).value.value.number);
        }
        hide Readable;
      }
    }
  }

  /** A text is a plan document exactly when it has a titled first title line, a named first branch line, and readable
      lines; it then has the steps its lines have, in order. */
  lemma {:induction false} ParsesExactlyWhen(text: string)
    ensures var lines := T.Lines(ReplaceCrlf(text));
            && (Parse(text).Ok? <==> TitleAfter(lines, "# Progress:").Some? && TitleAfter(lines, "Branch:").Some? && Readable(lines))
            && (Parse(text).Ok? ==> SameSteps(Parse(text).value.steps, StepsIn(lines)))
  {
    hide Readable, SameSteps, TakeLines, StepsIn, TitleAfter, ReplaceCrlf;
    LinesReadExactlyWhen(T.Lines(ReplaceCrlf(text)));
  }
}
