/** The decision log: dated entries with ids, appended while a run deviates from its plan. */
module DecisionsFile {
  import opened Wrappers
  import opened Numbers
  import opened Markup
  import opened TextLines
  import T = Text

  const SEPARATOR := " \U{B7} "

  datatype Decision = Decision(
    id: string, date: string, title: string, decision: string, rationale: string, refs: string)

  datatype Log = Log(name: string, entries: seq<Decision>)

  datatype Malformed = MissingTitle

  // ---------------------------------------------------------------------------
  // Reading

  /** The body of a bullet that opens an entry. */
  function HeaderBody(trimmed: string): Option<string> {
    var body := StripPrefix(trimmed, "- ");
    if body.Some? && "D" <= body.value && Find(body.value, SEPARATOR).Some? then body else None
  }

  /** Id, date and title; what follows the second separator is all title. */
  function ReadHeader(body: string): Decision {
    var first := SplitOnce(body, SEPARATOR);
    if first.None? then Decision(T.Trim(body), "", "", "", "", "")
    else
      var second := SplitOnce(first.value.1, SEPARATOR);
      if second.None? then Decision(T.Trim(first.value.0), T.Trim(first.value.1), "", "", "", "")
      else Decision(T.Trim(first.value.0), T.Trim(second.value.0), T.Trim(second.value.1), "", "", "")
  }

  /** A field bullet fills in the entry above it. */
  function TakeField(e: Decision, trimmed: string): Decision {
    var decision, rationale, refs :=
      StripPrefix(trimmed, "- decision:"), StripPrefix(trimmed, "- rationale:"), StripPrefix(trimmed, "- refs:");
    if decision.Some? then e.(decision := T.Trim(decision.value))
    else if rationale.Some? then e.(rationale := T.Trim(rationale.value))
    else if refs.Some? then e.(refs := T.Trim(refs.value))
    else e
  }

  function TakeLine(entries: seq<Decision>, line: string): seq<Decision> {
    var trimmed := T.Trim(line);
    var header := HeaderBody(trimmed);
    if header.Some? then entries + [ReadHeader(header.value)]
    else if entries == [] then []
    else entries[..|entries| - 1] + [TakeField(entries[|entries| - 1], trimmed)]
  }

  function TakeLines(lines: seq<string>): seq<Decision> {
    if lines == [] then [] else TakeLine(TakeLines(lines[..|lines| - 1]), lines[|lines| - 1])
  }

  function Parse(text: string): Result<Log, Malformed> {
    var lines := T.Lines(ReplaceCrlf(text));
    var name := TitleAfter(lines, "# Decisions:");
    if name.None? then Err(MissingTitle) else Ok(Log(name.value, TakeLines(lines)))
  }

  method ParseText(text: string) returns (r: Result<Log, Malformed>)
    ensures r == Parse(text)
  {
    hide HeaderBody, ReadHeader, TakeField, TitleAfter, ReplaceCrlf;
    var lines := T.Lines(ReplaceCrlf(text));
    var name := TitleAfter(lines, "# Decisions:");
    if name.None? {
      return Err(MissingTitle);
    }
    var entries: seq<Decision> := [];
    assert lines[..0] == [];
    for i := 0 to |lines|
      invariant entries == TakeLines(lines[..i])
    {
      assert lines[..i + 1][..i] == lines[..i];
      var trimmed := T.Trim(lines[i]);
      var header := HeaderBody(trimmed);
      if header.Some? {
        entries := entries + [ReadHeader(header.value)];
      } else if entries != [] {
        var last := entries[|entries| - 1];
        entries := entries[..|entries| - 1] + [TakeField(last, trimmed)];
      }
    }
    assert lines[..|lines|] == lines;
    r := Ok(Log(name.value, entries));
  }

  // ---------------------------------------------------------------------------
  // Writing

  function HeaderLine(e: Decision): string {
    "- " + (e.id + SEPARATOR + (e.date + SEPARATOR + e.title))
  }

  function EntryLines(e: Decision): seq<string> {
    [HeaderLine(e), "  - decision: " + e.decision, "  - rationale: " + e.rationale, "  - refs: " + e.refs, ""]
  }

  function LogLines(entries: seq<Decision>): seq<string> {
    if entries == [] then [] else LogLines(entries[..|entries| - 1]) + EntryLines(entries[|entries| - 1])
  }

  function HeadLines(name: string): seq<string> {
    ["# Decisions: " + name, ""]
  }

  function Render(d: Log): string {
    Unlines(HeadLines(d.name) + LogLines(d.entries))
  }

  method RenderText(d: Log) returns (out: string)
    ensures out == Render(d)
  {
    hide Unlines, HeaderLine;
    out := "# Decisions: " + d.name + "\n\n";
    HeadText(d.name);
    ghost var head := HeadLines(d.name);
    assert d.entries[..0] == [] && head + [] == head;
    for i := 0 to |d.entries|
      invariant out == Unlines(head + LogLines(d.entries[..i]))
    {
      assert d.entries[..i + 1][..i] == d.entries[..i];
      ghost var before := head + LogLines(d.entries[..i]);
      out := PushEntry(out, d.entries[i], before);
      assert before + EntryLines(d.entries[i]) == head + LogLines(d.entries[..i + 1]);
    }
    assert d.entries[..|d.entries|] == d.entries;
  }

  method PushEntry(out: string, e: Decision, ghost before: seq<string>) returns (r: string)
    requires out == Unlines(before)
    ensures r == Unlines(before + EntryLines(e))
  {
    hide Unlines, HeaderLine;
    var lines := EntryLines(e);
    r := out + HeaderLine(e) + "\n";
    UnlinesPush(before, lines[0]);
    assert before + lines[..1] == before + [lines[0]];
    for k := 1 to 5
      invariant r == Unlines(before + lines[..k])
    {
      r := r + lines[k] + "\n";
      UnlinesPush(before + lines[..k], lines[k]);
      assert before + lines[..k + 1] == before + lines[..k] + [lines[k]];
    }
    assert lines[..5] == lines;
  }

  lemma {:induction false} HeadText(name: string)
    ensures "# Decisions: " + name + "\n\n" == Unlines(HeadLines(name))
  {
    hide Unlines;
    var title := "# Decisions: " + name;
    UnlinesNone();
    UnlinesPush([], title);
    UnlinesPush([title], "");
    assert [] + [title] == [title] && [title] + [""] == HeadLines(name);
    assert title + "\n" + "" + "\n" == title + "\n\n";
  }

  // ---------------------------------------------------------------------------
  // Appending

  /** The number of a `D`-style id. */
  function NumericId(id: string): Option<nat> {
    var digits := StripPrefix(id, "D");
    if digits.None? then None else ParseNumber(digits.value, U32_MAX)
  }

  function HighestId(entries: seq<Decision>): nat {
    if entries == [] then 0
    else
      var rest, last := HighestId(entries[..|entries| - 1]), NumericId(entries[|entries| - 1].id);
      if last.Some? && rest < last.value then last.value else rest
  }

  /** A number in at least three digits. */
  function Padded(n: nat): string {
    if n < 10 then "00" + Decimal(n) else if n < 100 then "0" + Decimal(n) else Decimal(n)
  }

  function NextId(entries: seq<Decision>): string {
    "D" + Padded(HighestId(entries) + 1)
  }

  function Appended(entries: seq<Decision>, e: Decision): seq<Decision> {
    entries + [e.(id := NextId(entries))]
  }

  class DecisionLog {
    var name: string
    var entries: seq<Decision>

    constructor (d: Log)
      ensures Contents() == d
    {
      name, entries := d.name, d.entries;
    }

    function Contents(): Log
      reads this
    {
      Log(name, entries)
    }

    method Append(date: string, title: string, decision: string, rationale: string, refs: string) returns (id: string)
      modifies this
      ensures id == NextId(old(entries))
      ensures Contents() == Log(old(name), old(entries) + [Decision(id, date, title, decision, rationale, refs)])
    {
      var highest: nat := 0;
      assert entries[..0] == [];
      for i := 0 to |entries|
        invariant entries == old(entries) && name == old(name)
        invariant highest == HighestId(entries[..i])
      {
        assert entries[..i + 1][..i] == entries[..i];
        var number := NumericId(entries[i].id);
        if number.Some? && highest < number.value {
          highest := number.value;
        }
      }
      assert entries[..|entries|] == entries;
      id := "D" + Padded(highest + 1);
      entries := entries + [Decision(id, date, title, decision, rationale, refs)];
    }
  }
}
