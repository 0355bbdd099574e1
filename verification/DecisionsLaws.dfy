/** Reading back a decision log, and appending to it. */
module DecisionsLaws {
  import opened Wrappers
  import opened Numbers
  import opened Markup
  import opened TextLines
  import opened DecisionsFile
  import T = Text

  /** One-line values, and an id that opens an entry. */
  ghost predicate PrintableEntry(e: Decision) {
    && Field(e.id) && Field(e.date) && Field(e.title)
    && Field(e.decision) && Field(e.rationale) && Field(e.refs)
    && "D" <= e.id
  }

  /** A value whose end is found by the first separator after it. */
  predicate Unsplit(s: string) {
    Find(s + SEPARATOR, SEPARATOR) == Some(|s|)
  }

  predicate Splittable(e: Decision) {
    Unsplit(e.id) && Unsplit(e.date) && e.title != ""
  }

  ghost predicate Printable(d: Log) {
    && Field(d.name) && d.name != ""
    && forall i :: 0 <= i < |d.entries| ==> PrintableEntry(d.entries[i])
  }

  ghost predicate WellFormed(d: Log) {
    Printable(d) && forall i :: 0 <= i < |d.entries| ==> Splittable(d.entries[i])
  }

  // ---------------------------------------------------------------------------
  // Headers

  lemma {:induction false} FindStable(s: string, t: string, sub: string)
    requires Find(s, sub).Some?
    ensures Find(s + t, sub) == Find(s, sub)
  {
    if !(sub <= s) {
      assert (s + t)[1..] == s[1..] + t;
      FindStable(s[1..], t, sub);
      assert forall i :: 0 <= i < |sub| ==> (s + t)[i] == s[i];
    }
  }

  lemma {:induction false} FindBy(a: string, sub: string, rest: string)
    ensures Find(a + sub + rest, sub).Some? && Find(a + sub + rest, sub).value <= |a|
  {
    var s := a + sub + rest;
    if a == "" {
      assert s == sub + rest;
    } else {
      FindBy(a[1..], sub, rest);
      assert s[1..] == a[1..] + sub + rest;
    }
  }

  /** The first separator ends `a` exactly when `a` is unsplit. */
  lemma {:induction false} SplitsWhere(a: string, rest: string)
    ensures Find(a + SEPARATOR + rest, SEPARATOR) == Find(a + SEPARATOR, SEPARATOR)
    ensures Find(a + SEPARATOR, SEPARATOR).Some? && Find(a + SEPARATOR, SEPARATOR).value <= |a|
  {
    hide Find;
    FindBy(a, SEPARATOR, "");
    assert a + SEPARATOR + "" == a + SEPARATOR;
    FindStable(a + SEPARATOR, rest, SEPARATOR);
  }

  lemma {:induction false} TrimShrinks(s: string)
    ensures |T.Trim(s)| <= |s|
  {
    TrimStartEnds(s);
    TrimEndEnds(T.TrimStart(s));
  }

  /** What the first separator cuts off is `a` exactly when `a` is unsplit. */
  lemma {:induction false} CutIs(a: string, rest: string)
    requires Field(a)
    ensures SplitOnce(a + SEPARATOR + rest, SEPARATOR).Some?
    ensures T.Trim(SplitOnce(a + SEPARATOR + rest, SEPARATOR).value.0) == a <==> Unsplit(a)
    ensures Unsplit(a) ==> SplitOnce(a + SEPARATOR + rest, SEPARATOR).value.1 == rest
  {
    hide Find, T.Trim;
    var s := a + SEPARATOR + rest;
    SplitsWhere(a, rest);
    var k := Find(s, SEPARATOR).value;
    TrimShrinks(s[..k]);
    if k == |a| {
      assert s[..k] == a && s[k + |SEPARATOR|..] == rest;
    }
  }

  /** The header as read: a missing title takes the space after the last separator with it. */
  function HeaderText(e: Decision): string {
    e.id + SEPARATOR + if e.title == "" then e.date + " \U{B7}" else e.date + SEPARATOR + e.title
  }

  lemma {:induction false} DropsSpace(s: string, c: char)
    requires !T.IsSpace(c) && s != "" && !T.IsSpace(s[0])
    ensures T.Trim(s + [c] + " ") == s + [c] && T.Trim(s + [c]) == s + [c]
  {
    var t := s + [c];
    BlankStart();
    hide T.IsSpace;
    assert (t + " ")[..|t|] == t && (t + " ")[|t|] == ' ';
    assert T.TrimStart(t + " ") == t + " " && T.TrimStart(t) == t;
    TrimEndEnds(t);
    assert T.TrimEnd(t + " ") == T.TrimEnd(t) == t;
  }

  lemma {:induction false} HeaderTrims(e: Decision)
    requires PrintableEntry(e)
    ensures T.Trim(HeaderLine(e)) == "- " + HeaderText(e)
    ensures HeaderBody("- " + HeaderText(e)) == Some(HeaderText(e))
  {
    hide T.Trim, Find;
    var text := HeaderText(e);
    if e.title == "" {
      var s := "- " + (e.id + SEPARATOR + (e.date + " "));
      assert HeaderLine(e) == s + ['\U{B7}'] + " " && "- " + text == s + ['\U{B7}'];
      DropsSpace(s, '\U{B7}');
    } else {
      assert HeaderLine(e) == "- " + text;
      TrimIsBare(e.title);
      assert HeaderLine(e)[|HeaderLine(e)| - 1] == e.title[|e.title| - 1];
      TrimIsBare(HeaderLine(e));
    }
    StripsPrefix("- ", text);
    SplitsWhere(e.id, if e.title == "" then e.date + " \U{B7}" else e.date + SEPARATOR + e.title);
    assert text[0] == e.id[0];
  }

  predicate SameHeader(a: Decision, b: Decision) {
    a.id == b.id && a.date == b.date && a.title == b.title
  }

  /** The date as read when there is no title. */
  function UntitledDate(date: string): string {
    var second := SplitOnce(date + " \U{B7}", SEPARATOR);
    T.Trim(if second.None? then date + " \U{B7}" else second.value.0)
  }

  /** Without a title the date is never read back. */
  lemma {:induction false} NoTitleNoDate(date: string)
    requires Field(date)
    ensures UntitledDate(date) != date
  {
    hide Find;
    var text := date + " \U{B7}";
    var second := SplitOnce(text, SEPARATOR);
    if second.None? {
      TrimIsBare(date);
      TrimIsBare(text);
      if date == "" {
        TrimStartEnds(text);
        TrimEndEnds(T.TrimStart(text));
      }
    } else {
      TrimShrinks(second.value.0);
    }
  }

  /** A header is read back exactly when its parts can be told apart and there is a title. */
  lemma {:induction false} HeaderReads(e: Decision)
    requires PrintableEntry(e)
    ensures SameHeader(ReadHeader(HeaderText(e)), e) <==> Splittable(e)
  {
    hide Unsplit, SplitOnce, T.Trim;
    var text := HeaderText(e);
    if e.title == "" {
      CutIs(e.id, e.date + " \U{B7}");
      NoTitleNoDate(e.date);
    } else {
      CutIs(e.id, e.date + SEPARATOR + e.title);
      CutIs(e.date, e.title);
    }
  }

  // ---------------------------------------------------------------------------
  // The whole log

  /** An entry as it is read back. */
  function Reread(e: Decision): Decision {
    ReadHeader(HeaderText(e)).(decision := e.decision, rationale := e.rationale, refs := e.refs)
  }

  function RereadAll(entries: seq<Decision>): seq<Decision> {
    seq(|entries|, i requires 0 <= i < |entries| => Reread(entries[i]))
  }

  lemma {:induction false} TakePush(lines: seq<string>, line: string)
    ensures TakeLines(lines + [line]) == TakeLine(TakeLines(lines), line)
  {
    hide TakeLine;
    assert (lines + [line])[..|lines|] == lines;
  }

  /** A field bullet, trimmed: an empty value takes its space with it. */
  lemma {:induction false} FieldTrims(key: string, value: string)
    requires Field(value) && key in {"decision:", "rationale:", "refs:"}
    ensures T.Trim("  - " + key + " " + value) == "- " + key + if value == "" then "" else " " + value
  {
    hide T.IsSpace;
    var line, bare := "  - " + key + " " + value, "- " + key;
    BlankStart();
    assert line[1..][1..] == bare + " " + value;
    assert T.TrimStart(line) == T.TrimStart(bare + " " + value) == bare + " " + value;
    TrimIsBare(value);
    hide T.TrimStart;
    if value == "" {
      assert key[|key| - 1] == ':';
      assert bare + " " + value == bare + " " && (bare + " ")[..|bare|] == bare;
      assert bare[|bare| - 1] == ':';
      TrimEndEnds(bare);
    } else {
      assert (bare + " " + value)[|bare + " " + value| - 1] == value[|value| - 1];
      TrimEndEnds(bare + " " + value);
      assert bare + " " + value == bare + (" " + value);
    }
  }

  lemma {:induction false} BlankStart()
    ensures T.IsSpace(' ') && !T.IsSpace('-') && !T.IsSpace(':')
  {
  }

  function WithField(e: Decision, key: string, value: string): Decision {
    if key == "decision:" then e.(decision := value)
    else if key == "rationale:" then e.(rationale := value)
    else e.(refs := value)
  }

  lemma {:induction false} FieldTaken(e: Decision, key: string, rest: string)
    requires key in {"decision:", "rationale:", "refs:"}
    ensures TakeField(e, "- " + key + rest) == WithField(e, key, T.Trim(rest))
  {
    hide T.Trim;
    StripsPrefix("- " + key, rest);
    OtherKeys(key, rest);
  }

  /** The field bullets fill in the entry above them, each its own field. */
  lemma {:induction false} FieldReads(init: seq<Decision>, e: Decision, key: string, value: string)
    requires Field(value) && key in {"decision:", "rationale:", "refs:"}
    ensures TakeLine(init + [e], "  - " + key + " " + value) == init + [WithField(e, key, value)]
  {
    FieldTrims(key, value);
    var rest := if value == "" then "" else " " + value;
    NoHeader(key, rest);
    FieldTaken(e, key, rest);
    TrimLeading(value);
    TrimIsBare("");
    hide T.Trim, HeaderBody, TakeField, WithField;
    assert (init + [e])[..|init|] == init;
  }

  lemma {:induction false} NoHeader(key: string, rest: string)
    requires key in {"decision:", "rationale:", "refs:"}
    ensures HeaderBody("- " + key + rest) == None
  {
    hide Find;
    assert "- " + key + rest == "- " + (key + rest);
    StripsPrefix("- ", key + rest);
    assert (key + rest)[0] == key[0];
  }

  lemma {:induction false} OtherKeys(key: string, rest: string)
    requires key in {"decision:", "rationale:", "refs:"}
    ensures key != "decision:" ==> StripPrefix("- " + key + rest, "- decision:") == None
    ensures key == "refs:" ==> StripPrefix("- " + key + rest, "- rationale:") == None
  {
    var s := "- " + key + rest;
    assert s[2] == key[0] && s[3] == key[1];
    assert "- decision:"[2] == 'd' && "- rationale:"[3] == 'a';
  }

  lemma {:induction false} BlankReads(entries: seq<Decision>)
    ensures TakeLine(entries, "") == entries
  {
    hide ReadHeader, Find;
    assert T.Trim("") == "";
    if entries != [] {
      assert entries[..|entries| - 1] + [entries[|entries| - 1]] == entries;
    }
  }

  lemma {:induction false} HeaderTaken(entries: seq<Decision>, e: Decision)
    requires PrintableEntry(e)
    ensures TakeLine(entries, HeaderLine(e)) == entries + [ReadHeader(HeaderText(e))]
  {
    hide T.Trim, HeaderBody, ReadHeader, HeaderText;
    HeaderTrims(e);
  }

  lemma {:induction false} EntryReads(lines: seq<string>, e: Decision)
    requires PrintableEntry(e)
    ensures TakeLines(lines + EntryLines(e)) == TakeLines(lines) + [Reread(e)]
  {
    hide TakeLine, TakeLines, ReadHeader, HeaderText, HeaderLine, Field;
    var before, added := TakeLines(lines), EntryLines(e);
    HeaderTaken(before, e);
    var r := ReadHeader(HeaderText(e));
    FieldReads(before, r, "decision:", e.decision);
    FieldReads(before, r.(decision := e.decision), "rationale:", e.rationale);
    FieldReads(before, r.(decision := e.decision, rationale := e.rationale), "refs:", e.refs);
    BlankReads(before + [Reread(e)]);
    KeyTexts(e);
    TakeFive(lines, added);
  }

  lemma {:induction false} KeyTexts(e: Decision)
    ensures "  - decision: " + e.decision == "  - " + "decision:" + " " + e.decision
    ensures "  - rationale: " + e.rationale == "  - " + "rationale:" + " " + e.rationale
    ensures "  - refs: " + e.refs == "  - " + "refs:" + " " + e.refs
  {
  }

  lemma {:induction false} TakeFive(lines: seq<string>, added: seq<string>)
    requires |added| == 5
    ensures TakeLines(lines + added)
         == TakeLine(TakeLine(TakeLine(TakeLine(TakeLine(TakeLines(lines), added[0]), added[1]), added[2]), added[3]), added[4])
  {
    hide TakeLine, TakeLines;
    TakePush(lines, added[0]);
    TakePush(lines + added[..1], added[1]);
    TakePush(lines + added[..2], added[2]);
    TakePush(lines + added[..3], added[3]);
    TakePush(lines + added[..4], added[4]);
    assert lines + added[..1] == lines + [added[0]];
    assert lines + added[..2] == lines + added[..1] + [added[1]];
    assert lines + added[..3] == lines + added[..2] + [added[2]];
    assert lines + added[..4] == lines + added[..3] + [added[3]];
    assert lines + added == lines + added[..4] + [added[4]];
  }

  lemma {:induction false} EntriesRead(lines: seq<string>, entries: seq<Decision>)
    requires TakeLines(lines) == [] && forall i :: 0 <= i < |entries| ==> PrintableEntry(entries[i])
    ensures TakeLines(lines + LogLines(entries)) == RereadAll(entries)
  {
    hide TakeLines, EntryLines, PrintableEntry, Reread;
    if entries == [] {
      assert lines + LogLines(entries) == lines && RereadAll(entries) == [];
    } else {
      var init, e := entries[..|entries| - 1], entries[|entries| - 1];
      EntriesRead(lines, init);
      EntryReads(lines + LogLines(init), e);
      assert lines + LogLines(entries) == lines + LogLines(init) + EntryLines(e);
      assert RereadAll(entries) == RereadAll(init) + [Reread(e)];
    }
  }

  lemma {:induction false} HeadReads(name: string)
    ensures TakeLines(HeadLines(name)) == []
  {
    hide TakeLine;
    var title := "# Decisions: " + name;
    NothingRead();
    hide TakeLines;
    TakePush([], title);
    TakePush([title], "");
    assert [] + [title] == [title] && [title] + [""] == HeadLines(name);
    TitleTaken(title);
    BlankReads([]);
  }

  lemma {:induction false} NothingRead()
    ensures TakeLines([]) == []
  {
  }

  lemma {:induction false} TitleTaken(title: string)
    requires title != "" && title[0] == '#'
    ensures TakeLine([], title) == []
  {
    hide ReadHeader, Find, T.TrimEnd;
    TrimStartEnds(title);
    TrimEndEnds(title);
    assert T.TrimStart(title) == title && T.Trim(title) <= title;
  }

  lemma {:induction false} EntryPlain(e: Decision)
    requires PrintableEntry(e)
    ensures forall i :: 0 <= i < 5 ==> PlainLine(EntryLines(e)[i])
  {
    hide Field;
    EndsPlain("  - decision: ", e.decision);
    EndsPlain("  - rationale: ", e.rationale);
    EndsPlain("  - refs: ", e.refs);
    HeaderPlain(e);
  }

  lemma {:induction false} HeaderPlain(e: Decision)
    requires PrintableEntry(e)
    ensures PlainLine(HeaderLine(e))
  {
    var prefix := "- " + (e.id + SEPARATOR + (e.date + SEPARATOR));
    assert HeaderLine(e) == prefix + e.title;
    EndsPlain(prefix, e.title);
  }

  lemma {:induction false} LogPlain(entries: seq<Decision>)
    requires forall i :: 0 <= i < |entries| ==> PrintableEntry(entries[i])
    ensures forall i :: 0 <= i < |LogLines(entries)| ==> PlainLine(LogLines(entries)[i])
  {
    hide PlainLine, PrintableEntry;
    if entries != [] {
      LogPlain(entries[..|entries| - 1]);
      EntryPlain(entries[|entries| - 1]);
      assert |EntryLines(entries[|entries| - 1])| == 5;
      hide EntryLines;
    }
  }

  /** A printable log is read back entry by entry. */
  lemma {:induction false} RenderReads(d: Log)
    requires Printable(d)
    ensures Parse(Render(d)) == Ok(d.(entries := RereadAll(d.entries)))
  {
    hide TakeLines, Unlines, TitleAfter, LogLines, ReplaceCrlf, T.Lines, PrintableEntry;
    var lines := HeadLines(d.name) + LogLines(d.entries);
    EndsPlain("# Decisions: ", d.name);
    LogPlain(d.entries);
    LinesRoundTrip(lines);
    HeadReads(d.name);
    EntriesRead(HeadLines(d.name), d.entries);
    var title := "# Decisions: " + d.name;
    assert title == "# Decisions:" + " " + d.name;
    assert lines == [title] + lines[1..];
    TitleReads(d.name, "# Decisions:", lines[1..]);
  }

  // ---------------------------------------------------------------------------
  // What reading gives

  lemma {:induction false} HeaderIsPrintable(trimmed: string, body: string)
    requires '\n' !in trimmed && HeaderBody(trimmed) == Some(body)
    ensures PrintableEntry(ReadHeader(body))
  {
    hide T.Trim, Find, Field;
    PartsWithin(body, SEPARATOR);
    var first := SplitOnce(body, SEPARATOR).value;
    PartsWithin(first.1, SEPARATOR);
    TrimIsField(first.0);
    TrimIsField(first.1);
    if SplitOnce(first.1, SEPARATOR).Some? {
      TrimIsField(SplitOnce(first.1, SEPARATOR).value.0);
      TrimIsField(SplitOnce(first.1, SEPARATOR).value.1);
    }
    EmptyIsField();
    IdStarts(body);
  }

  lemma {:induction false} EmptyIsField()
    ensures Field("")
  {
  }

  lemma {:induction false} IdStarts(body: string)
    requires "D" <= body && SplitOnce(body, SEPARATOR).Some?
    ensures "D" <= T.Trim(SplitOnce(body, SEPARATOR).value.0)
  {
    var k := Find(body, SEPARATOR).value;
    assert SEPARATOR[0] == ' ' && body[0] == 'D';
    assert k > 0;
    var part := body[..k];
    assert part[0] == 'D';
    hide Find, T.TrimEnd;
    assert T.TrimStart(part) == part;
    TrimEndKeepsFirst(part);
  }

  lemma {:induction false} TrimEndKeepsFirst(s: string)
    requires s != "" && !T.IsSpace(s[0])
    ensures T.TrimEnd(s) != "" && T.TrimEnd(s)[0] == s[0]
  {
    if T.IsSpace(s[|s| - 1]) {
      TrimEndKeepsFirst(s[..|s| - 1]);
    }
  }

  lemma {:induction false} TakeFieldIsPrintable(e: Decision, trimmed: string)
    requires PrintableEntry(e) && '\n' !in trimmed
    ensures PrintableEntry(TakeField(e, trimmed))
  {
    hide T.Trim, Field;
    if StripPrefix(trimmed, "- decision:").Some? {
      TrimIsField(StripPrefix(trimmed, "- decision:").value);
    } else if StripPrefix(trimmed, "- rationale:").Some? {
      TrimIsField(StripPrefix(trimmed, "- rationale:").value);
    } else if StripPrefix(trimmed, "- refs:").Some? {
      TrimIsField(StripPrefix(trimmed, "- refs:").value);
    }
  }

  lemma {:induction false} LinesArePrintable(lines: seq<string>)
    requires forall i :: 0 <= i < |lines| ==> '\n' !in lines[i]
    ensures forall i :: 0 <= i < |TakeLines(lines)| ==> PrintableEntry(TakeLines(lines)[i])
  {
    hide T.Trim, HeaderBody, ReadHeader, TakeField, PrintableEntry;
    if lines != [] {
      LinesArePrintable(lines[..|lines| - 1]);
      var line, before := lines[|lines| - 1], TakeLines(lines[..|lines| - 1]);
      var trimmed := T.Trim(line);
      TrimIsBare(line);
      assert '\n' !in trimmed;
      if HeaderBody(trimmed).Some? {
        HeaderIsPrintable(trimmed, HeaderBody(trimmed).value);
      } else if before != [] {
        TakeFieldIsPrintable(before[|before| - 1], trimmed);
      }
    }
  }

  lemma {:induction false} ParseIsPrintable(text: string)
    ensures Parse(text).Ok? ==> Printable(Parse(text).value)
  {
    hide TakeLines, TitleAfter, PrintableEntry, Field, T.Lines, ReplaceCrlf;
    LinesAreSingle(ReplaceCrlf(text));
    LinesArePrintable(T.Lines(ReplaceCrlf(text)));
    TitleIsField(T.Lines(ReplaceCrlf(text)), "# Decisions:");
  }

  lemma {:induction false} RereadExactlyWhen(entries: seq<Decision>)
    requires forall i :: 0 <= i < |entries| ==> PrintableEntry(entries[i])
    ensures RereadAll(entries) == entries <==> forall i :: 0 <= i < |entries| ==> Splittable(entries[i])
  {
    hide ReadHeader, HeaderText, PrintableEntry, Splittable;
    forall i | 0 <= i < |entries| ensures Reread(entries[i]) == entries[i] <==> Splittable(entries[i]) {
      HeaderReads(entries[i]);
    }
    hide Reread;
    assert forall i :: 0 <= i < |entries| ==> RereadAll(entries)[i] == Reread(entries[i]);
  }

  /** Writing a log and reading it back gives the log exactly when its fields fit their lines, its ids open
      entries, every title says something and the separators of a header can be told from its parts. */
  lemma {:induction false} RoundTripExactlyWhen(d: Log)
    ensures Parse(Render(d)) == Ok(d) <==> WellFormed(d)
  {
    hide Parse, Render, PrintableEntry, Splittable, Field;
    ParseIsPrintable(Render(d));
    if Printable(d) {
      RenderReads(d);
      RereadExactlyWhen(d.entries);
    }
  }

  /** An entry without a title is not read back as it was written. */
  lemma {:induction false} UntitledIsLost(d: Log)
    requires exists i :: 0 <= i < |d.entries| && d.entries[i].title == ""
    ensures Parse(Render(d)) != Ok(d)
  {
    hide Parse, Render, Field, Unsplit;
    RoundTripExactlyWhen(d);
  }

  // ---------------------------------------------------------------------------
  // Appending

  lemma {:induction false} PaddedParses(n: nat)
    requires n <= U32_MAX
    ensures ParseNumber(Padded(n), U32_MAX) == Some(n)
    ensures forall i :: 0 <= i < |Padded(n)| ==> IsDigit(Padded(n)[i])
  {
    DecimalParses(n);
    hide Decimal;
    LeadingZero(Decimal(n));
    LeadingZero("0" + Decimal(n));
    assert "0" + ("0" + Decimal(n)) == "00" + Decimal(n);
    assert IsDigit(Padded(n)[0]);
  }

  /** Ids up to 999 have three digits, and later ones no more than they need. */
  lemma {:induction false} PaddedIsThree(n: nat)
    ensures n < 1000 ==> |Padded(n)| == 3
    ensures n >= 100 ==> Padded(n) == Decimal(n)
  {
    DecimalLength(n);
    if n >= 10 {
      DecimalLength(n / 10);
    }
    hide Decimal;
  }

  lemma {:induction false} DecimalLength(n: nat)
    ensures n < 10 ==> |Decimal(n)| == 1
    ensures 10 <= n < 100 ==> |Decimal(n)| == 2
    ensures 100 <= n < 1000 ==> |Decimal(n)| == 3
  {
    if 100 <= n {
      DecimalLength(n / 10);
    }
  }

  lemma {:induction false} LeadingZero(s: string)
    ensures DigitsValue("0" + s) == DigitsValue(s)
  {
    if s == "" {
      assert ("0" + s)[..0] == "";
    } else {
      LeadingZero(s[..|s| - 1]);
      assert ("0" + s)[..|s|] == "0" + s[..|s| - 1];
    }
  }

  lemma {:induction false} HighestBounds(entries: seq<Decision>)
    ensures forall i :: 0 <= i < |entries| && NumericId(entries[i].id).Some? ==>
              NumericId(entries[i].id).value <= HighestId(entries)
  {
    hide NumericId;
    if entries != [] {
      HighestBounds(entries[..|entries| - 1]);
    }
  }

  /** No number is skipped: the highest id is that of some entry, or there is no numbered one. */
  lemma {:induction false} HighestIsThere(entries: seq<Decision>)
    ensures HighestId(entries) == 0 || exists i :: 0 <= i < |entries| && NumericId(entries[i].id) == Some(HighestId(entries))
  {
    hide NumericId;
    if entries != [] {
      var init, n := entries[..|entries| - 1], |entries| - 1;
      HighestIsThere(init);
      if HighestId(entries) != HighestId(init) {
        assert NumericId(entries[n].id) == Some(HighestId(entries));
      } else if HighestId(init) > 0 {
        var i :| 0 <= i < |init| && NumericId(init[i].id) == Some(HighestId(init));
        assert entries[i] == init[i];
      }
    }
  }

  /** The id given to a new entry is none of the ids already there. */
  lemma {:induction false} NextIdIsFresh(entries: seq<Decision>)
    requires HighestId(entries) < U32_MAX
    ensures NumericId(NextId(entries)) == Some(HighestId(entries) + 1)
    ensures forall i :: 0 <= i < |entries| ==> entries[i].id != NextId(entries)
  {
    hide Padded, ParseNumber;
    var n := HighestId(entries) + 1;
    PaddedParses(n);
    StripsPrefix("D", Padded(n));
    hide NumericId, HighestId;
    HighestBounds(entries);
  }

  lemma {:induction false} DigitsAreUnsplit(s: string)
    requires forall i :: 0 <= i < |s| ==> s[i] != ' '
    ensures Unsplit(s)
  {
    FindFirst(s, SEPARATOR, "");
    assert s + SEPARATOR + "" == s + SEPARATOR;
  }

  lemma {:induction false} NextIdIsPrintable(entries: seq<Decision>)
    requires HighestId(entries) < U32_MAX
    ensures Field(NextId(entries)) && "D" <= NextId(entries) && Unsplit(NextId(entries))
  {
    hide Padded, T.Trim, Unsplit;
    PaddedParses(HighestId(entries) + 1);
    var id := NextId(entries);
    assert forall i :: 0 < i < |id| ==> id[i] == Padded(HighestId(entries) + 1)[i - 1];
    hide HighestId;
    TrimIsBare(id);
    DigitsAreUnsplit(id);
  }

  /** An entry appended to a log of one-line values reads back with it exactly when its own values fit their
      lines and all headers, old and new, can be told apart. */
  lemma {:induction false} AppendReadsExactlyWhen(d: Log, e: Decision)
    requires Printable(d) && HighestId(d.entries) < U32_MAX
    ensures Parse(Render(d.(entries := Appended(d.entries, e)))) == Ok(d.(entries := Appended(d.entries, e))) <==>
            && (forall i :: 0 <= i < |d.entries| ==> Splittable(d.entries[i]))
            && Field(e.date) && Field(e.title) && Field(e.decision) && Field(e.rationale) && Field(e.refs)
            && Unsplit(e.date) && e.title != ""
  {
    hide Field, Unsplit, Parse, Render, NextId, HighestId;
    NextIdIsPrintable(d.entries);
    var whole, n := d.(entries := Appended(d.entries, e)), |d.entries|;
    RoundTripExactlyWhen(whole);
    assert whole.entries[n] == e.(id := NextId(d.entries));
    assert forall i :: 0 <= i < n ==> whole.entries[i] == d.entries[i];
    if WellFormed(whole) {
      assert PrintableEntry(whole.entries[n]) && Splittable(whole.entries[n]);
      assert forall i :: 0 <= i < n ==> Splittable(whole.entries[i]);
    }
  }

  /** Appending leaves a log that reads back, with the earlier entries first and untouched and the new one
      last under an id of its own. */
  lemma {:induction false} AppendKeepsLog(d: Log, e: Decision)
    requires WellFormed(d) && HighestId(d.entries) < U32_MAX
    requires Field(e.date) && Field(e.title) && Field(e.decision) && Field(e.rationale) && Field(e.refs)
    requires Unsplit(e.date) && e.title != ""
    ensures Parse(Render(d.(entries := Appended(d.entries, e)))) == Ok(d.(entries := Appended(d.entries, e)))
    ensures d.entries <= Appended(d.entries, e)
    ensures forall i :: 0 <= i < |d.entries| ==> d.entries[i].id != Appended(d.entries, e)[|d.entries|].id
  {
    hide Field, Unsplit, Parse, Render, NextId, HighestId;
    NextIdIsFresh(d.entries);
    NextIdIsPrintable(d.entries);
    RoundTripExactlyWhen(d.(entries := Appended(d.entries, e)));
  }
}
