/** What a decision log reads out of any text, line by line. */
module DecisionsReads {
  import opened Wrappers
  import opened Markup
  import opened DecisionsFile
  import T = Text

  /** A bullet that begins with a `D` and holds a separator. */
  ghost predicate OpensEntry(trimmed: string) {
    "- D" <= trimmed && exists k: nat :: StandsAt(trimmed[2..], SEPARATOR, k)
  }

  /** Id, date and title: what stands before the first separator, between it and the next, and behind that one; all of
      the rest is the date when there is no next. */
  ghost predicate HeadedBy(e: Decision, body: string, k: nat) {
    && FirstAt(body, SEPARATOR, k) && e.id == T.Trim(body[..k]) && e.decision == e.rationale == e.refs == ""
    && var rest := body[k + |SEPARATOR|..];
       if exists j: nat :: FirstAt(rest, SEPARATOR, j)
       then exists j: nat :: FirstAt(rest, SEPARATOR, j) && e.date == T.Trim(rest[..j])
                             && e.title == T.Trim(rest[j + |SEPARATOR|..])
       else e.date == T.Trim(rest) && e.title == ""
  }

  lemma {:induction false} FirstOfAny(s: string, sub: string)
    ensures Find(s, sub).Some? <==> exists k: nat :: StandsAt(s, sub, k)
    ensures Find(s, sub).Some? <==> exists k: nat :: FirstAt(s, sub, k)
    ensures Find(s, sub).Some? ==> FirstAt(s, sub, Find(s, sub).value)
  {
    FindIsFirst(s, sub);
    hide StandsAt;
    if k: nat :| FirstAt(s, sub, k) {
      FirstIsThere(s, sub, k);
    }
  }

  /** A header is read by its first two separators. */
  lemma {:induction false} HeaderSays(trimmed: string)
    ensures HeaderBody(trimmed).Some? <==> OpensEntry(trimmed)
    ensures HeaderBody(trimmed).Some? ==>
              exists k: nat :: HeadedBy(ReadHeader(HeaderBody(trimmed).value), trimmed[2..], k)
  {
    hide StandsAt, FirstAt, Find, T.Trim;
    if "- " <= trimmed {
      var body := trimmed[2..];
      assert StripPrefix(trimmed, "- ") == Some(body);
      FirstOfAny(body, SEPARATOR);
      assert "D" <= body <==> "- D" <= trimmed;
      if HeaderBody(trimmed).Some? {
        var k := Find(body, SEPARATOR).value;
        FirstOfAny(body[k + |SEPARATOR|..], SEPARATOR);
        assert HeadedBy(ReadHeader(body), body, k);
      }
    }
  }

  /** The entries as their header lines alone give them. */
  function EntriesIn(lines: seq<string>): seq<Decision> {
    if lines == [] then []
    else
      var header := HeaderBody(T.Trim(lines[|lines| - 1]));
      EntriesIn(lines[..|lines| - 1]) + if header.Some? then [ReadHeader(header.value)] else []
  }

  /** The same ids, dates and titles, in the same order. */
  predicate SameHeads(a: seq<Decision>, b: seq<Decision>) {
    && |a| == |b|
    && forall i :: 0 <= i < |a| ==> a[i].id == b[i].id && a[i].date == b[i].date && a[i].title == b[i].title
  }

  lemma {:induction false} FieldKeepsHead(e: Decision, trimmed: string)
    ensures var f := TakeField(e, trimmed); f.id == e.id && f.date == e.date && f.title == e.title
  {
    hide StripPrefix, T.Trim;
  }

  lemma {:induction false} LineReads(entries: seq<Decision>, line: string)
    ensures var header := HeaderBody(T.Trim(line));
            SameHeads(TakeLine(entries, line), entries + if header.Some? then [ReadHeader(header.value)] else [])
  {
    hide HeaderBody, ReadHeader, T.Trim, TakeField;
    if entries != [] {
      FieldKeepsHead(entries[|entries| - 1], T.Trim(line));
    }
  }

  lemma {:induction false} HeadsPush(a: seq<Decision>, b: seq<Decision>, more: seq<Decision>, c: seq<Decision>)
    requires SameHeads(a, b) && SameHeads(c, a + more)
    ensures SameHeads(c, b + more)
  {
  }

  /** No line but a header opens an entry or touches the heads of those there. */
  lemma {:induction false} LinesRead(lines: seq<string>)
    ensures SameHeads(TakeLines(lines), EntriesIn(lines))
  {
    hide HeaderBody, ReadHeader, T.Trim, TakeLine;
    if lines != [] {
      var init, last := lines[..|lines| - 1], lines[|lines| - 1];
      LinesRead(init);
      LineReads(TakeLines(init), last);
      hide SameHeads;
      var header := HeaderBody(T.Trim(last));
      HeadsPush(TakeLines(init), EntriesIn(init), if header.Some? then [ReadHeader(header.value)] else [], TakeLines(lines));
    }
  }

  /** A field line speaks of the newest entry only, and fills in the one field it names. */
  lemma {:induction false} FieldSays(entries: seq<Decision>, line: string)
    requires entries != [] && !OpensEntry(T.Trim(line))
    ensures var last, t, now := entries[|entries| - 1], T.Trim(line), TakeLine(entries, line);
            && |now| == |entries| && now[..|now| - 1] == entries[..|entries| - 1]
            && now[|now| - 1] == last.(
                 decision := if "- decision:" <= t then T.Trim(t[11..]) else last.decision,
                 rationale := if "- rationale:" <= t then T.Trim(t[12..]) else last.rationale,
                 refs := if "- refs:" <= t then T.Trim(t[7..]) else last.refs)
  {
    HeaderSays(T.Trim(line));
    hide T.Trim, HeaderBody, OpensEntry;
    var t := T.Trim(line);
    assert "- decision:" <= t ==> t[2] == 'd';
    assert "- rationale:" <= t ==> t[2] == 'r' && t[3] == 'a';
    assert "- refs:" <= t ==> t[2] == 'r' && t[3] == 'e';
  }
}
