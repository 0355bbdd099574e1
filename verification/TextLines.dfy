/** Texts as lists of lines: joining lines and splitting them again. */
module TextLines {
  import T = Text

  /** Lines with their terminators put back. */
  function Unlines(lines: seq<string>): string {
    if lines == [] then "" else Unlines(lines[..|lines| - 1]) + lines[|lines| - 1] + "\n"
  }

  lemma {:induction false} UnlinesPush(lines: seq<string>, line: string)
    ensures Unlines(lines + [line]) == Unlines(lines) + line + "\n"
  {
    assert (lines + [line])[..|lines|] == lines;
  }

  lemma {:induction false} UnlinesSplit(a: seq<string>, b: seq<string>)
    ensures Unlines(a + b) == Unlines(a) + Unlines(b)
  {
    hide Unlines;
    if b == [] {
      UnlinesNone();
      assert a + b == a && Unlines(a) + "" == Unlines(a);
    } else {
      var init, last := b[..|b| - 1], b[|b| - 1];
      UnlinesSplit(a, init);
      assert a + b == (a + init) + [last] && b == init + [last];
      UnlinesPush(a + init, last);
      UnlinesPush(init, last);
      assert Unlines(a) + Unlines(init) + last + "\n" == Unlines(a) + (Unlines(init) + last + "\n");
    }
  }

  lemma {:induction false} UnlinesNone()
    ensures Unlines([]) == ""
  {
  }

  lemma {:induction false} LinesStep(text: string, k: nat)
    requires text != "" && k == T.IndexOf(text, '\n')
    ensures T.Lines(text) == if k == |text| then [text] else [T.StripCr(text[..k])] + T.Lines(text[k + 1..])
  {
    hide T.IndexOf, T.StripCr;
  }

  lemma {:induction false} UnlinesCons(line: string, rest: seq<string>)
    ensures Unlines([line] + rest) == line + "\n" + Unlines(rest)
  {
    UnlinesSplit([line], rest);
    UnlinesPush([], line);
    UnlinesNone();
    assert [] + [line] == [line] && "" + line == line;
  }

  lemma {:induction false} HasLines(text: string)
    ensures T.Lines(text) == [] <==> text == ""
  {
    hide T.IndexOf, T.StripCr;
  }

  // ---------------------------------------------------------------------------
  // Parts with a separator between them

  function Glued(parts: seq<string>, separator: string): string {
    if parts == [] then ""
    else if |parts| == 1 then parts[0]
    else Glued(parts[..|parts| - 1], separator) + separator + parts[|parts| - 1]
  }

  lemma {:induction false} JoinSnoc(parts: seq<string>, separator: string, last: string)
    requires parts != []
    ensures T.Join(parts + [last], separator) == T.Join(parts, separator) + separator + last
  {
    if |parts| > 1 {
      JoinSnoc(parts[1..], separator, last);
      assert (parts + [last])[1..] == parts[1..] + [last];
    } else {
      assert (parts + [last])[1..] == [last];
    }
  }

  /** Joining goes through the parts in order, a separator between each two. */
  lemma {:induction false} JoinGlues(parts: seq<string>, separator: string)
    ensures T.Join(parts, separator) == Glued(parts, separator)
  {
    if |parts| > 1 {
      JoinGlues(parts[..|parts| - 1], separator);
      JoinSnoc(parts[..|parts| - 1], separator, parts[|parts| - 1]);
      assert parts == parts[..|parts| - 1] + [parts[|parts| - 1]];
    }
  }

  // ---------------------------------------------------------------------------
  // Words

  lemma {:induction false} WordEnds(a: string, c: char, b: string)
    requires T.IsSpace(c)
    ensures T.WordLength(a + [c] + b) == T.WordLength(a)
  {
    if a != "" && !T.IsSpace(a[0]) {
      WordEnds(a[1..], c, b);
      assert (a + [c] + b)[1..] == a[1..] + [c] + b;
    }
  }

  lemma {:induction false} WordsStep(s: string)
    requires s != ""
    ensures T.Words(s) == if T.IsSpace(s[0]) then T.Words(s[1..])
                          else [s[..T.WordLength(s)]] + T.Words(s[T.WordLength(s)..])
    ensures !T.IsSpace(s[0]) ==> T.WordLength(s) > 0
    ensures T.Words("") == []
  {
    hide T.IsSpace, T.WordLength;
  }

  /** Any whitespace parts words. */
  lemma {:induction false} WordsMeet(a: string, c: char, b: string)
    requires T.IsSpace(c)
    ensures T.Words(a + [c] + b) == T.Words(a) + T.Words(b)
    decreases |a|
  {
    hide T.IsSpace, T.Words, T.WordLength;
    var s := a + [c] + b;
    WordsStep(s);
    if a == "" {
      assert s[0] == c && s[1..] == b;
      assert [] + T.Words(b) == T.Words(b);
    } else {
      WordsStep(a);
      assert s[0] == a[0];
      if T.IsSpace(a[0]) {
        WordsMeet(a[1..], c, b);
        assert s[1..] == a[1..] + [c] + b;
      } else {
        WordEnds(a, c, b);
        var k := T.WordLength(a);
        WordsMeet(a[k..], c, b);
        assert s[..k] == a[..k] && s[k..] == a[k..] + [c] + b;
      }
    }
  }

  /** Nothing else does. */
  lemma {:induction false} OneWord(s: string)
    requires s != "" && forall i :: 0 <= i < |s| ==> !T.IsSpace(s[i])
    ensures T.Words(s) == [s]
  {
    hide T.IsSpace;
    WholeWord(s);
    assert s[..|s|] == s && s[|s|..] == "";
  }

  lemma {:induction false} WholeWord(s: string)
    requires forall i :: 0 <= i < |s| ==> !T.IsSpace(s[i])
    ensures T.WordLength(s) == |s|
  {
    hide T.IsSpace;
    if s != "" {
      WholeWord(s[1..]);
    }
  }
}
