/** The string operations the plan documents are read and written with. */
module Markup {
  import opened Wrappers
  import opened TextLines
  import T = Text

  /** Every CRLF becomes LF. */
  function ReplaceCrlf(s: string): string {
    if |s| < 2 then s
    else if s[0] == '\r' && s[1] == '\n' then "\n" + ReplaceCrlf(s[2..])
    else [s[0]] + ReplaceCrlf(s[1..])
  }

  function StripPrefix(s: string, prefix: string): Option<string> {
    if prefix <= s then Some(s[|prefix|..]) else None
  }

  /** Index of the first occurrence of `sub`. */
  function Find(s: string, sub: string): (r: Option<nat>)
    ensures r.Some? ==> r.value + |sub| <= |s|
  {
    if |s| < |sub| then None
    else if sub <= s then Some(0)
    else if s == "" then None
    else
      var r := Find(s[1..], sub);
      if r.Some? then Some(r.value + 1) else None
  }

  function SplitOnce(s: string, separator: string): Option<(string, string)> {
    var k := Find(s, separator);
    if k.Some? then Some((s[..k.value], s[k.value + |separator|..])) else None
  }

  /** The first line that starts with `prefix`, without it; none when it has no value. */
  function TitleAfter(lines: seq<string>, prefix: string): Option<string> {
    if lines == [] then None
    else
      var rest := StripPrefix(T.Trim(lines[0]), prefix);
      if rest.None? then TitleAfter(lines[1..], prefix)
      else if T.Trim(rest.value) == "" then None
      else Some(T.Trim(rest.value))
  }

  predicate StandsAt(s: string, sub: string, k: nat) {
    k + |sub| <= |s| && s[k..k + |sub|] == sub
  }

  /** `sub` stands at position `k` and nowhere before. */
  predicate FirstAt(s: string, sub: string, k: nat) {
    StandsAt(s, sub, k) && forall j :: 0 <= j < k ==> !StandsAt(s, sub, j)
  }

  lemma {:induction false} StandsShifts(s: string, sub: string, k: nat)
    requires s != ""
    ensures StandsAt(s, sub, k + 1) <==> StandsAt(s[1..], sub, k)
    ensures StandsAt(s, sub, 0) <==> sub <= s
  {
    if k + 1 + |sub| <= |s| {
      assert s[k + 1..k + 1 + |sub|] == s[1..][k..k + |sub|];
    }
  }

  lemma {:induction false} FindIsFirst(s: string, sub: string)
    ensures match Find(s, sub)
            case Some(k) => FirstAt(s, sub, k)
            case None => forall k: nat :: !StandsAt(s, sub, k)
  {
    if s == "" {
      assert sub == "" ==> StandsAt(s, sub, 0);
    } else {
      hide StandsAt;
      FindIsFirst(s[1..], sub);
      forall k: nat ensures StandsAt(s, sub, k + 1) <==> StandsAt(s[1..], sub, k) {
        StandsShifts(s, sub, k);
      }
      StandsShifts(s, sub, 0);
      forall k: nat | k > 0 ensures StandsAt(s, sub, k) <==> StandsAt(s[1..], sub, k - 1) {
        assert StandsAt(s, sub, (k - 1) + 1) <==> StandsAt(s[1..], sub, k - 1);
      }
      TooLong(s, sub);
    }
  }

  lemma {:induction false} TooLong(s: string, sub: string)
    ensures |s| < |sub| ==> forall k: nat :: !StandsAt(s, sub, k)
  {
  }

  lemma {:induction false} FirstIsUnique(s: string, sub: string, j: nat, k: nat)
    requires FirstAt(s, sub, j) && FirstAt(s, sub, k)
    ensures j == k
  {
  }

  lemma {:induction false} FirstIsThere(s: string, sub: string, k: nat)
    requires FirstAt(s, sub, k)
    ensures StandsAt(s, sub, k)
  {
  }

  // ---------------------------------------------------------------------------
  // Numbers

  function Digit(d: nat): char
    requires d < 10
  {
    "0123456789"[d]
  }

  function Decimal(n: nat): (s: string)
    ensures s != ""
  {
    if n < 10 then [Digit(n)] else Decimal(n / 10) + [Digit(n % 10)]
  }

  predicate IsDigit(c: char) {
    '0' <= c <= '9'
  }

  function DigitsValue(s: string): nat {
    if s == "" then 0
    else
      var c := s[|s| - 1];
      10 * DigitsValue(s[..|s| - 1]) + if IsDigit(c) then c as int - '0' as int else 0
  }

  /** An unsigned number up to `max`, with an optional plus sign. */
  function ParseNumber(s: string, max: nat): (r: Option<nat>)
    ensures r.Some? ==> r.value <= max
  {
    var digits := if s != "" && s[0] == '+' then s[1..] else s;
    if digits == "" || (exists i :: 0 <= i < |digits| && !IsDigit(digits[i])) then None
    else if DigitsValue(digits) > max then None
    else Some(DigitsValue(digits))
  }

  lemma {:induction false} DecimalParses(n: nat)
    ensures DigitsValue(Decimal(n)) == n && forall i :: 0 <= i < |Decimal(n)| ==> IsDigit(Decimal(n)[i])
  {
    DigitIsDigit(n % 10);
    if n >= 10 {
      DecimalParses(n / 10);
      var s := Decimal(n);
      assert s[..|s| - 1] == Decimal(n / 10);
    } else {
      assert Decimal(n)[..0] == "";
    }
  }

  lemma {:induction false} DigitIsDigit(d: nat)
    requires d < 10
    ensures IsDigit(Digit(d)) && Digit(d) as int - '0' as int == d
  {
  }

  lemma {:induction false} NumberRoundTrip(n: nat, max: nat)
    requires n <= max
    ensures ParseNumber(Decimal(n), max) == Some(n)
  {
    DecimalParses(n);
    assert IsDigit(Decimal(n)[0]);
  }

  // ---------------------------------------------------------------------------
  // Lines

  /** A line that joining and splitting again leaves alone. */
  predicate PlainLine(line: string) {
    '\n' !in line && (line == "" || line[|line| - 1] != '\r')
  }

  lemma {:induction false} ReplaceKeepsLine(line: string, rest: string)
    requires PlainLine(line)
    ensures ReplaceCrlf(line + "\n" + rest) == line + "\n" + ReplaceCrlf(rest)
  {
    var s := line + "\n" + rest;
    if line == "" {
      assert s == "\n" + rest && s[1..] == rest;
      if rest == "" {
        assert |s| == 1;
      }
    } else {
      var tail := line[1..];
      assert s[1..] == tail + "\n" + rest;
      assert |line| == 1 ==> s[0] != '\r';
      assert |line| > 1 ==> s[1] == line[1];
      assert |tail| > 0 ==> tail[|tail| - 1] == line[|line| - 1];
      ReplaceKeepsLine(tail, rest);
      assert s[0] == line[0] && [line[0]] + (tail + "\n" + ReplaceCrlf(rest)) == line + "\n" + ReplaceCrlf(rest);
    }
  }

  lemma {:induction false} IndexOfFirst(line: string, rest: string)
    requires '\n' !in line
    ensures T.IndexOf(line + "\n" + rest, '\n') == |line|
  {
    var s := line + "\n" + rest;
    if line != "" {
      IndexOfFirst(line[1..], rest);
      assert s[1..] == line[1..] + "\n" + rest;
      assert s[0] == line[0] && line[0] in line;
    }
  }

  /** Joining plain lines and splitting the text gives the lines back, CRLF replacement or not. */
  lemma {:induction false} LinesRoundTrip(lines: seq<string>)
    requires forall i :: 0 <= i < |lines| ==> PlainLine(lines[i])
    ensures T.Lines(Unlines(lines)) == lines && ReplaceCrlf(Unlines(lines)) == Unlines(lines)
  {
    hide Unlines, T.Lines, ReplaceCrlf, T.IndexOf;
    if lines == [] {
      UnlinesNone();
      HasLines("");
      NothingToReplace();
    } else {
      var line, rest := lines[0], lines[1..];
      assert lines == [line] + rest;
      LinesRoundTrip(rest);
      UnlinesCons(line, rest);
      ReplaceKeepsLine(line, Unlines(rest));
      IndexOfFirst(line, Unlines(rest));
      var text := line + "\n" + Unlines(rest);
      LinesStep(text, |line|);
      assert text[..|line|] == line && text[|line| + 1..] == Unlines(rest);
    }
  }

  lemma {:induction false} NothingToReplace()
    ensures ReplaceCrlf("") == ""
  {
  }

  // ---------------------------------------------------------------------------
  // Fields

  /** A value that fits on one line and has no space around it. */
  predicate Field(s: string) {
    T.Trim(s) == s && '\n' !in s
  }

  lemma {:induction false} TrimStartEnds(s: string)
    ensures T.TrimStart(s) == "" || !T.IsSpace(T.TrimStart(s)[0])
    ensures s == "" || !T.IsSpace(s[0]) ==> T.TrimStart(s) == s
    ensures forall c :: c in T.TrimStart(s) ==> c in s
    ensures |T.TrimStart(s)| <= |s|
    ensures s != "" && !T.IsSpace(s[|s| - 1]) ==> T.TrimStart(s) != "" && T.TrimStart(s)[|T.TrimStart(s)| - 1] == s[|s| - 1]
  {
    if s != "" && T.IsSpace(s[0]) {
      TrimStartEnds(s[1..]);
    }
  }

  lemma {:induction false} TrimEndEnds(s: string)
    ensures T.TrimEnd(s) == "" || !T.IsSpace(T.TrimEnd(s)[|T.TrimEnd(s)| - 1])
    ensures s == "" || !T.IsSpace(s[|s| - 1]) ==> T.TrimEnd(s) == s
    ensures T.TrimEnd(s) <= s
  {
    if s != "" && T.IsSpace(s[|s| - 1]) {
      TrimEndEnds(s[..|s| - 1]);
    }
  }

  predicate Bare(s: string) {
    s == "" || (!T.IsSpace(s[0]) && !T.IsSpace(s[|s| - 1]))
  }

  /** Trimming leaves a text alone exactly when it has no space at either end; it always gives such a text. */
  lemma {:induction false} TrimIsBare(s: string)
    ensures Bare(T.Trim(s)) && (T.Trim(s) == s <==> Bare(s))
    ensures forall c :: c in T.Trim(s) ==> c in s
  {
    hide T.TrimStart, T.TrimEnd, T.IsSpace;
    TrimStartEnds(s);
    TrimEndEnds(T.TrimStart(s));
    var t := T.Trim(s);
    assert t <= T.TrimStart(s);
    if t != "" {
      assert t[0] == T.TrimStart(s)[0];
    }
  }

  /** Nothing is left of a text exactly when it is all space. */
  lemma {:induction false} TrimIsEmpty(s: string)
    ensures T.Trim(s) == "" <==> T.AllSpace(s)
  {
    hide T.IsSpace, T.TrimEnd, T.TrimStart;
    TrimStartIsEmpty(s);
    TrimStartEnds(s);
    TrimEndIsEmpty(T.TrimStart(s));
    if T.TrimStart(s) != "" {
      assert !T.IsSpace(T.TrimStart(s)[0]);
    }
  }

  lemma {:induction false} TrimStartIsEmpty(s: string)
    ensures T.TrimStart(s) == "" <==> forall i :: 0 <= i < |s| ==> T.IsSpace(s[i])
  {
    hide T.IsSpace;
    if s != "" {
      TrimStartIsEmpty(s[1..]);
      assert forall i :: 0 < i < |s| ==> s[i] == s[1..][i - 1];
    }
  }

  lemma {:induction false} TrimEndIsEmpty(s: string)
    ensures T.TrimEnd(s) == "" <==> forall i :: 0 <= i < |s| ==> T.IsSpace(s[i])
  {
    hide T.IsSpace;
    if s != "" {
      TrimEndIsEmpty(s[..|s| - 1]);
      assert forall i :: 0 <= i < |s| - 1 ==> s[i] == s[..|s| - 1][i];
    }
  }

  /** A field after a space trims to itself. */
  lemma {:induction false} TrimLeading(s: string)
    requires Field(s)
    ensures T.Trim(" " + s) == s
  {
    assert (" " + s)[1..] == s;
    assert T.IsSpace(' ');
    hide T.TrimEnd, T.IsSpace;
    TrimIsBare(s);
    TrimStartEnds(s);
    assert T.TrimStart(" " + s) == T.TrimStart(s);
  }

  lemma {:induction false} SplitAtFirst(a: string, separator: string, b: string)
    requires separator != "" && separator[0] !in a
    ensures SplitOnce(a + separator + b, separator) == Some((a, b))
  {
    FindFirst(a, separator, b);
    var s := a + separator + b;
    assert s[..|a|] == a && s[|a| + |separator|..] == b;
  }

  lemma {:induction false} FindFirst(a: string, separator: string, b: string)
    requires separator != "" && separator[0] !in a
    ensures Find(a + separator + b, separator) == Some(|a|)
  {
    var s := a + separator + b;
    if a == "" {
      assert s == separator + b && separator <= s;
    } else {
      FindFirst(a[1..], separator, b);
      assert s[1..] == a[1..] + separator + b;
      assert s[0] == a[0] && a[0] in a;
    }
  }

  lemma {:induction false} StripsPrefix(prefix: string, rest: string)
    ensures StripPrefix(prefix + rest, prefix) == Some(rest)
  {
    assert (prefix + rest)[|prefix|..] == rest;
  }

  /** Ending in a field or in a space is not ending in a carriage return. */
  lemma {:induction false} EndsPlain(prefix: string, field: string)
    requires prefix != "" && prefix[|prefix| - 1] == ' ' && '\n' !in prefix && Field(field)
    ensures PlainLine(prefix + field)
  {
    hide T.Trim;
    TrimIsBare(field);
    var line := prefix + field;
    assert T.IsSpace('\r');
    if field == "" {
      assert line == prefix;
    } else {
      assert line[|line| - 1] == field[|field| - 1];
    }
  }

  lemma {:induction false} KeepsStart(c: char, rest: string)
    requires !T.IsSpace(c)
    ensures T.TrimStart([c] + rest) == [c] + rest
  {
  }

  lemma {:induction false} TrimIsField(s: string)
    requires '\n' !in s
    ensures Field(T.Trim(s))
  {
    TrimIsBare(s);
    TrimIsBare(T.Trim(s));
  }

  lemma {:induction false} LinesAreSingle(text: string)
    ensures forall i :: 0 <= i < |T.Lines(text)| ==> '\n' !in T.Lines(text)[i]
    decreases |text|
  {
    hide T.IndexOf, T.Lines;
    if text == "" {
      HasLines(text);
    } else {
      var k := T.IndexOf(text, '\n');
      LinesStep(text, k);
      if k < |text| {
        LinesAreSingle(text[k + 1..]);
      } else {
        assert text[..k] == text;
      }
    }
  }

  lemma {:induction false} PartsWithin(s: string, separator: string)
    ensures SplitOnce(s, separator).Some? ==>
              forall c :: c in SplitOnce(s, separator).value.0 || c in SplitOnce(s, separator).value.1 ==> c in s
  {
  }

  /** The value of a title line is a field. */
  lemma {:induction false} TitleIsField(lines: seq<string>, prefix: string)
    requires forall i :: 0 <= i < |lines| ==> '\n' !in lines[i]
    ensures TitleAfter(lines, prefix).Some? ==>
              Field(TitleAfter(lines, prefix).value) && TitleAfter(lines, prefix).value != ""
  {
    hide T.Trim;
    if lines != [] {
      var rest := StripPrefix(T.Trim(lines[0]), prefix);
      TrimIsBare(lines[0]);
      if rest.None? {
        TitleIsField(lines[1..], prefix);
      } else {
        TrimIsField(rest.value);
      }
    }
  }

  /** A title line is read back. */
  lemma {:induction false} TitleReads(title: string, prefix: string, rest: seq<string>)
    requires Field(title) && title != "" && prefix != "" && !T.IsSpace(prefix[0])
    ensures TitleAfter([prefix + " " + title] + rest, prefix) == Some(title)
  {
    hide T.Trim, T.IsSpace;
    var line := prefix + " " + title;
    TrimIsBare(title);
    TrimIsBare(line);
    assert line == prefix + (" " + title);
    StripsPrefix(prefix, " " + title);
    TrimLeading(title);
  }

  lemma {:induction false} TitleSkips(line: string, prefix: string, rest: seq<string>)
    requires prefix != "" && line != "" && !T.IsSpace(line[0]) && line[0] != prefix[0]
    ensures TitleAfter([line] + rest, prefix) == TitleAfter(rest, prefix)
  {
    hide T.TrimEnd, T.IsSpace;
    TrimStartEnds(line);
    TrimEndEnds(line);
    assert T.Trim(line) <= line;
    assert ([line] + rest)[1..] == rest;
  }

  /** Line `i` is the first that begins with `prefix`, leading space aside. */
  predicate IsTitleLine(lines: seq<string>, prefix: string, i: nat) {
    i < |lines| && prefix <= T.Trim(lines[i]) && forall j :: 0 <= j < i ==> !(prefix <= T.Trim(lines[j]))
  }

  /** The first line with the prefix is the title line, whatever comes below; a title line without a title is none. */
  lemma {:induction false} TitleSays(lines: seq<string>, prefix: string)
    ensures TitleAfter(lines, prefix).None? ==>
              forall i: nat :: IsTitleLine(lines, prefix, i) ==> T.Trim(T.Trim(lines[i])[|prefix|..]) == ""
    ensures TitleAfter(lines, prefix).Some? ==>
              exists i: nat :: IsTitleLine(lines, prefix, i) && TitleAfter(lines, prefix).value == T.Trim(T.Trim(lines[i])[|prefix|..]) != ""
  {
    hide T.Trim;
    if lines != [] {
      var rest := lines[1..];
      if prefix <= T.Trim(lines[0]) {
        assert IsTitleLine(lines, prefix, 0);
      } else {
        TitleSays(rest, prefix);
        forall i: nat | IsTitleLine(lines, prefix, i) ensures i > 0 && IsTitleLine(rest, prefix, i - 1) {
          assert forall j :: 0 <= j < |rest| ==> rest[j] == lines[j + 1];
        }
        if TitleAfter(rest, prefix).Some? {
          var i: nat :| IsTitleLine(rest, prefix, i) && TitleAfter(rest, prefix).value == T.Trim(T.Trim(rest[i])[|prefix|..]) != "";
          TitleLineShifts(lines, prefix, i);
        }
      }
    }
  }

  lemma {:induction false} TitleLineShifts(lines: seq<string>, prefix: string, i: nat)
    requires lines != [] && !(prefix <= T.Trim(lines[0])) && IsTitleLine(lines[1..], prefix, i)
    ensures IsTitleLine(lines, prefix, i + 1)
  {
    hide T.Trim;
    forall j | 0 <= j < i + 1 ensures !(prefix <= T.Trim(lines[j])) {
      assert j > 0 ==> lines[j] == lines[1..][j - 1];
    }
  }
}
