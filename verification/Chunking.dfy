/** Cutting a file into line-aligned chunks. A text stands for its UTF-8 bytes, one char each. */
module Chunking {
  import opened Wrappers
  import T = Text
  import opened TextLines

  const CHUNK_BYTES := 8192

  /** A run of whole lines, with the lines (from 1) and bytes (from 0) it spans. */
  datatype Chunk = Chunk(text: string, startLine: nat, endLine: nat, startByte: nat, endByte: nat)

  /** The state of the cut: finished chunks, and the open one. */
  datatype Cut = Cut(chunks: seq<Chunk>, current: string, startLine: nat, startByte: nat, lineNo: nat, cursor: nat)

  const START := Cut([], "", 1, 0, 0, 0)

  function TakeLine(c: Cut, line: string): Cut {
    var full := c.current != "" && |c.current| + |line| + 1 > CHUNK_BYTES;
    var open :=
      if full then
        Cut(c.chunks + [Chunk(c.current, c.startLine, c.lineNo, c.startByte, c.cursor)],
            "", c.lineNo + 1, c.cursor, c.lineNo, c.cursor)
      else c;
    Cut(open.chunks, open.current + line + "\n", open.startLine, open.startByte, c.lineNo + 1, c.cursor + |line| + 1)
  }

  function TakeLines(lines: seq<string>): Cut {
    if lines == [] then START else TakeLine(TakeLines(lines[..|lines| - 1]), lines[|lines| - 1])
  }

  function Max(a: nat, b: nat): nat {
    if a < b then b else a
  }

  function ChunksOf(text: string): seq<Chunk> {
    var c := TakeLines(T.Lines(text));
    if c.current != "" || text == "" then
      c.chunks + [Chunk(c.current, c.startLine, Max(c.lineNo, c.startLine), c.startByte, c.cursor)]
    else c.chunks
  }

  /** Cuts a text into chunks, one pass over its lines. */
  method ChunkFile(text: string) returns (chunks: seq<Chunk>)
    ensures chunks == ChunksOf(text)
  {
    hide TakeLine;
    var lines := T.Lines(text);
    chunks := [];
    var current, startLine: nat, startByte: nat, lineNo: nat, cursor: nat := "", 1, 0, 0, 0;
    assert lines[..0] == [];
    for i := 0 to |lines|
      invariant TakeLines(lines[..i]) == Cut(chunks, current, startLine, startByte, lineNo, cursor)
    {
      var line := lines[i];
      ghost var before := Cut(chunks, current, startLine, startByte, lineNo, cursor);
      lineNo := lineNo + 1;
      var lineBytes := |line| + 1;
      if current != "" && |current| + lineBytes > CHUNK_BYTES {
        chunks := chunks + [Chunk(current, startLine, lineNo - 1, startByte, cursor)];
        current := "";
        startLine := lineNo;
        startByte := cursor;
      }
      current := current + line;
      current := current + "\n";
      cursor := cursor + lineBytes;
      assert TakeLine(before, line) == Cut(chunks, current, startLine, startByte, lineNo, cursor) by {
        TakeLineStep(before, line);
      }
      assert lines[..i + 1][..i] == lines[..i];
    }
    assert lines[..|lines|] == lines;
    if current != "" || text == "" {
      chunks := chunks + [Chunk(current, startLine, Max(lineNo, startLine), startByte, cursor)];
    }
  }

  lemma {:induction false} TakeLineStep(c: Cut, line: string)
    ensures TakeLine(c, line)
         == if c.current != "" && |c.current| + |line| + 1 > CHUNK_BYTES
            then Cut(c.chunks + [Chunk(c.current, c.startLine, c.lineNo, c.startByte, c.cursor)],
                     "" + line + "\n", c.lineNo + 1, c.cursor, c.lineNo + 1, c.cursor + |line| + 1)
            else Cut(c.chunks, c.current + line + "\n", c.startLine, c.startByte, c.lineNo + 1, c.cursor + |line| + 1)
  {
  }

  // ---------------------------------------------------------------------------
  // The chunks partition the file

  /** The chunk holds exactly the lines it says it spans, and is small unless it is a single line. */
  ghost predicate Spans(c: Chunk, lines: seq<string>) {
    && 1 <= c.startLine <= c.endLine <= |lines|
    && c.text == Unlines(lines[c.startLine - 1..c.endLine])
    && c.startByte == |Unlines(lines[..c.startLine - 1])|
    && c.endByte == c.startByte + |c.text|
    && (|c.text| <= CHUNK_BYTES || c.startLine == c.endLine)
  }

  /** The line after the chunk would have made it too large. */
  ghost predicate Full(c: Chunk, lines: seq<string>) {
    c.endLine < |lines| && |c.text| + |lines[c.endLine]| + 1 > CHUNK_BYTES
  }

  /** Chunks lie end to end from the start of the file up to line `endLine`. */
  ghost predicate EndToEnd(chunks: seq<Chunk>, endLine: nat, endByte: nat) {
    if chunks == [] then endLine == 0 && endByte == 0
    else
      var last := chunks[|chunks| - 1];
      last.endLine == endLine && last.endByte == endByte && last.startLine >= 1
      && EndToEnd(chunks[..|chunks| - 1], last.startLine - 1, last.startByte)
  }

  ghost predicate AllClosed(chunks: seq<Chunk>, lines: seq<string>) {
    forall k :: 0 <= k < |chunks| ==> Spans(chunks[k], lines) && Full(chunks[k], lines)
  }

  /** The open chunk after the first `n` lines. */
  ghost predicate Open(c: Cut, lines: seq<string>, n: nat) {
    && n <= |lines| && c.lineNo == n
    && 1 <= c.startLine <= Max(n, 1)
    && c.current == Unlines(lines[c.startLine - 1..n])
    && c.startByte == |Unlines(lines[..c.startLine - 1])|
    && c.cursor == c.startByte + |c.current|
    && (n > 0 ==> |c.current| > 0)
    && (|c.current| <= CHUNK_BYTES || c.startLine == n)
  }

  /** Where the cut stands after the first `n` lines. */
  ghost predicate Standing(c: Cut, lines: seq<string>, n: nat) {
    && Open(c, lines, n)
    && AllClosed(c.chunks, lines)
    && EndToEnd(c.chunks, c.startLine - 1, c.startByte)
  }

  lemma {:induction false} EndToEndPush(chunks: seq<Chunk>, c: Chunk)
    requires c.startLine >= 1 && EndToEnd(chunks, c.startLine - 1, c.startByte)
    ensures EndToEnd(chunks + [c], c.endLine, c.endByte)
  {
    assert (chunks + [c])[..|chunks|] == chunks;
  }

  /** Closing the open chunk because the next line does not fit. */
  lemma {:induction false} CloseStands(c: Cut, lines: seq<string>, n: nat, closed: Chunk)
    requires n < |lines| && Open(c, lines, n) && c.current != "" && |c.current| + |lines[n]| + 1 > CHUNK_BYTES
    requires closed == Chunk(c.current, c.startLine, n, c.startByte, c.cursor)
    ensures Spans(closed, lines) && Full(closed, lines) && c.cursor == |Unlines(lines[..n])|
  {
    hide Unlines;
    var done, open := lines[..c.startLine - 1], lines[c.startLine - 1..n];
    assert done + open == lines[..n];
    UnlinesSplit(done, open);
  }

  lemma {:induction false} UnlinesGrow(lines: seq<string>, a: nat, n: nat)
    requires a <= n < |lines|
    ensures Unlines(lines[a..n + 1]) == Unlines(lines[a..n]) + lines[n] + "\n"
  {
    hide Unlines;
    assert lines[a..n + 1] == lines[a..n] + [lines[n]];
    UnlinesPush(lines[a..n], lines[n]);
  }

  lemma {:induction false} Terminated(a: string, b: string)
    ensures |a + b + "\n"| == |a| + |b| + 1
  {
  }

  lemma {:induction false} GrowStands(c: Cut, lines: seq<string>, n: nat, grown: Cut)
    requires n < |lines| && Open(c, lines, n) && (|c.current| + |lines[n]| + 1 <= CHUNK_BYTES || c.startLine == n + 1)
    requires grown.startLine == c.startLine && grown.startByte == c.startByte && grown.lineNo == n + 1
    requires grown.current == c.current + lines[n] + "\n" && grown.cursor == c.cursor + |lines[n]| + 1
    ensures Open(grown, lines, n + 1)
  {
    hide Unlines;
    UnlinesGrow(lines, c.startLine - 1, n);
    Terminated(c.current, lines[n]);
  }

  lemma {:induction false} FreshOpens(c: Cut, lines: seq<string>, n: nat)
    requires n < |lines|
    requires c.current == lines[n] + "\n" && c.startLine == n + 1 && c.lineNo == n + 1
    requires c.startByte == |Unlines(lines[..n])| && c.cursor == c.startByte + |c.current|
    ensures Open(c, lines, n + 1)
  {
    hide Unlines;
    assert lines[n..n + 1] == [] + [lines[n]];
    UnlinesPush([], lines[n]);
    UnlinesNone();
    assert "" + lines[n] == lines[n];
  }

  lemma {:induction false} TakeLineStands(c: Cut, lines: seq<string>, n: nat)
    requires n < |lines| && Standing(c, lines, n)
    ensures Standing(TakeLine(c, lines[n]), lines, n + 1)
  {
    var line, next := lines[n], TakeLine(c, lines[n]);
    TakeLineStep(c, line);
    assert "" + line == line;
    assert c.lineNo == n;
    hide Unlines, EndToEnd, TakeLine, Spans, Full;
    if c.current != "" && |c.current| + |line| + 1 > CHUNK_BYTES {
      var closed := Chunk(c.current, c.startLine, n, c.startByte, c.cursor);
      CloseStands(c, lines, n, closed);
      EndToEndPush(c.chunks, closed);
      FreshOpens(next, lines, n);
    } else {
      GrowStands(c, lines, n, next);
    }
  }

  lemma {:induction false} TakeLinesStands(lines: seq<string>, n: nat)
    requires n <= |lines|
    ensures Standing(TakeLines(lines[..n]), lines, n)
  {
    if n > 0 {
      TakeLinesStands(lines, n - 1);
      assert lines[..n][..n - 1] == lines[..n - 1];
      hide Standing, TakeLine;
      TakeLineStands(TakeLines(lines[..n - 1]), lines, n - 1);
    }
  }

  /** The open chunk, closed at the end of the file. */
  lemma {:induction false} LastCloses(c: Cut, lines: seq<string>, last: Chunk)
    requires lines != [] && Open(c, lines, |lines|)
    requires last == Chunk(c.current, c.startLine, |lines|, c.startByte, c.cursor)
    ensures Spans(last, lines) && last.endByte == |Unlines(lines)|
  {
    hide Unlines;
    var done, open := lines[..c.startLine - 1], lines[c.startLine - 1..|lines|];
    assert done + open == lines;
    UnlinesSplit(done, open);
  }

  /** The chunks cut the file into runs of whole lines, end to end from its first line to its last; each
      is small or a single line, and none could have taken the next line too. */
  lemma {:induction false} ChunksPartition(text: string, lines: seq<string>, chunks: seq<Chunk>)
    requires lines == T.Lines(text) && chunks == ChunksOf(text) && text != ""
    ensures chunks != [] && EndToEnd(chunks, |lines|, |Unlines(lines)|)
    ensures forall k :: 0 <= k < |chunks| ==> Spans(chunks[k], lines)
    ensures forall k :: 0 <= k < |chunks| - 1 ==> Full(chunks[k], lines)
  {
    HasLines(text);
    TakeLinesStands(lines, |lines|);
    assert lines[..|lines|] == lines;
    var c := TakeLines(lines);
    hide TakeLines, EndToEnd, Unlines, T.Lines, Spans, Full;
    var last := Chunk(c.current, c.startLine, |lines|, c.startByte, c.cursor);
    assert chunks == c.chunks + [last];
    EndToEndPush(c.chunks, last);
    LastCloses(c, lines, last);
  }

  function Texts(chunks: seq<Chunk>): string {
    if chunks == [] then "" else Texts(chunks[..|chunks| - 1]) + chunks[|chunks| - 1].text
  }

  lemma {:induction false} TextsAreLines(chunks: seq<Chunk>, lines: seq<string>, endLine: nat, endByte: nat)
    requires EndToEnd(chunks, endLine, endByte) && endLine <= |lines|
    requires forall k :: 0 <= k < |chunks| ==> Spans(chunks[k], lines)
    ensures Texts(chunks) == Unlines(lines[..endLine])
  {
    if chunks == [] {
      UnlinesNone();
    } else {
      var last := chunks[|chunks| - 1];
      assert Spans(last, lines);
      TextsAreLines(chunks[..|chunks| - 1], lines, last.startLine - 1, last.startByte);
      hide Unlines;
      assert lines[..endLine] == lines[..last.startLine - 1] + lines[last.startLine - 1..endLine];
      UnlinesSplit(lines[..last.startLine - 1], lines[last.startLine - 1..endLine]);
    }
  }

  /** A text of LF-terminated lines without CRLF. */
  predicate IsUnix(text: string) {
    && (text == "" || text[|text| - 1] == '\n')
    && forall i :: 0 <= i < |text| - 1 && text[i] == '\r' ==> text[i + 1] != '\n'
  }

  /** Putting the terminators back gives the text exactly for LF-terminated, CRLF-free text. */
  lemma {:induction false} UnlinesIsText(text: string)
    ensures Unlines(T.Lines(text)) == text <==> IsUnix(text)
    decreases |text|
  {
    hide T.IndexOf, T.Lines, Unlines;
    if text == "" {
      UnlinesNone();
      HasLines("");
    } else {
      var k := T.IndexOf(text, '\n');
      LinesStep(text, k);
      if k == |text| {
        UnlinesCons(text, []);
        UnlinesNone();
        assert [text] + [] == [text];
        assert text[..k] == text;
        assert |text + "\n" + ""| != |text|;
      } else {
        var rest, line := text[k + 1..], T.StripCr(text[..k]);
        UnlinesCons(line, T.Lines(rest));
        UnlinesIsText(rest);
        assert text == text[..k] + "\n" + rest;
        UnixStep(text, k);
        var whole := line + "\n" + Unlines(T.Lines(rest));
        if line == text[..k] {
          assert whole[k + 1..] == Unlines(T.Lines(rest));
        } else {
          assert |line| == k - 1 && whole[k - 1] == '\n' && text[k - 1] == '\r';
        }
      }
    }
  }

  lemma {:induction false} UnixStep(text: string, k: nat)
    requires k < |text| && text[k] == '\n' && '\n' !in text[..k]
    ensures IsUnix(text) <==> T.StripCr(text[..k]) == text[..k] && IsUnix(text[k + 1..])
  {
    var rest := text[k + 1..];
    assert forall i :: 0 <= i < |rest| ==> rest[i] == text[k + 1 + i];
    assert forall i :: 0 <= i < k ==> text[i] == text[..k][i] != '\n';
    if IsUnix(rest) && T.StripCr(text[..k]) == text[..k] {
      forall i | 0 <= i < |text| - 1 && text[i] == '\r' ensures text[i + 1] != '\n' {
        if i > k {
          assert rest[i - k - 1] == '\r';
        }
      }
    }
  }

  /** The empty file is one empty chunk. */
  lemma {:induction false} EmptyFile()
    ensures ChunksOf("") == [Chunk("", 1, 1, 0, 0)] && Texts(ChunksOf("")) == ""
  {
    HasLines("");
    hide T.Lines;
    assert ChunksOf("") == [] + [Chunk("", 1, 1, 0, 0)];
    assert [Chunk("", 1, 1, 0, 0)][..0] == [];
  }

  /** The chunks together are the file itself exactly when it is LF-terminated and has no CRLF. */
  lemma {:induction false} ChunksAreText(text: string)
    ensures Texts(ChunksOf(text)) == text <==> IsUnix(text)
  {
    var lines, chunks := T.Lines(text), ChunksOf(text);
    UnlinesIsText(text);
    if text == "" {
      EmptyFile();
    } else {
      hide *;
      ChunksPartition(text, lines, chunks);
      TextsAreLines(chunks, lines, |lines|, |Unlines(lines)|);
      assert lines[..|lines|] == lines;
    }
  }
}
