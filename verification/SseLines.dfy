/** The line layer both stream decoders share: raw bytes are buffered, and every complete line
    is handed to the decoder (`step`). Nothing here depends on what the decoder does. */
module SseLines {
  import opened Events
  import T = Text

  type Byte = b: int | 0 <= b < 256

  const LF: Byte := 10

  /** The complete lines of a buffer, terminators included, and what is left over. */
  function Cut(buf: seq<Byte>): (seq<seq<Byte>>, seq<Byte>)
    decreases |buf|
  {
    var k := T.IndexOf(buf, LF);
    if k == |buf| then ([], buf)
    else
      var (lines, rest) := Cut(buf[k + 1..]);
      ([buf[..k + 1]] + lines, rest)
  }

  lemma {:induction false} CutAt(buf: seq<Byte>)
    ensures var k := T.IndexOf(buf, LF);
            Cut(buf) == if k == |buf| then ([], buf)
                        else ([buf[..k + 1]] + Cut(buf[k + 1..]).0, Cut(buf[k + 1..]).1)
  {
  }

  lemma {:induction false} IndexOfConcat(a: seq<Byte>, b: seq<Byte>)
    requires T.IndexOf(a, LF) < |a|
    ensures T.IndexOf(a + b, LF) == T.IndexOf(a, LF)
  {
    var k, j := T.IndexOf(a, LF), T.IndexOf(a + b, LF);
    forall i | 0 <= i < k ensures (a + b)[i] != LF {
      assert a[..k][i] == (a + b)[i];
    }
    forall i | 0 <= i < j ensures (a + b)[i] != LF {
      assert (a + b)[..j][i] == (a + b)[i];
    }
    assert (a + b)[k] == LF;
  }

  /** Cutting a stream in two and carrying the remainder over yields the same lines. */
  lemma {:induction false} CutComposes(a: seq<Byte>, b: seq<Byte>)
    ensures Cut(a + b).0 == Cut(a).0 + Cut(Cut(a).1 + b).0
    ensures Cut(a + b).1 == Cut(Cut(a).1 + b).1
    decreases |a|
  {
    hide Cut;
    CutAt(a);
    CutAt(a + b);
    var k := T.IndexOf(a, LF);
    if k < |a| {
      IndexOfConcat(a, b);
      assert (a + b)[..k + 1] == a[..k + 1];
      assert (a + b)[k + 1..] == a[k + 1..] + b;
      CutComposes(a[k + 1..], b);
    }
  }

  /** Nothing left over contains a line terminator. */
  lemma {:induction false} RestHasNoNewline(buf: seq<Byte>)
    ensures LF !in Cut(buf).1
    decreases |buf|
  {
    hide Cut;
    CutAt(buf);
    var k := T.IndexOf(buf, LF);
    if k < |buf| {
      RestHasNoNewline(buf[k + 1..]);
    } else {
      assert buf[..k] == buf;
    }
  }

  function Joined(chunks: seq<seq<Byte>>): seq<Byte> {
    if chunks == [] then [] else chunks[0] + Joined(chunks[1..])
  }

  /** One terminator, at its end. */
  predicate IsLine(line: seq<Byte>) {
    line != [] && line[|line| - 1] == LF && LF !in line[..|line| - 1]
  }

  /** No byte is lost or moved: the lines and what is left over are the buffer, cut behind every terminator. */
  lemma {:induction false} CutIsLines(buf: seq<Byte>)
    ensures Joined(Cut(buf).0) + Cut(buf).1 == buf
    ensures forall i :: 0 <= i < |Cut(buf).0| ==> IsLine(Cut(buf).0[i])
    decreases |buf|
  {
    hide Cut;
    CutAt(buf);
    var k := T.IndexOf(buf, LF);
    if k < |buf| {
      var line, rest := buf[..k + 1], buf[k + 1..];
      CutIsLines(rest);
      assert line[..|line| - 1] == buf[..k];
      assert Cut(buf).0[0] == line && Cut(buf).0[1..] == Cut(rest).0;
      assert line + (Joined(Cut(rest).0) + Cut(rest).1) == buf;
    }
  }

  /** Bytes of an incomplete line, and the state of the decoder behind it. */
  datatype Stream<S> = Stream(buf: seq<Byte>, decoder: S)

  function ProcessAll<S>(step: (S, seq<Byte>) -> (S, seq<Item>), s: S, lines: seq<seq<Byte>>): (S, seq<Item>)
    decreases |lines|
  {
    if lines == [] then (s, [])
    else
      var (s1, items) := step(s, lines[0]);
      var (s2, rest) := ProcessAll(step, s1, lines[1..]);
      (s2, items + rest)
  }

  /** One network chunk: complete lines are decoded, the rest stays buffered. */
  function Push<S>(step: (S, seq<Byte>) -> (S, seq<Item>), st: Stream<S>, bytes: seq<Byte>): (Stream<S>, seq<Item>) {
    var (lines, rest) := Cut(st.buf + bytes);
    var (s, items) := ProcessAll(step, st.decoder, lines);
    (Stream(rest, s), items)
  }

  /** A run of network chunks. */
  function Feed<S>(step: (S, seq<Byte>) -> (S, seq<Item>), st: Stream<S>, chunks: seq<seq<Byte>>): (Stream<S>, seq<Item>)
    decreases |chunks|
  {
    if chunks == [] then (st, [])
    else
      var (st1, items) := Push(step, st, chunks[0]);
      var (st2, rest) := Feed(step, st1, chunks[1..]);
      (st2, items + rest)
  }

  lemma {:induction false} AllStep<S>(step: (S, seq<Byte>) -> (S, seq<Item>), s: S, lines: seq<seq<Byte>>)
    requires lines != []
    ensures var (s1, items) := step(s, lines[0]);
            var (s2, rest) := ProcessAll(step, s1, lines[1..]);
            ProcessAll(step, s, lines) == (s2, items + rest)
  {
  }

  lemma {:induction false} NothingToProcess<S>(step: (S, seq<Byte>) -> (S, seq<Item>), s: S)
    ensures ProcessAll(step, s, []) == (s, [])
  {
  }

  lemma {:induction false} AllConcat<S>(step: (S, seq<Byte>) -> (S, seq<Item>), s: S, a: seq<seq<Byte>>, b: seq<seq<Byte>>)
    ensures var (s1, first) := ProcessAll(step, s, a);
            var (s2, second) := ProcessAll(step, s1, b);
            ProcessAll(step, s, a + b) == (s2, first + second)
    decreases |a|
  {
    hide ProcessAll;
    if a == [] {
      assert a + b == b;
      NothingToProcess(step, s);
      assert [] + ProcessAll(step, s, b).1 == ProcessAll(step, s, b).1;
    } else {
      assert (a + b)[1..] == a[1..] + b;
      AllStep(step, s, a);
      AllStep(step, s, a + b);
      var (s0, items) := step(s, a[0]);
      AllConcat(step, s0, a[1..], b);
      var (s1, first) := ProcessAll(step, s0, a[1..]);
      var second := ProcessAll(step, s1, b).1;
      assert items + (first + second) == items + first + second;
    }
  }

  lemma {:induction false} AllSnoc<S>(step: (S, seq<Byte>) -> (S, seq<Item>), s: S, lines: seq<seq<Byte>>, line: seq<Byte>)
    ensures var (s1, items) := ProcessAll(step, s, lines);
            var (s2, last) := step(s1, line);
            ProcessAll(step, s, lines + [line]) == (s2, items + last)
  {
    hide ProcessAll;
    AllConcat(step, s, lines, [line]);
    var s1 := ProcessAll(step, s, lines).0;
    AllStep(step, s1, [line]);
    assert [line][1..] == [];
    NothingToProcess(step, step(s1, line).0);
    assert step(s1, line).1 + [] == step(s1, line).1;
  }

  /** Two network chunks are worth exactly as much as their concatenation. */
  lemma {:induction false} PushComposes<S>(step: (S, seq<Byte>) -> (S, seq<Item>), st: Stream<S>, a: seq<Byte>, b: seq<Byte>)
    ensures var (st1, first) := Push(step, st, a);
            var (st2, second) := Push(step, st1, b);
            Push(step, st, a + b) == (st2, first + second)
  {
    hide ProcessAll, Cut;
    CutComposes(st.buf + a, b);
    assert st.buf + a + b == st.buf + (a + b);
    AllConcat(step, st.decoder, Cut(st.buf + a).0, Cut(Cut(st.buf + a).1 + b).0);
  }

  lemma {:induction false} PushNothing<S>(step: (S, seq<Byte>) -> (S, seq<Item>), st: Stream<S>)
    requires LF !in st.buf
    ensures Push(step, st, []) == (st, [])
  {
    hide ProcessAll, Cut;
    assert st.buf + [] == st.buf;
    CutAt(st.buf);
    NothingToProcess(step, st.decoder);
  }

  lemma {:induction false} PushLeavesPartialLine<S>(step: (S, seq<Byte>) -> (S, seq<Item>), st: Stream<S>, bytes: seq<Byte>)
    ensures LF !in Push(step, st, bytes).0.buf
  {
    hide ProcessAll, Cut;
    RestHasNoNewline(st.buf + bytes);
  }

  /** However the network cuts a stream, the decoder ends in the same state and has produced
      the same events, as if everything had arrived at once. */
  lemma {:induction false} StreamIsChunkInvariant<S>(step: (S, seq<Byte>) -> (S, seq<Item>), st: Stream<S>, chunks: seq<seq<Byte>>)
    requires LF !in st.buf
    ensures Feed(step, st, chunks) == Push(step, st, Joined(chunks))
    ensures LF !in Feed(step, st, chunks).0.buf
    decreases |chunks|
  {
    hide Push;
    if chunks == [] {
      PushNothing(step, st);
    } else {
      var st1 := Push(step, st, chunks[0]).0;
      PushLeavesPartialLine(step, st, chunks[0]);
      StreamIsChunkInvariant(step, st1, chunks[1..]);
      PushComposes(step, st, chunks[0], Joined(chunks[1..]));
    }
  }

  /** The lines of a stream, the unterminated one included. */
  function WithTail(lines: seq<seq<Byte>>, tail: seq<Byte>): seq<seq<Byte>> {
    if tail == [] then lines else lines + [tail]
  }

  lemma {:induction false} FoundNewline(buf: seq<Byte>)
    requires LF in buf
    ensures T.IndexOf(buf, LF) < |buf|
  {
    assert buf[..|buf|] == buf;
  }
}
