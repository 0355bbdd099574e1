/** The online filter that routes `<think>` blocks to reasoning across delta boundaries. */
module ThinkFilter {
  import opened Wrappers
  import opened Events

  const OPEN_TAG := "<think>"
  const CLOSE_TAG := "</think>"

  function Tag(inThinking: bool): string {
    if inThinking then CLOSE_TAG else OPEN_TAG
  }

  function Make(inThinking: bool, text: string): ModelEvent {
    if inThinking then ReasoningDelta(text) else TextDelta(text)
  }

  /** First position where `tag` occurs in `s`. */
  function Find(s: string, tag: string): (r: Option<nat>)
    ensures r.Some? ==> r.value + |tag| <= |s| && tag <= s[r.value..]
  {
    if tag <= s then Some(0)
    else if s == [] then None
    else
      var r := Find(s[1..], tag);
      if r.None? then None
      else
        assert s[1..][r.value..] == s[r.value + 1..];
        Some(r.value + 1)
  }

  predicate EndsWith(s: string, t: string) {
    |t| <= |s| && s[|s| - |t|..] == t
  }

  /** Longest prefix of `tag` of at most `len` characters that ends `s`. */
  function LongestPartial(s: string, tag: string, len: nat): (r: nat)
    requires len <= |tag|
    ensures r <= len && r <= |s|
    ensures EndsWith(s, tag[..r])
    ensures forall k :: r < k <= len ==> !EndsWith(s, tag[..k])
  {
    if len == 0 then 0
    else if EndsWith(s, tag[..len]) then len
    else LongestPartial(s, tag, len - 1)
  }

  /** The length of the longest proper prefix of `tag` that is a suffix of `s`. */
  function PartialTagSuffix(s: string, tag: string): (r: nat)
    requires tag != ""
    ensures r <= |s| && r < |tag|
  {
    LongestPartial(s, tag, |tag| - 1)
  }

  /** What the filter holds between deltas. */
  datatype Filter = Filter(inThinking: bool, held: string)

  const FRESH := Filter(false, "")

  function Emit(inThinking: bool, text: string): seq<ModelEvent> {
    if text == "" then [] else [Make(inThinking, text)]
  }

  /** Routes everything that is unambiguous in `s`, holding back a possible partial tag. */
  function Drain(inThinking: bool, s: string): (Filter, seq<ModelEvent>)
    decreases |s|
  {
    var tag := Tag(inThinking);
    var start := Find(s, tag);
    if start.Some? then
      var (rest, events) := Drain(!inThinking, s[start.value + |tag|..]);
      (rest, Emit(inThinking, s[..start.value]) + events)
    else
      var n := |s| - PartialTagSuffix(s, tag);
      (Filter(inThinking, s[n..]), Emit(inThinking, s[..n]))
  }

  function Push(f: Filter, delta: string): (Filter, seq<ModelEvent>) {
    Drain(f.inThinking, f.held + delta)
  }

  function Finish(f: Filter): (Filter, seq<ModelEvent>) {
    (Filter(f.inThinking, ""), Emit(f.inThinking, f.held))
  }

  lemma {:induction false} DrainAtTag(inThinking: bool, s: string)
    requires Find(s, Tag(inThinking)).Some?
    ensures var k := Find(s, Tag(inThinking)).value;
            var rest := Drain(!inThinking, s[k + |Tag(inThinking)|..]);
            Drain(inThinking, s) == (rest.0, Emit(inThinking, s[..k]) + rest.1)
  {
    hide Find;
  }

  lemma {:induction false} DrainWithoutTag(inThinking: bool, s: string)
    requires Find(s, Tag(inThinking)).None?
    ensures var n := |s| - PartialTagSuffix(s, Tag(inThinking));
            Drain(inThinking, s) == (Filter(inThinking, s[n..]), Emit(inThinking, s[..n]))
  {
    hide Find, PartialTagSuffix;
  }

  /** A drain yields text and reasoning only. */
  lemma {:induction false} DrainIsText(inThinking: bool, s: string)
    ensures OnlyText(AsItems(Drain(inThinking, s).1))
    decreases |s|
  {
    hide Drain, Find, PartialTagSuffix;
    var start := Find(s, Tag(inThinking));
    if start.Some? {
      DrainAtTag(inThinking, s);
      var rest := s[start.value + |Tag(inThinking)|..];
      DrainIsText(!inThinking, rest);
      var head, tail := Emit(inThinking, s[..start.value]), Drain(!inThinking, rest).1;
      assert AsItems(head + tail) == AsItems(head) + AsItems(tail);
    } else {
      DrainWithoutTag(inThinking, s);
    }
  }

  class InlineThinkingFilter {
    var inThinking: bool
    var held: string

    function State(): Filter
      reads this
    {
      Filter(inThinking, held)
    }

    constructor ()
      ensures State() == FRESH
    {
      inThinking, held := false, "";
    }

    /** Feeds one delta; returns the events that became unambiguous. */
    method PushDelta(delta: string) returns (events: seq<ModelEvent>)
      modifies this
      ensures State() == Push(old(State()), delta).0
      ensures events == Push(old(State()), delta).1
    {
      hide Find, PartialTagSuffix, Drain, Emit;
      held := held + delta;
      events := [];
      ghost var t0, s0 := inThinking, held;
      while true
        invariant Drain(t0, s0).0 == Drain(inThinking, held).0
        invariant Drain(t0, s0).1 == events + Drain(inThinking, held).1
        decreases |held|
      {
        var tag := Tag(inThinking);
        var start := Find(held, tag);
        if start.Some? {
          DrainAtTag(inThinking, held);
          ghost var rest := Drain(!inThinking, held[start.value + |tag|..]);
          assert events + (Emit(inThinking, held[..start.value]) + rest.1)
              == events + Emit(inThinking, held[..start.value]) + rest.1;
          events := events + Emit(inThinking, held[..start.value]);
          held := held[start.value + |tag|..];
          inThinking := !inThinking;
          continue;
        }
        DrainWithoutTag(inThinking, held);
        var emitLen := |held| - PartialTagSuffix(held, tag);
        events := events + Emit(inThinking, held[..emitLen]);
        held := held[emitLen..];
        return;
      }
    }

    /** Flushes held-back text at the end of the stream. */
    method FinishStream() returns (events: seq<ModelEvent>)
      modifies this
      ensures (State(), events) == Finish(old(State()))
    {
      if held == "" {
        return [];
      }
      events := [Make(inThinking, held)];
      held := "";
    }
  }

  // ---------------------------------------------------------------------------
  // Reference: one pass over the whole text

  /** One character of output, and whether it is reasoning. */
  type Labeled = (char, bool)

  function Label(inThinking: bool, s: string): (r: seq<Labeled>)
    ensures |r| == |s| && forall i :: 0 <= i < |s| ==> r[i] == (s[i], inThinking)
  {
    seq(|s|, i requires 0 <= i < |s| => (s[i], inThinking))
  }

  /** Splits a complete text: tags toggle the mode and vanish, everything else is kept. */
  function Split(inThinking: bool, s: string): seq<Labeled>
    decreases |s|
  {
    if s == [] then []
    else if Tag(inThinking) <= s then Split(!inThinking, s[|Tag(inThinking)|..])
    else [(s[0], inThinking)] + Split(inThinking, s[1..])
  }

  /** The labelled characters a sequence of events carries. */
  function Labels(events: seq<ModelEvent>): seq<Labeled> {
    if events == [] then [] else EventLabels(events[0]) + Labels(events[1..])
  }

  function EventLabels(event: ModelEvent): seq<Labeled> {
    match event
    case TextDelta(text) => Label(false, text)
    case ReasoningDelta(text) => Label(true, text)
    case _ => []
  }

  lemma {:induction false} LabelsStep(events: seq<ModelEvent>)
    ensures Labels(events) == if events == [] then [] else EventLabels(events[0]) + Labels(events[1..])
  {
  }

  lemma {:induction false} LabelsConcat(a: seq<ModelEvent>, b: seq<ModelEvent>)
    ensures Labels(a + b) == Labels(a) + Labels(b)
  {
    hide *;
    if a == [] {
      LabelsStep(a);
      assert a + b == b;
    } else {
      LabelsConcat(a[1..], b);
      LabelsStep(a);
      LabelsStep(a + b);
      assert (a + b)[0] == a[0] && (a + b)[1..] == a[1..] + b;
      var head := EventLabels(a[0]);
      assert head + (Labels(a[1..]) + Labels(b)) == head + Labels(a[1..]) + Labels(b);
    }
  }

  lemma {:induction false} LabelsEmit(inThinking: bool, text: string)
    ensures Labels(Emit(inThinking, text)) == Label(inThinking, text)
  {
    if text != "" {
      assert Emit(inThinking, text)[1..] == [];
    }
  }

  /** No tag starts inside `p` when `x` follows, not even a partial one that `x` leaves open. */
  ghost predicate Settled(tag: string, p: string, x: string) {
    forall i :: 0 <= i < |p| ==> !(tag <= (p + x)[i..]) && !((p + x)[i..] <= tag)
  }

  lemma {:induction false} SettledTail(tag: string, p: string, x: string)
    requires Settled(tag, p, x) && p != []
    ensures Settled(tag, p[1..], x) && !(tag <= p + x)
  {
    var y := p + x;
    assert y[0..] == y;
    forall i | 0 <= i < |p[1..]| ensures !(tag <= (p[1..] + x)[i..]) && !((p[1..] + x)[i..] <= tag) {
      assert (p[1..] + x)[i..] == y[i + 1..];
    }
  }

  lemma {:induction false} FindStep(s: string, tag: string)
    requires s != [] && !(tag <= s)
    ensures Find(s, tag) == (var r := Find(s[1..], tag); if r.None? then None else Some(r.value + 1))
  {
  }

  lemma {:induction false} FindSkips(tag: string, p: string, x: string)
    requires Settled(tag, p, x)
    ensures Find(p + x, tag) ==
            (var r := Find(x, tag); if r.None? then None else Some(|p| + r.value))
  {
    hide Settled, Find;
    if p == [] {
      assert p + x == x;
    } else {
      SettledTail(tag, p, x);
      FindStep(p + x, tag);
      assert (p + x)[1..] == p[1..] + x;
      FindSkips(tag, p[1..], x);
    }
  }

  lemma {:induction false} FindExtends(s: string, b: string, tag: string)
    requires Find(s, tag).Some?
    ensures Find(s + b, tag) == Find(s, tag)
  {
    if tag <= s {
      assert tag <= s + b;
    } else {
      assert s != [] && (s + b)[1..] == s[1..] + b;
      FindExtends(s[1..], b, tag);
      assert Find(s, tag) == Some(Find(s[1..], tag).value + 1);
      if tag <= s + b {
        NotLater(s, b, tag);
      }
    }
  }

  /** A tag that does occur in `s` and starts `s + b` already starts `s`. */
  lemma {:induction false} NotLater(s: string, b: string, tag: string)
    requires Find(s, tag).Some? && tag <= s + b
    ensures tag <= s
  {
    assert |tag| <= |s|;
    assert (s + b)[..|tag|] == s[..|tag|];
  }

  /** A partial tag reaching back into settled text cannot end it. */
  lemma {:induction false} NoLongPartial(tag: string, p: string, x: string, r: nat)
    requires Settled(tag, p, x) && |x| < r <= |tag|
    ensures !EndsWith(p + x, tag[..r])
  {
    var y := p + x;
    if r <= |y| {
      var i := |y| - r;
      assert !(y[i..] <= tag);
      assert tag[..r] <= tag;
    }
  }

  lemma {:induction false} PartialSkips(tag: string, p: string, x: string)
    requires tag != "" && Settled(tag, p, x)
    ensures PartialTagSuffix(p + x, tag) == PartialTagSuffix(x, tag)
  {
    var y := p + x;
    var r, q := PartialTagSuffix(y, tag), PartialTagSuffix(x, tag);
    forall k | |x| < k < |tag| ensures !EndsWith(y, tag[..k]) {
      NoLongPartial(tag, p, x, k);
    }
    assert r <= |x|;
    assert y[|y| - r..] == x[|x| - r..];
    assert y[|y| - q..] == x[|x| - q..];
  }

  lemma {:induction false} DrainSkipsToTag(inThinking: bool, p: string, x: string)
    requires Settled(Tag(inThinking), p, x) && Find(x, Tag(inThinking)).Some?
    ensures Drain(inThinking, p + x).0 == Drain(inThinking, x).0
    ensures Labels(Drain(inThinking, p + x).1) == Label(inThinking, p) + Labels(Drain(inThinking, x).1)
  {
    hide Find, PartialTagSuffix, Drain, Emit, Settled, Labels;
    var y, tag := p + x, Tag(inThinking);
    FindSkips(tag, p, x);
    var k := Find(x, tag).value;
    DrainAtTag(inThinking, x);
    DrainAtTag(inThinking, y);
    assert y[|p| + k + |tag|..] == x[k + |tag|..];
    assert y[..|p| + k] == p + x[..k];
    LabelsEmit(inThinking, y[..|p| + k]);
    LabelsEmit(inThinking, x[..k]);
    var rest := Drain(!inThinking, x[k + |tag|..]).1;
    LabelsConcat(Emit(inThinking, y[..|p| + k]), rest);
    LabelsConcat(Emit(inThinking, x[..k]), rest);
    assert Label(inThinking, p + x[..k]) == Label(inThinking, p) + Label(inThinking, x[..k]);
  }

  /** Text where no tag can start any more is routed as it stands. */
  lemma {:induction false} DrainSkips(inThinking: bool, p: string, x: string)
    requires Settled(Tag(inThinking), p, x)
    ensures Drain(inThinking, p + x).0 == Drain(inThinking, x).0
    ensures Labels(Drain(inThinking, p + x).1) == Label(inThinking, p) + Labels(Drain(inThinking, x).1)
  {
    hide Find, PartialTagSuffix, Drain, Emit, Settled, Labels;
    var y, tag := p + x, Tag(inThinking);
    if Find(x, tag).Some? {
      DrainSkipsToTag(inThinking, p, x);
    } else {
      FindSkips(tag, p, x);
      PartialSkips(tag, p, x);
      DrainWithoutTag(inThinking, x);
      DrainWithoutTag(inThinking, y);
      var n := |x| - PartialTagSuffix(x, tag);
      assert y[..|p| + n] == p + x[..n];
      assert y[|p| + n..] == x[n..];
      LabelsEmit(inThinking, y[..|p| + n]);
      LabelsEmit(inThinking, x[..n]);
    }
  }

  lemma {:induction false} FindNone(s: string, tag: string, i: nat)
    requires Find(s, tag).None? && i <= |s|
    ensures !(tag <= s[i..])
  {
    if i > 0 {
      FindNone(s[1..], tag, i - 1);
      assert s[1..][i - 1..] == s[i..];
    } else {
      assert s[0..] == s;
    }
  }

  /** What the filter emits of a tagless text can no longer become part of a tag. */
  lemma {:induction false} EmittedIsSettled(tag: string, s: string, b: string)
    requires tag != "" && Find(s, tag).None?
    ensures var n := |s| - PartialTagSuffix(s, tag);
            n <= |s| && Settled(tag, s[..n], s[n..] + b)
  {
    var r := PartialTagSuffix(s, tag);
    var n := |s| - r;
    var y := s[..n] + (s[n..] + b);
    assert y == s + b;
    forall i | 0 <= i < n ensures !(tag <= y[i..]) && !(y[i..] <= tag) {
      FindNone(s, tag, i);
      var rest := s[i..];
      assert y[i..] == rest + b;
      if |rest| < |tag| {
        // A partial tag starting at i would be longer than the longest one.
        assert !EndsWith(s, tag[..|rest|]);
        assert s[|s| - |rest|..] == rest;
        assert y[i..][..|rest|] == rest;
      } else {
        assert y[i..][..|tag|] == rest[..|tag|];
      }
    }
  }

  /** Draining in two steps is draining at once: same state, same labelled output. */
  lemma {:induction false} DrainComposes(inThinking: bool, a: string, b: string)
    ensures var (f, first) := Drain(inThinking, a);
            var (g, second) := Push(f, b);
            var (h, whole) := Drain(inThinking, a + b);
            g == h && Labels(whole) == Labels(first) + Labels(second)
    decreases |a|
  {
    hide Find, PartialTagSuffix, Drain, Emit, Settled, Labels;
    var tag := Tag(inThinking);
    var start := Find(a, tag);
    if start.Some? {
      var k := start.value;
      FindExtends(a, b, tag);
      DrainAtTag(inThinking, a);
      DrainAtTag(inThinking, a + b);
      var rest := a[k + |tag|..];
      assert (a + b)[k + |tag|..] == rest + b;
      assert (a + b)[..k] == a[..k];
      DrainComposes(!inThinking, rest, b);
      var head := Emit(inThinking, a[..k]);
      LabelsConcat(head, Drain(!inThinking, rest).1);
      LabelsConcat(head, Drain(!inThinking, rest + b).1);
    } else {
      var n := |a| - PartialTagSuffix(a, tag);
      EmittedIsSettled(tag, a, b);
      DrainWithoutTag(inThinking, a);
      DrainSkips(inThinking, a[..n], a[n..] + b);
      assert a[..n] + (a[n..] + b) == a + b;
      LabelsEmit(inThinking, a[..n]);
    }
  }

  lemma {:induction false} SplitStep(inThinking: bool, s: string)
    requires s != [] && !(Tag(inThinking) <= s)
    ensures Split(inThinking, s) == [(s[0], inThinking)] + Split(inThinking, s[1..])
  {
  }

  lemma {:induction false} SplitSkips(inThinking: bool, p: string, x: string)
    requires forall i :: 0 <= i < |p| ==> !(Tag(inThinking) <= (p + x)[i..])
    ensures Split(inThinking, p + x) == Label(inThinking, p) + Split(inThinking, x)
  {
    hide Split;
    if p == [] {
      assert p + x == x;
    } else {
      var y := p + x;
      assert y[0..] == y;
      assert y[1..] == p[1..] + x;
      forall i | 0 <= i < |p[1..]| ensures !(Tag(inThinking) <= (p[1..] + x)[i..]) {
        assert (p[1..] + x)[i..] == y[i + 1..];
      }
      SplitStep(inThinking, y);
      SplitSkips(inThinking, p[1..], x);
      assert Label(inThinking, p) == [(p[0], inThinking)] + Label(inThinking, p[1..]);
    }
  }

  lemma {:induction false} FindIsFirst(s: string, tag: string, i: nat)
    requires Find(s, tag).Some? && i < Find(s, tag).value
    ensures !(tag <= s[i..])
  {
    if i > 0 {
      FindIsFirst(s[1..], tag, i - 1);
      assert s[1..][i - 1..] == s[i..];
    } else {
      assert s[0..] == s;
    }
  }

  lemma {:induction false} SplitAtTag(inThinking: bool, s: string)
    requires Find(s, Tag(inThinking)).Some?
    ensures var k := Find(s, Tag(inThinking)).value;
            Split(inThinking, s) == Label(inThinking, s[..k]) + Split(!inThinking, s[k + |Tag(inThinking)|..])
  {
    var tag := Tag(inThinking);
    var k := Find(s, tag).value;
    assert s == s[..k] + s[k..];
    forall i | 0 <= i < k ensures !(tag <= (s[..k] + s[k..])[i..]) {
      FindIsFirst(s, tag, i);
    }
    hide Find;
    SplitSkips(inThinking, s[..k], s[k..]);
    assert s[k..][|tag|..] == s[k + |tag|..];
  }

  lemma {:induction false} SplitWithoutTag(inThinking: bool, s: string)
    requires Find(s, Tag(inThinking)).None?
    ensures Split(inThinking, s) == Label(inThinking, s)
  {
    assert s + [] == s;
    forall i | 0 <= i < |s| ensures !(Tag(inThinking) <= (s + [])[i..]) {
      FindNone(s, Tag(inThinking), i);
    }
    SplitSkips(inThinking, s, []);
  }

  /** One drain and a flush split a text exactly as the reference does. */
  lemma {:induction false} DrainSplits(inThinking: bool, s: string)
    ensures var (f, events) := Drain(inThinking, s);
            Labels(events) + Label(f.inThinking, f.held) == Split(inThinking, s)
    decreases |s|
  {
    hide Find, PartialTagSuffix, Drain, Emit, Labels, Split;
    var tag := Tag(inThinking);
    var start := Find(s, tag);
    if start.Some? {
      var k := start.value;
      var rest := s[k + |tag|..];
      DrainAtTag(inThinking, s);
      SplitAtTag(inThinking, s);
      DrainSplits(!inThinking, rest);
      LabelsConcat(Emit(inThinking, s[..k]), Drain(!inThinking, rest).1);
      LabelsEmit(inThinking, s[..k]);
    } else {
      var n := |s| - PartialTagSuffix(s, tag);
      DrainWithoutTag(inThinking, s);
      SplitWithoutTag(inThinking, s);
      LabelsEmit(inThinking, s[..n]);
      assert Label(inThinking, s) == Label(inThinking, s[..n]) + Label(inThinking, s[n..]);
    }
  }

  // ---------------------------------------------------------------------------
  // Whole streams

  function Concat(deltas: seq<string>): string {
    if deltas == [] then "" else Concat(deltas[..|deltas| - 1]) + deltas[|deltas| - 1]
  }

  /** The filter's state and events after a run of deltas. */
  function Run(deltas: seq<string>): (Filter, seq<ModelEvent>) {
    if deltas == [] then (FRESH, [])
    else
      var (f, before) := Run(deltas[..|deltas| - 1]);
      var (g, events) := Push(f, deltas[|deltas| - 1]);
      (g, before + events)
  }

  lemma {:induction false} RunIsOneDrain(deltas: seq<string>)
    ensures Run(deltas).0 == Drain(false, Concat(deltas)).0
    ensures Labels(Run(deltas).1) == Labels(Drain(false, Concat(deltas)).1)
  {
    if deltas == [] {
      assert Find("", OPEN_TAG).None?;
    } else {
      var init, last := deltas[..|deltas| - 1], deltas[|deltas| - 1];
      RunIsOneDrain(init);
      DrainComposes(false, Concat(init), last);
      LabelsConcat(Run(init).1, Push(Run(init).0, last).1);
    }
  }

  /** However a text is cut into deltas, every character comes out once, in order, and is
      reasoning exactly when the one-pass reference says so. */
  lemma {:induction false} FilterIsChunkInvariant(deltas: seq<string>)
    ensures var (f, events) := Run(deltas);
            Labels(events + Finish(f).1) == Split(false, Concat(deltas))
  {
    var (f, events) := Run(deltas);
    RunIsOneDrain(deltas);
    DrainSplits(false, Concat(deltas));
    LabelsConcat(events, Finish(f).1);
    LabelsEmit(f.inThinking, f.held);
  }

  // ---------------------------------------------------------------------------
  // What is held between deltas

  /** Whether the one-pass reference is inside a thinking block once it has read `s`. */
  function ModeAfter(inThinking: bool, s: string): bool
    decreases |s|
  {
    if s == [] then inThinking
    else if Tag(inThinking) <= s then ModeAfter(!inThinking, s[|Tag(inThinking)|..])
    else ModeAfter(inThinking, s[1..])
  }

  lemma {:induction false} ModeStep(inThinking: bool, s: string)
    requires s != [] && !(Tag(inThinking) <= s)
    ensures ModeAfter(inThinking, s) == ModeAfter(inThinking, s[1..])
  {
  }

  lemma {:induction false} ModeAtTag(inThinking: bool, s: string)
    requires Find(s, Tag(inThinking)).Some?
    ensures var k := Find(s, Tag(inThinking)).value;
            ModeAfter(inThinking, s) == ModeAfter(!inThinking, s[k + |Tag(inThinking)|..])
    decreases |s|
  {
    var tag := Tag(inThinking);
    if !(tag <= s) {
      FindStep(s, tag);
      ModeStep(inThinking, s);
      ModeAtTag(inThinking, s[1..]);
      var k := Find(s[1..], tag).value;
      assert s[1..][k + |tag|..] == s[k + 1 + |tag|..];
    }
  }

  lemma {:induction false} ModeWithoutTag(inThinking: bool, s: string)
    requires Find(s, Tag(inThinking)).None?
    ensures ModeAfter(inThinking, s) == inThinking
    decreases |s|
  {
    if s != [] {
      ModeStep(inThinking, s);
      ModeWithoutTag(inThinking, s[1..]);
    }
  }

  /** `s` is what is left of `whole` behind some tag, or all of it. */
  ghost predicate Behind(whole: string, s: string) {
    EndsWith(whole, s) && (|s| < |whole| ==> whole[|whole| - |s| - 1] == '>')
  }

  /** A proper prefix of a tag holds no `>`, so none reaches back into a tag already consumed. */
  lemma {:induction false} PartialIsBehind(whole: string, s: string, inThinking: bool, k: nat)
    requires Behind(whole, s) && k < |Tag(inThinking)|
    ensures EndsWith(whole, Tag(inThinking)[..k]) <==> EndsWith(s, Tag(inThinking)[..k])
  {
    var partial := Tag(inThinking)[..k];
    assert '>' !in partial;
    if k <= |s| {
      assert s[|s| - k..] == whole[|whole| - k..];
    } else if k <= |whole| {
      assert whole[|whole| - k..][k - |s| - 1] == '>';
    }
  }

  lemma {:induction false} PartialsAgree(whole: string, s: string, inThinking: bool)
    requires Behind(whole, s)
    ensures PartialTagSuffix(whole, Tag(inThinking)) == PartialTagSuffix(s, Tag(inThinking))
  {
    var tag := Tag(inThinking);
    var r, q := PartialTagSuffix(whole, tag), PartialTagSuffix(s, tag);
    PartialIsBehind(whole, s, inThinking, r);
    PartialIsBehind(whole, s, inThinking, q);
  }

  lemma {:induction false} BehindTag(whole: string, s: string, inThinking: bool, k: nat)
    requires Behind(whole, s) && k + |Tag(inThinking)| <= |s| && Tag(inThinking) <= s[k..]
    ensures Behind(whole, s[k + |Tag(inThinking)|..])
  {
    var tag := Tag(inThinking);
    var rest := s[k + |tag|..];
    assert s[k + |tag| - 1] == s[k..][|tag| - 1] == '>';
    assert whole[|whole| - |s|..] == s;
    assert whole[|whole| - |rest|..] == rest;
  }

  lemma {:induction false} DrainHolds(whole: string, inThinking: bool, s: string)
    requires Behind(whole, s)
    ensures var f := Drain(inThinking, s).0;
            && f.inThinking == ModeAfter(inThinking, s)
            && EndsWith(whole, f.held)
            && |f.held| == PartialTagSuffix(whole, Tag(f.inThinking))
    decreases |s|
  {
    hide Drain, Find, ModeAfter, PartialTagSuffix, Behind;
    var tag := Tag(inThinking);
    var start := Find(s, tag);
    if start.Some? {
      DrainAtTag(inThinking, s);
      ModeAtTag(inThinking, s);
      BehindTag(whole, s, inThinking, start.value);
      DrainHolds(whole, !inThinking, s[start.value + |tag|..]);
    } else {
      DrainWithoutTag(inThinking, s);
      ModeWithoutTag(inThinking, s);
      PartialsAgree(whole, s, inThinking);
      TailIsBehind(whole, s, PartialTagSuffix(s, tag));
    }
  }

  lemma {:induction false} TailIsBehind(whole: string, s: string, r: nat)
    requires Behind(whole, s) && r <= |s|
    ensures EndsWith(whole, s[|s| - r..])
  {
    var n := |whole| - |s|;
    assert whole[n..] == s;
    SliceOfSlice(whole, n, |s| - r);
  }

  lemma {:induction false} SliceOfSlice(s: string, n: nat, k: nat)
    requires n + k <= |s|
    ensures s[n..][k..] == s[n + k..]
  {
  }

  /** Between deltas the filter is in the mode of the one-pass reference, and what it holds back
      of the text read so far is exactly the longest beginning of the awaited tag it ends in. */
  lemma {:induction false} HeldIsLongestPartial(deltas: seq<string>)
    ensures var f, whole := Run(deltas).0, Concat(deltas);
            && f.inThinking == ModeAfter(false, whole)
            && EndsWith(whole, f.held)
            && |f.held| == PartialTagSuffix(whole, Tag(f.inThinking))
  {
    hide Drain, Run, ModeAfter, PartialTagSuffix;
    RunIsOneDrain(deltas);
    DrainHolds(Concat(deltas), false, Concat(deltas));
  }

  // ---------------------------------------------------------------------------
  // What a decoder shows of a text it has fed to the filter

  /** The labelled characters among some items, in order. */
  function Speech(items: seq<Item>): seq<Labeled> {
    if items == [] then [] else ItemLabels(items[0]) + Speech(items[1..])
  }

  function ItemLabels(item: Item): seq<Labeled> {
    match item
    case Ok(TextDelta(text)) => Label(false, text)
    case Ok(ReasoningDelta(text)) => Label(true, text)
    case _ => []
  }

  /** Of a text read in some mode, what can no longer become part of a tag: all the one-pass reference gives but
      the longest beginning of the awaited tag the text ends in. */
  function Shown(inThinking: bool, text: string): seq<Labeled> {
    var all := Split(inThinking, text);
    var held := PartialTagSuffix(text, Tag(ModeAfter(inThinking, text)));
    if held <= |all| then all[..|all| - held] else []
  }

  /** That beginning of a tag. */
  function HeldBack(inThinking: bool, text: string): seq<Labeled> {
    var mode := ModeAfter(inThinking, text);
    Label(mode, text[|text| - PartialTagSuffix(text, Tag(mode))..])
  }

  lemma {:induction false} SpeechStep(items: seq<Item>)
    ensures Speech(items) == if items == [] then [] else ItemLabels(items[0]) + Speech(items[1..])
  {
  }

  lemma {:induction false} SpeechConcat(a: seq<Item>, b: seq<Item>)
    ensures Speech(a + b) == Speech(a) + Speech(b)
  {
    hide *;
    if a == [] {
      SpeechStep(a);
      assert a + b == b;
    } else {
      SpeechConcat(a[1..], b);
      SpeechStep(a);
      SpeechStep(a + b);
      assert (a + b)[0] == a[0] && (a + b)[1..] == a[1..] + b;
      var head := ItemLabels(a[0]);
      assert head + (Speech(a[1..]) + Speech(b)) == head + Speech(a[1..]) + Speech(b);
    }
  }

  lemma {:induction false} SpeechOfOne(item: Item)
    ensures Speech([item]) == ItemLabels(item) && Speech([]) == []
  {
    assert [item][1..] == [];
    assert ItemLabels(item) + [] == ItemLabels(item);
  }

  lemma {:induction false} SpeechOfEvents(events: seq<ModelEvent>)
    ensures Speech(AsItems(events)) == Labels(events)
  {
    if events != [] {
      SpeechOfEvents(events[1..]);
      assert AsItems(events)[1..] == AsItems(events[1..]);
    }
  }

  /** Items that are neither text nor reasoning say nothing. */
  lemma {:induction false} MuteSaysNothing(items: seq<Item>)
    requires forall i :: 0 <= i < |items| ==> ItemLabels(items[i]) == []
    ensures Speech(items) == []
  {
    if items != [] {
      MuteSaysNothing(items[1..]);
    }
  }

  /** The filter after a text, and what it has emitted of it. */
  lemma {:induction false} DrainShows(inThinking: bool, text: string)
    ensures Labels(Drain(inThinking, text).1) == Shown(inThinking, text)
    ensures var f := Drain(inThinking, text).0;
            f.inThinking == ModeAfter(inThinking, text) && Label(f.inThinking, f.held) == HeldBack(inThinking, text)
  {
    hide Drain, Split, ModeAfter, PartialTagSuffix, Labels;
    DrainSplits(inThinking, text);
    DrainHolds(text, inThinking, text);
    var f := Drain(inThinking, text).0;
    assert Label(f.inThinking, f.held) == HeldBack(inThinking, text);
  }

  /** What one more piece of a text makes the filter emit. */
  lemma {:induction false} PushShows(inThinking: bool, text: string, delta: string)
    ensures var (f, events) := Push(Drain(inThinking, text).0, delta);
            && f == Drain(inThinking, text + delta).0
            && Shown(inThinking, text) <= Shown(inThinking, text + delta)
            && Labels(events) == Shown(inThinking, text + delta)[|Shown(inThinking, text)|..]
  {
    hide Drain, Push, Shown, Labels;
    DrainComposes(inThinking, text, delta);
    DrainShows(inThinking, text);
    DrainShows(inThinking, text + delta);
  }

  /** Flushing the filter emits what it held and leaves its mode. */
  lemma {:induction false} FinishShows(inThinking: bool, text: string)
    ensures var (f, events) := Finish(Drain(inThinking, text).0);
            && f == Drain(ModeAfter(inThinking, text), "").0
            && Labels(events) == HeldBack(inThinking, text)
  {
    hide Drain, Labels, ModeAfter, HeldBack, Emit;
    DrainShows(inThinking, text);
    LabelsEmit(Drain(inThinking, text).0.inThinking, Drain(inThinking, text).0.held);
    DrainOfNothing(ModeAfter(inThinking, text));
  }

  lemma {:induction false} DrainOfNothing(inThinking: bool)
    ensures Drain(inThinking, "") == (Filter(inThinking, ""), [])
  {
    assert Find("", Tag(inThinking)).None?;
  }

  /** Nothing is lost between the two. */
  lemma {:induction false} ShownAndHeld(inThinking: bool, text: string)
    ensures Shown(inThinking, text) + HeldBack(inThinking, text) == Split(inThinking, text)
  {
    hide Drain, Split, ModeAfter, PartialTagSuffix, Labels, Shown, HeldBack;
    DrainSplits(inThinking, text);
    DrainShows(inThinking, text);
  }
}
