/** Reassembly of interleaved tool-call fragments. */
module OpenAiTools {
  import opened Wrappers
  import opened Messages
  import opened Events
  import opened SseLines
  import opened OpenAiStream
  import T = Text
  import F = ThinkFilter

  // ---------------------------------------------------------------------------
  // Specification: what belongs to one key

  /** The last id-keyed accumulator after some fragments. */
  function LastAfter(last: Option<ToolKey>, fragments: seq<Fragment>): Option<ToolKey> {
    if fragments == [] then last
    else NextLast(LastAfter(last, fragments[..|fragments| - 1]), fragments[|fragments| - 1])
  }

  /** The fragments that carry `key`, in order: by index, else by id, else by the last id. */
  function FragmentsFor(key: ToolKey, last: Option<ToolKey>, fragments: seq<Fragment>): seq<Fragment> {
    if fragments == [] then []
    else
      var init, f := fragments[..|fragments| - 1], fragments[|fragments| - 1];
      FragmentsFor(key, last, init) + if KeyOf(LastAfter(last, init), f) == key then [f] else []
  }

  function ArgsOf(fragments: seq<Fragment>): string {
    if fragments == [] then ""
    else
      var f := fragments[|fragments| - 1];
      ArgsOf(fragments[..|fragments| - 1]) + if f.args.Some? then f.args.value else ""
  }

  function LastId(fragments: seq<Fragment>): Option<string> {
    if fragments == [] then None
    else if NonEmpty(fragments[|fragments| - 1].id) then fragments[|fragments| - 1].id
    else LastId(fragments[..|fragments| - 1])
  }

  function LastName(fragments: seq<Fragment>): Option<string> {
    if fragments == [] then None
    else if NonEmpty(fragments[|fragments| - 1].name) then fragments[|fragments| - 1].name
    else LastName(fragments[..|fragments| - 1])
  }

  /** The call those fragments make up, if there are any. */
  function Assembled(fragments: seq<Fragment>): Option<Accum> {
    if fragments == [] then None
    else Some(Accum(LastId(fragments), LastName(fragments), ArgsOf(fragments)))
  }

  function Lookup(tools: Tools, key: ToolKey): Option<Accum> {
    if tools == [] then None
    else if tools[0].0 == key then Some(tools[0].1)
    else Lookup(tools[1..], key)
  }

  /** Keys strictly increase. */
  ghost predicate Sorted(tools: Tools) {
    forall i, j :: 0 <= i < j < |tools| ==> KeyLess(tools[i].0, tools[j].0)
  }

  // ---------------------------------------------------------------------------

  lemma {:induction false} KeyLessIsStrict(a: ToolKey, b: ToolKey, c: ToolKey)
    ensures !KeyLess(a, a)
    ensures KeyLess(a, b) && KeyLess(b, c) ==> KeyLess(a, c)
    ensures a != b ==> KeyLess(a, b) || KeyLess(b, a)
  {
    if a.Id? {
      T.StringLessIrreflexive(a.id);
    }
    if a.Id? && b.Id? {
      if a != b {
        T.StringLessTotal(a.id, b.id);
      }
      if c.Id? && KeyLess(a, b) && KeyLess(b, c) {
        T.StringLessTransitive(a.id, b.id, c.id);
      }
    }
  }

  lemma {:induction false} LookupAbsent(tools: Tools, key: ToolKey)
    requires forall i :: 0 <= i < |tools| ==> tools[i].0 != key
    ensures Lookup(tools, key) == None
  {
    if tools != [] {
      LookupAbsent(tools[1..], key);
    }
  }

  lemma {:induction false} BelowHeadIsAbsent(tools: Tools, key: ToolKey)
    requires Sorted(tools) && tools != [] && KeyLess(key, tools[0].0)
    ensures forall i :: 0 <= i < |tools| ==> KeyLess(key, tools[i].0) && tools[i].0 != key
  {
    forall i | 0 <= i < |tools| ensures KeyLess(key, tools[i].0) && tools[i].0 != key {
      KeyLessIsStrict(key, tools[0].0, tools[i].0);
    }
  }

  lemma {:induction false} UpsertKeys(tools: Tools, key: ToolKey, f: Fragment, i: nat)
    requires i < |Upsert(tools, key, f)|
    ensures var k := Upsert(tools, key, f)[i].0;
            k == key || exists j :: 0 <= j < |tools| && tools[j].0 == k
  {
    if tools != [] && tools[0].0 != key && !KeyLess(key, tools[0].0) && i > 0 {
      UpsertKeys(tools[1..], key, f, i - 1);
      var k := Upsert(tools, key, f)[i].0;
      assert k == Upsert(tools[1..], key, f)[i - 1].0;
      if k != key {
        var j :| 0 <= j < |tools[1..]| && tools[1..][j].0 == k;
        assert tools[j + 1].0 == k;
      }
    } else if tools != [] && i < |tools| {
      assert tools[i].0 == tools[i].0;
    }
  }

  lemma {:induction false} UpsertKeepsSorted(tools: Tools, key: ToolKey, f: Fragment)
    requires Sorted(tools)
    ensures Sorted(Upsert(tools, key, f))
  {
    if tools != [] && tools[0].0 != key {
      var after := Upsert(tools, key, f);
      if KeyLess(key, tools[0].0) {
        BelowHeadIsAbsent(tools, key);
      } else {
        KeyLessIsStrict(tools[0].0, key, key);
        UpsertKeepsSorted(tools[1..], key, f);
        var rest := Upsert(tools[1..], key, f);
        forall j | 0 <= j < |rest| ensures KeyLess(tools[0].0, rest[j].0) {
          UpsertKeys(tools[1..], key, f, j);
        }
        assert after == [tools[0]] + rest;
      }
    }
  }

  /** Absorbing a fragment touches its own key and no other. */
  lemma {:induction false} LookupUpsert(tools: Tools, key: ToolKey, f: Fragment, other: ToolKey)
    requires Sorted(tools)
    ensures Lookup(Upsert(tools, key, f), other) ==
            if other != key then Lookup(tools, other)
            else
              var acc := Lookup(tools, key);
              Some(Absorb(if acc.Some? then acc.value else EMPTY_ACCUM, f))
  {
    hide Absorb, Sorted;
    if tools != [] {
      if tools[0].0 == key {
        assert ([(key, Absorb(tools[0].1, f))] + tools[1..])[1..] == tools[1..];
      } else if KeyLess(key, tools[0].0) {
        assert ([(key, Absorb(EMPTY_ACCUM, f))] + tools)[1..] == tools;
        AbsentBelowHead(tools, key);
      } else {
        assert ([tools[0]] + Upsert(tools[1..], key, f))[1..] == Upsert(tools[1..], key, f);
        SortedTail(tools);
        LookupUpsert(tools[1..], key, f, other);
      }
    }
  }

  lemma {:induction false} SortedTail(tools: Tools)
    requires Sorted(tools) && tools != []
    ensures Sorted(tools[1..])
  {
  }

  lemma {:induction false} AbsentBelowHead(tools: Tools, key: ToolKey)
    requires Sorted(tools) && tools != [] && KeyLess(key, tools[0].0)
    ensures Lookup(tools, key) == None
  {
    BelowHeadIsAbsent(tools, key);
    LookupAbsent(tools, key);
  }

  lemma {:induction false} AssembledSnoc(fragments: seq<Fragment>, f: Fragment)
    ensures Assembled(fragments + [f]) ==
            Some(Absorb(if fragments == [] then EMPTY_ACCUM else Assembled(fragments).value, f))
  {
    var all := fragments + [f];
    assert all[..|all| - 1] == fragments && all[|all| - 1] == f;
    assert LastId(all) == if NonEmpty(f.id) then f.id else LastId(fragments);
    assert LastName(all) == if NonEmpty(f.name) then f.name else LastName(fragments);
    assert ArgsOf(all) == ArgsOf(fragments) + if f.args.Some? then f.args.value else "";
  }

  /** Demultiplexing: for any interleaving, the accumulator of a key holds the in-order
      concatenation of exactly that key's argument fragments, its last non-empty id and its
      last non-empty name; a key no fragment carried has none. */
  lemma {:induction false} GatherDemultiplexes(last: Option<ToolKey>, fragments: seq<Fragment>, key: ToolKey)
    ensures var g := Gather(Gathering([], last), fragments);
            && Sorted(g.tools)
            && g.last == LastAfter(last, fragments)
            && Lookup(g.tools, key) == Assembled(FragmentsFor(key, last, fragments))
  {
    hide Assembled, Absorb, Sorted, KeyOf, NextLast;
    if fragments != [] {
      var init, f := fragments[..|fragments| - 1], fragments[|fragments| - 1];
      GatherDemultiplexes(last, init, key);
      var before := Gather(Gathering([], last), init);
      var k := KeyOf(before.last, f);
      UpsertKeepsSorted(before.tools, k, f);
      LookupUpsert(before.tools, k, f, key);
      if k == key {
        AssembledSnoc(FragmentsFor(key, last, init), f);
        AssembledIsSome(FragmentsFor(key, last, init));
      } else {
        assert FragmentsFor(key, last, fragments) == FragmentsFor(key, last, init);
      }
    } else {
      EmptyGathering(key);
    }
  }

  lemma {:induction false} EmptyGathering(key: ToolKey)
    ensures Sorted([]) && Assembled([]) == None
  {
  }

  lemma {:induction false} AssembledIsSome(fragments: seq<Fragment>)
    ensures Assembled(fragments).None? <==> fragments == []
  {
  }

  // ---------------------------------------------------------------------------
  // Whole streams

  /** The fragments since the last flush or discard, and the last id-keyed accumulator then. */
  datatype Pending = Pending(last: Option<ToolKey>, fragments: seq<Fragment>)

  function Flushed(p: Pending): Pending {
    Pending(LastAfter(p.last, p.fragments), [])
  }

  function PendingAfterChoice(p: Pending, choice: Choice): Pending {
    var p1 := Pending(p.last, p.fragments + choice.fragments);
    if choice.finish == Some("length") then Pending(None, [])
    else if choice.finish == Some("tool_calls") then Flushed(p1)
    else p1
  }

  function PendingAfter(codec: Codec, p: Pending, line: string): Pending {
    if !(DATA <= line) then p
    else
      var payload := T.Trim(line[|DATA|..]);
      if payload == "[DONE]" then Flushed(p)
      else match codec.parse(payload)
        case Ok(chunk) => if chunk.choice.Some? then PendingAfterChoice(p, chunk.choice.value) else p
        case Err(_) => p
  }

  function PendingAfterAll(codec: Codec, p: Pending, lines: seq<seq<Byte>>): Pending
    decreases |lines|
  {
    if lines == [] then p
    else PendingAfterAll(codec, PendingAfter(codec, p, T.Trim(codec.decode(lines[0]))), lines[1..])
  }

  ghost predicate Matches(d: Decoder, p: Pending) {
    Gathering(d.tools, d.lastKeyless) == Gather(Gathering([], p.last), p.fragments)
  }

  lemma {:induction false} GatherConcat(g: Gathering, a: seq<Fragment>, b: seq<Fragment>)
    ensures Gather(g, a + b) == Gather(Gather(g, a), b)
  {
    if b == [] {
      assert a + b == a;
    } else {
      assert (a + b)[..|a + b| - 1] == a + b[..|b| - 1];
      GatherConcat(g, a, b[..|b| - 1]);
    }
  }

  lemma {:induction false} FlushMatches(codec: Codec, d: Decoder, p: Pending)
    requires Matches(d, p)
    ensures Matches(FlushTools(codec, d).0, Flushed(p))
  {
    GatherDemultiplexes(p.last, p.fragments, Id(""));
  }

  lemma {:induction false} ChoiceMatches(codec: Codec, d: Decoder, p: Pending, choice: Choice)
    requires Matches(d, p)
    ensures Matches(HandleChoice(codec, d, choice).0, PendingAfterChoice(p, choice))
  {
    hide Gather, F.Push, FlushAll, FinishWarning;
    var d1 := HandleContent(d, choice.content).0;
    var d2 := HandleFragments(d1, choice.fragments);
    var p1 := Pending(p.last, p.fragments + choice.fragments);
    GatherConcat(Gathering([], p.last), p.fragments, choice.fragments);
    assert Matches(d2, p1);
    FlushMatches(codec, d2.(sawFinish := true), p1);
    NothingGathered(None);
  }

  lemma {:induction false} NothingGathered(last: Option<ToolKey>)
    ensures Gather(Gathering([], last), []) == Gathering([], last)
  {
  }

  lemma {:induction false} LineMatches(codec: Codec, d: Decoder, p: Pending, line: string)
    requires Matches(d, p)
    ensures Matches(ProcessLine(codec, d, line).0, PendingAfter(codec, p, line))
  {
    hide Gather, HandleChoice, PendingAfterChoice, FlushAll, F.Finish;
    if DATA <= line {
      var payload := T.Trim(line[|DATA|..]);
      if payload == "[DONE]" {
        FlushMatches(codec, d, p);
      } else {
        match codec.parse(payload)
        case Ok(chunk) =>
          if chunk.choice.Some? {
            ChoiceMatches(codec, d, p, chunk.choice.value);
          }
        case Err(_) =>
      }
    }
  }

  lemma {:induction false} AllMatch(codec: Codec, d: Decoder, p: Pending, lines: seq<seq<Byte>>)
    requires Matches(d, p)
    ensures Matches(ProcessAll(Step(codec), d, lines).0, PendingAfterAll(codec, p, lines))
    decreases |lines|
  {
    hide ProcessLine, PendingAfter, Matches;
    if lines != [] {
      var line := T.Trim(codec.decode(lines[0]));
      LineMatches(codec, d, p, line);
      AllMatch(codec, ProcessRaw(codec, d, lines[0]).0, PendingAfter(codec, p, line), lines[1..]);
    }
  }

  /** At every point of every stream, the accumulator of every key is exactly the call made up
      of that key's fragments since the last flush or discard. */
  lemma {:induction false} StreamDemultiplexes(codec: Codec, lines: seq<seq<Byte>>, key: ToolKey)
    ensures var d := ProcessAll(Step(codec), FRESH, lines).0;
            var p := PendingAfterAll(codec, Pending(None, []), lines);
            && Sorted(d.tools)
            && Lookup(d.tools, key) == Assembled(FragmentsFor(key, p.last, p.fragments))
  {
    hide ProcessAll, PendingAfterAll, Assembled, Sorted;
    NothingGathered(None);
    AllMatch(codec, FRESH, Pending(None, []), lines);
    var p := PendingAfterAll(codec, Pending(None, []), lines);
    GatherDemultiplexes(p.last, p.fragments, key);
  }
}
