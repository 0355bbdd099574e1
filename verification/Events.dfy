/** The provider-neutral stream events every decoder produces. */
module Events {
  import opened Wrappers
  import opened Messages

  datatype ModelEvent =
    | TextDelta(text: string)
    | ReasoningDelta(text: string)
    | ToolCall(id: string, name: string, input: Json)
    | Usage(inputTokens: nat, outputTokens: nat)
    | ProviderWarning(message: string)
    | OutputLimit(message: string)
    | Done

  /** Why a decoder reports a stream fault. */
  datatype Fault =
    | BadPayload(detail: string)
    | BadToolInput(detail: string)
    | NoCompletionMarker
    | LifecycleIncomplete
    | ServerError(message: string)

  type Item = Result<ModelEvent, Fault>

  function AsItems(events: seq<ModelEvent>): (r: seq<Item>)
    ensures |r| == |events| && forall i :: 0 <= i < |events| ==> r[i] == Ok(events[i])
  {
    seq(|events|, i requires 0 <= i < |events| => Ok(events[i]))
  }

  /** Nothing but text and reasoning. */
  ghost predicate OnlyText(items: seq<Item>) {
    forall i :: 0 <= i < |items| ==> items[i].Ok? && (items[i].value.TextDelta? || items[i].value.ReasoningDelta?)
  }

  predicate IsDone(item: Item) {
    item == Ok(Done)
  }

  /** How many items satisfy `p`. */
  function Count(items: seq<Item>, p: Item -> bool): nat {
    if items == [] then 0 else (if p(items[0]) then 1 else 0) + Count(items[1..], p)
  }

  lemma {:induction false} CountConcat(a: seq<Item>, b: seq<Item>, p: Item -> bool)
    ensures Count(a + b, p) == Count(a, p) + Count(b, p)
  {
    if a == [] {
      assert a + b == b;
    } else {
      CountConcat(a[1..], b, p);
      assert (a + b)[1..] == a[1..] + b;
    }
  }

  lemma {:induction false} CountNone(items: seq<Item>, p: Item -> bool)
    requires forall i :: 0 <= i < |items| ==> !p(items[i])
    ensures Count(items, p) == 0
  {
    if items != [] {
      CountNone(items[1..], p);
    }
  }

  /** The items that satisfy `p`, in order. */
  function Picked(items: seq<Item>, p: Item -> bool): seq<Item> {
    if items == [] then [] else (if p(items[0]) then [items[0]] else []) + Picked(items[1..], p)
  }

  lemma {:induction false} PickedStep(items: seq<Item>, p: Item -> bool)
    ensures Picked(items, p) == if items == [] then [] else (if p(items[0]) then [items[0]] else []) + Picked(items[1..], p)
  {
  }

  lemma {:induction false} PickedConcat(a: seq<Item>, b: seq<Item>, p: Item -> bool)
    ensures Picked(a + b, p) == Picked(a, p) + Picked(b, p)
  {
    hide *;
    if a == [] {
      PickedStep(a, p);
      assert a + b == b;
    } else {
      PickedConcat(a[1..], b, p);
      PickedStep(a, p);
      PickedStep(a + b, p);
      assert (a + b)[0] == a[0] && (a + b)[1..] == a[1..] + b;
    }
  }

  lemma {:induction false} PickedNone(items: seq<Item>, p: Item -> bool)
    requires forall i :: 0 <= i < |items| ==> !p(items[i])
    ensures Picked(items, p) == []
  {
    if items != [] {
      PickedNone(items[1..], p);
    }
  }

  lemma {:induction false} PickedAll(items: seq<Item>, p: Item -> bool)
    requires forall i :: 0 <= i < |items| ==> p(items[i])
    ensures Picked(items, p) == items
  {
    if items != [] {
      PickedAll(items[1..], p);
      assert items == [items[0]] + items[1..];
    }
  }

  predicate IsUsage(item: Item) {
    item.Ok? && item.value.Usage?
  }

  /** A warning or the notice of an output limit. */
  predicate IsNotice(item: Item) {
    item.Ok? && (item.value.ProviderWarning? || item.value.OutputLimit?)
  }

  // ---------------------------------------------------------------------------
  // Tool calls among the items

  predicate IsCall(item: Item) {
    item.Ok? && item.value.ToolCall?
  }

  ghost predicate HasCall(items: seq<Item>) {
    exists i :: 0 <= i < |items| && IsCall(items[i])
  }

  /** What only a flush produces: a call, or the complaint about its input. */
  predicate IsOutcome(item: Item) {
    IsCall(item) || (item.Err? && item.error.BadToolInput?)
  }

  function Outcomes(items: seq<Item>): seq<Item> {
    if items == [] then []
    else (if IsOutcome(items[0]) then [items[0]] else []) + Outcomes(items[1..])
  }

  lemma {:induction false} OutcomesStep(items: seq<Item>)
    ensures Outcomes(items) ==
            if items == [] then [] else (if IsOutcome(items[0]) then [items[0]] else []) + Outcomes(items[1..])
  {
  }

  lemma {:induction false} OutcomesConcat(a: seq<Item>, b: seq<Item>)
    ensures Outcomes(a + b) == Outcomes(a) + Outcomes(b)
  {
    hide Outcomes;
    OutcomesStep(a);
    if a == [] {
      assert a + b == b;
    } else {
      assert (a + b)[0] == a[0] && (a + b)[1..] == a[1..] + b;
      OutcomesStep(a + b);
      OutcomesConcat(a[1..], b);
    }
  }

  ghost predicate Quiet(items: seq<Item>) {
    forall i :: 0 <= i < |items| ==> !IsOutcome(items[i])
  }

  lemma {:induction false} QuietHasNone(items: seq<Item>)
    requires Quiet(items)
    ensures Outcomes(items) == []
  {
    if items != [] {
      QuietHasNone(items[1..]);
    }
  }

  lemma {:induction false} OutcomesAreAll(items: seq<Item>)
    requires forall i :: 0 <= i < |items| ==> IsOutcome(items[i])
    ensures Outcomes(items) == items
  {
    if items != [] {
      OutcomesAreAll(items[1..]);
      assert items == [items[0]] + items[1..];
    }
  }

  lemma {:induction false} HasCallConcat(a: seq<Item>, b: seq<Item>)
    ensures HasCall(a + b) <==> HasCall(a) || HasCall(b)
  {
    if HasCall(a) {
      var i :| 0 <= i < |a| && IsCall(a[i]);
      assert (a + b)[i] == a[i];
    }
    if HasCall(b) {
      var i :| 0 <= i < |b| && IsCall(b[i]);
      assert (a + b)[|a| + i] == b[i];
    }
    if HasCall(a + b) {
      var i :| 0 <= i < |a + b| && IsCall((a + b)[i]);
      if i < |a| {
        assert IsCall(a[i]);
      } else {
        assert IsCall(b[i - |a|]);
      }
    }
  }

  /** Calls are found among the outcomes. */
  lemma {:induction false} CallsAreOutcomes(items: seq<Item>)
    ensures HasCall(items) <==> HasCall(Outcomes(items))
  {
    hide HasCall;
    if items != [] {
      var head, rest := items[..1], items[1..];
      assert items == head + rest && head == [items[0]];
      CallsAreOutcomes(rest);
      HasCallConcat(head, rest);
      HasCallConcat(if IsOutcome(items[0]) then [items[0]] else [], Outcomes(rest));
      HasCallHead(items[0]);
      NoCallInNothing();
    }
  }

  lemma {:induction false} HasCallHead(item: Item)
    ensures HasCall([item]) <==> IsCall(item)
  {
    if IsCall(item) {
      assert IsCall([item][0]);
    }
  }

  lemma {:induction false} NoCallInNothing()
    ensures !HasCall([])
  {
  }

  lemma {:induction false} QuietCallsNothing(items: seq<Item>)
    requires Quiet(items)
    ensures !HasCall(items)
  {
  }

  lemma {:induction false} Around(a: seq<Item>, calls: seq<Item>, b: seq<Item>)
    requires Quiet(a) && Quiet(b)
    ensures Outcomes(a + calls + b) == Outcomes(calls)
  {
    QuietHasNone(a);
    QuietHasNone(b);
    OutcomesConcat(a + calls, b);
    OutcomesConcat(a, calls);
  }
}
