/** What a run of items shows of text and reasoning, reports of usage and warns of, for either decoder. */
module Showing {
  import opened Wrappers
  import opened Messages
  import opened Events
  import F = ThinkFilter

  /** Items that only show text and reasoning, and just these characters. */
  ghost predicate Shows(items: seq<Item>, speech: seq<F.Labeled>) {
    OnlyText(items) && F.Speech(items) == speech
  }

  /** What some items show, what usage they report and what they warn of. */
  ghost predicate Tells(items: seq<Item>, speech: seq<F.Labeled>, usages: seq<Item>, notices: seq<Item>) {
    && F.Speech(items) == speech
    && Picked(items, IsUsage) == usages
    && Picked(items, IsNotice) == notices
  }

  lemma {:induction false} TellsJoin(
      a: seq<Item>, b: seq<Item>, s: seq<F.Labeled>, t: seq<F.Labeled>, u: seq<Item>, v: seq<Item>, m: seq<Item>, n: seq<Item>)
    requires Tells(a, s, u, m) && Tells(b, t, v, n)
    ensures Tells(a + b, s + t, u + v, m + n)
  {
    F.SpeechConcat(a, b);
    PickedConcat(a, b, IsUsage);
    PickedConcat(a, b, IsNotice);
  }

  lemma {:induction false} TextTells(items: seq<Item>)
    requires OnlyText(items)
    ensures Tells(items, F.Speech(items), [], [])
  {
    PickedNone(items, IsUsage);
    PickedNone(items, IsNotice);
  }

  /** Calls, their complaints, faults and the end tell nothing of all this. */
  lemma {:induction false} OthersTell(items: seq<Item>)
    requires forall i :: 0 <= i < |items| ==> IsOutcome(items[i]) || items[i].Err? || items[i] == Ok(Done)
    ensures Tells(items, [], [], [])
  {
    F.MuteSaysNothing(items);
    PickedNone(items, IsUsage);
    PickedNone(items, IsNotice);
  }

  lemma {:induction false} PushIsText(f: F.Filter, delta: string)
    ensures OnlyText(AsItems(F.Push(f, delta).1))
  {
    F.DrainIsText(f.inThinking, f.held + delta);
  }

  function Thought(reasoning: string): seq<Item> {
    if reasoning == "" then [] else [Ok(ReasoningDelta(reasoning))]
  }

  lemma {:induction false} ThoughtSays(reasoning: string)
    ensures F.Speech(Thought(reasoning)) == F.Label(true, reasoning)
  {
    if reasoning != "" {
      F.SpeechOfOne(Ok(ReasoningDelta(reasoning)));
    }
  }

  lemma {:induction false} ThoughtTells(reasoning: string)
    ensures Tells(Thought(reasoning), F.Label(true, reasoning), [], [])
  {
    ThoughtSays(reasoning);
    TextTells(Thought(reasoning));
  }

  lemma {:induction false} SuffixJoins<X>(a: seq<X>, b: seq<X>)
    requires a <= b
    ensures a + b[|a|..] == b
  {
  }
}
