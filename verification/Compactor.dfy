/** The compaction algorithm as the harness runs it: loops over mutable vectors, each proved
    to compute the projection `Compaction` specifies. */
module Compactor {
  import opened Wrappers
  import opened Messages
  import opened Summary
  import opened Compaction
  import opened CompactionLaws

  lemma {:induction false} RetainSnoc(system: seq<Message>, m: Message)
    ensures Retained(system + [m]) == Retained(system) + (if IsSummaryMessage(m) then [] else [m])
    ensures Carried(system + [m]) == Carried(system) + CarriedBy(m)
  {
    hide IsSummaryMessage, CarriedBy;
    if system == [] {
      assert system + [m] == [m];
    } else {
      assert (system + [m])[1..] == system[1..] + [m];
      RetainSnoc(system[1..], m);
    }
  }

  /** Drops earlier digests from the system messages, collecting what they carried. */
  method RetainSystem(system: seq<Message>) returns (retained: seq<Message>, carried: seq<string>)
    ensures retained == Retained(system) && carried == Carried(system)
  {
    retained, carried := [], [];
    for i := 0 to |system|
      invariant retained == Retained(system[..i]) && carried == Carried(system[..i])
    {
      assert system[..i + 1] == system[..i] + [system[i]];
      RetainSnoc(system[..i], system[i]);
      if IsSummaryMessage(system[i]) {
        carried := carried + CarriedBy(system[i]);
      } else {
        retained := retained + [system[i]];
      }
    }
    assert system[..|system|] == system;
  }

  method GroupExchanges(body: seq<Message>) returns (exchanges: seq<Exchange>)
    ensures exchanges == Group(body)
  {
    exchanges := [];
    for i := 0 to |body|
      invariant exchanges == Group(body[..i])
    {
      assert body[..i + 1][..i] == body[..i];
      ghost var before := exchanges;
      if body[i].role == User || exchanges == [] {
        exchanges := exchanges + [[]];
      }
      var last := |exchanges| - 1;
      var extended := exchanges[last] + [body[i]];
      exchanges := exchanges[last := extended];
      if body[i].role == User || before == [] {
        assert extended == [body[i]];
      }
      assert exchanges == AddToExchanges(before, body[i]);
    }
    assert body[..|body|] == body;
  }

  lemma {:induction false} DigestOnlyAdds(ctx: Context, xs: seq<Exchange>, i: nat)
    requires i <= |xs|
    requires !Fits(ctx.system + Flatten(xs[i..]), ctx.limit)
    ensures !FitsAfterDropping(ctx, xs, i)
  {
    BuildBytes(ctx.system, FullDigest(ctx.carried, xs[..i]), xs[i..]);
    TotalBytesConcat(ctx.system, Flatten(xs[i..]));
  }

  lemma {:induction false} MoveOldest(xs: seq<Exchange>, i: nat)
    requires i < |xs|
    ensures xs[..i] + [xs[i..][0]] == xs[..i + 1]
    ensures xs[i..][1..] == xs[i + 1..]
  {
  }

  /** First drop loop: against the bare window. */
  method DropUntilBareFits(ctx: Context, xs: seq<Exchange>) returns (dropped: seq<Exchange>, exchanges: seq<Exchange>)
    ensures dropped + exchanges == xs
    ensures DropPoint(ctx, xs, 0) == DropPoint(ctx, xs, |dropped|)
  {
    dropped, exchanges := [], xs;
    ghost var i := 0;
    while |exchanges| > 1
      invariant i <= |xs| && dropped == xs[..i] && exchanges == xs[i..]
      invariant DropPoint(ctx, xs, 0) == DropPoint(ctx, xs, i)
      decreases |exchanges|
    {
      if Fits(ctx.system + Flatten(exchanges), ctx.limit) {
        break;
      }
      DigestOnlyAdds(ctx, xs, i);
      MoveOldest(xs, i);
      dropped, exchanges, i := dropped + [exchanges[0]], exchanges[1..], i + 1;
    }
  }

  /** Second drop loop: against the digested window, starting where the first stopped. */
  method DropOldestExchanges(ctx: Context, xs: seq<Exchange>)
    returns (dropped: seq<Exchange>, exchanges: seq<Exchange>, summary: Option<seq<string>>)
    ensures Cut(dropped, exchanges) == DropOldest(ctx, xs)
    ensures summary == FullDigest(ctx.carried, dropped)
  {
    hide Fits, Build, FullDigest;
    dropped, exchanges := DropUntilBareFits(ctx, xs);
    ghost var i := |dropped|;
    assert dropped == xs[..i] && exchanges == xs[i..];
    summary := FullDigest(ctx.carried, dropped);
    while |exchanges| > 1 && !Fits(Build(ctx.system, summary, exchanges), ctx.limit)
      invariant i <= |xs| && dropped == xs[..i] && exchanges == xs[i..]
      invariant summary == FullDigest(ctx.carried, dropped)
      invariant DropPoint(ctx, xs, 0) == DropPoint(ctx, xs, i)
      decreases |exchanges|
    {
      assert !FitsAfterDropping(ctx, xs, i);
      MoveOldest(xs, i);
      dropped, exchanges, i := dropped + [exchanges[0]], exchanges[1..], i + 1;
      summary := FullDigest(ctx.carried, dropped);
    }
    assert |exchanges| > 1 ==> FitsAfterDropping(ctx, xs, i);
  }

  /** Scans the cut points of one exchange for the first that fits. */
  method SplitOversizedExchange(ctx: Context, summary: Option<seq<string>>, exchange: Exchange)
    returns (r: Option<(Exchange, Exchange)>)
    ensures var cut := SplitPoint(ctx, summary, exchange);
            r == if cut.None? then None else Some((exchange[1..cut.value], Suffix(exchange, cut.value)))
  {
    if exchange == [] || exchange[0].role != User {
      return None;
    }
    var cut := 2;
    while cut < |exchange|
      invariant 2 <= cut
      invariant FirstFittingCut(ctx, summary, exchange, 2) == FirstFittingCut(ctx, summary, exchange, cut)
    {
      if exchange[cut].role == Assistant && (exchange[cut - 1].role == Tool || exchange[cut - 1].role == User) {
        var suffix := [exchange[0]] + exchange[cut..];
        if Fits(Build(ctx.system, summary, [suffix]), ctx.limit) {
          return Some((exchange[1..cut], suffix));
        }
      }
      cut := cut + 1;
    }
    return None;
  }

  /** Tries ever smaller digests, and none as a last step. */
  method ShrinkToFit(ctx: Context, dropped: seq<Exchange>, exchanges: seq<Exchange>)
    returns (summary: Option<seq<string>>, out: seq<Message>)
    ensures summary == ShrinkDigest(ctx, Cut(dropped, exchanges), RETRIES)
    ensures out == Build(ctx.system, summary, exchanges)
  {
    ghost var c := Cut(dropped, exchanges);
    for i := 0 to |RETRIES|
      invariant ShrinkDigest(ctx, c, RETRIES) == ShrinkDigest(ctx, c, RETRIES[i..])
    {
      summary := Digest(ctx.carried, dropped, RETRIES[i].0, RETRIES[i].1);
      out := Build(ctx.system, summary, exchanges);
      if Fits(out, ctx.limit) {
        return;
      }
      assert RETRIES[i..][1..] == RETRIES[i + 1..];
    }
    summary := None;
    out := Build(ctx.system, None, exchanges);
  }

  /** Clips every long tool output of one message. */
  method ClipOutputs(m: Message) returns (r: Message, clipped: nat)
    ensures r == ClipMessage(m) && clipped == LongOutputs(m.content)
  {
    var content := m.content;
    clipped := 0;
    for k := 0 to |content|
      invariant |content| == |m.content|
      invariant forall j :: 0 <= j < |content| ==> content[j] == if j < k then ClipBlock(m.content[j]) else m.content[j]
      invariant clipped == LongOutputs(m.content[..k])
    {
      assert m.content[..k + 1][..k] == m.content[..k];
      var block := content[k];
      if block.ToolResult? && |block.output| > OUTPUT_CHARS {
        var kept := block.output[..OUTPUT_CHARS] + "...";
        kept := kept + MARKER;
        assert kept == ClipOutput(block.output);
        content := content[k := block.(output := kept)];
        clipped := clipped + 1;
      }
    }
    assert m.content[..|m.content|] == m.content;
    ClipContentKeepsTools(m.content);
    assert content == ClipContent(m.content);
    r := m.(content := content);
  }

  /** Clips outputs in place, oldest message first, until the conversation fits. */
  method TruncateOldestToolResults(messages: array<Message>, limit: nat) returns (truncated: nat)
    modifies messages
    ensures var was := old(messages[..]);
            && messages[..] == ClippedTo(was, ClipPoint(was, limit, 0))
            && truncated == TotalLong(was[..ClipPoint(was, limit, 0)])
  {
    hide Fits, ClipMessage;
    ghost var was := messages[..];
    truncated := 0;
    for index := 0 to messages.Length
      invariant messages[..] == ClippedTo(was, index)
      invariant ClipPoint(was, limit, 0) == ClipPoint(was, limit, index)
      invariant truncated == TotalLong(was[..index])
    {
      if Fits(messages[..], limit) {
        return;
      }
      var m, n := ClipOutputs(messages[index]);
      messages[index] := m;
      truncated := truncated + n;
      assert was[..index + 1][..index] == was[..index];
    }
  }

  /** Splits the last exchange when it alone is over budget. */
  method SplitIfOversized(ctx: Context, dropped0: seq<Exchange>, exchanges0: seq<Exchange>, summary0: Option<seq<string>>)
    returns (dropped: seq<Exchange>, exchanges: seq<Exchange>, summary: Option<seq<string>>)
    requires summary0 == FullDigest(ctx.carried, dropped0)
    ensures Cut(dropped, exchanges) == SplitTurn(ctx, Cut(dropped0, exchanges0))
    ensures summary == FullDigest(ctx.carried, dropped)
  {
    dropped, exchanges, summary := dropped0, exchanges0, summary0;
    if |exchanges| == 1 && !Fits(Build(ctx.system, summary, exchanges), ctx.limit) {
      var split := SplitOversizedExchange(ctx, summary, exchanges[0]);
      if split.Some? {
        dropped := dropped + [split.value.0];
        exchanges := [split.value.1];
        summary := FullDigest(ctx.carried, dropped);
      }
    }
  }

  /** Picks the digest to inject. */
  method InjectDigest(ctx: Context, dropped: seq<Exchange>, exchanges: seq<Exchange>) returns (out: seq<Message>)
    ensures out == Projection(ctx, Cut(dropped, exchanges))
  {
    var summary := FullDigest(ctx.carried, dropped);
    out := Build(ctx.system, summary, exchanges);
    if !Fits(out, ctx.limit) && dropped != [] {
      summary, out := ShrinkToFit(ctx, dropped, exchanges);
    }
  }

  /** The last resort, on a vector of its own. */
  method TruncateIfOver(out: seq<Message>, limit: nat) returns (r: seq<Message>, truncated: nat)
    ensures r == ClippedTo(out, ClipPoint(out, limit, 0))
    ensures truncated == TotalLong(out[..ClipPoint(out, limit, 0)])
  {
    if Fits(out, limit) {
      assert ClippedTo(out, 0) == out;
      return out, 0;
    }
    var messages := new Message[|out|](i requires 0 <= i < |out| => out[i]);
    assert messages[..] == out;
    truncated := TruncateOldestToolResults(messages, limit);
    r := messages[..];
  }

  /** The whole plan. */
  method CompactHistory(messages: seq<Message>, limit: nat) returns (plan: Plan)
    ensures plan == CompactPlan(messages, limit)
  {
    if Fits(messages, limit) {
      return Plan(messages, false, [], [], |messages|, 0);
    }
    var n := SystemCount(messages);
    var system, carried := RetainSystem(messages[..n]);
    var ctx := Context(system, carried, limit);
    var xs := GroupExchanges(messages[n..]);
    var dropped, exchanges, summary := DropOldestExchanges(ctx, xs);
    dropped, exchanges, summary := SplitIfOversized(ctx, dropped, exchanges, summary);
    var out := InjectDigest(ctx, dropped, exchanges);
    var final, truncated := TruncateIfOver(out, limit);
    plan := Plan(final, true, dropped, carried, |system| + |Flatten(exchanges)|, truncated);
  }

  /** Folds runs of adjacent system messages, extending the last one in place. */
  method MergeConsecutiveSystem(messages: seq<Message>) returns (out: seq<Message>)
    ensures out == MergeSystem(messages)
  {
    out := [];
    for i := 0 to |messages|
      invariant out == MergeSystem(messages[..i])
    {
      assert messages[..i + 1][..i] == messages[..i];
      var message, last := messages[i], |out| - 1;
      if out != [] && out[last].role == System && message.role == System {
        out := out[last := out[last].(content := out[last].content + message.content)];
      } else {
        out := out + [message];
      }
    }
    assert messages[..|messages|] == messages;
  }
}
