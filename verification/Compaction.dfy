/** Context compaction: what of a conversation reaches the provider under a token limit.

    The functions say which projection is chosen; `Compactor` computes it the way the harness
    does, with loops over mutable vectors, and is proved equal to it. */
module Compaction {
  import opened Wrappers
  import opened Messages
  import opened Summary

  type Exchange = seq<Message>

  /** What stays fixed while one compaction runs. */
  datatype Context = Context(system: seq<Message>, carried: seq<string>, limit: nat)

  /** The two parts of the body: what was dropped, and what is still sent. */
  datatype Cut = Cut(dropped: seq<Exchange>, kept: seq<Exchange>)

  datatype Plan = Plan(
    messages: seq<Message>,
    compacted: bool,
    dropped: seq<Exchange>,
    carried: seq<string>,
    keptMessages: nat,
    truncated: nat)

  const OUTPUT_CHARS := 240
  const MARKER := "\n[output truncated during context compaction]"
  const RETRIES: seq<(nat, nat)> := [(4, 60), (2, 60), (1, 60), (1, 30)]

  // ---------------------------------------------------------------------------
  // Grouping

  function Flatten(xs: seq<Exchange>): seq<Message> {
    if xs == [] then [] else xs[0] + Flatten(xs[1..])
  }

  /** Length of the leading run of system messages. */
  function SystemCount(ms: seq<Message>): (n: nat)
    ensures n <= |ms|
    ensures forall i :: 0 <= i < n ==> ms[i].role == System
    ensures n < |ms| ==> ms[n].role != System
  {
    if ms == [] || ms[0].role != System then 0 else 1 + SystemCount(ms[1..])
  }

  /** The exchanges after one more message: a user message opens a new one. */
  function AddToExchanges(xs: seq<Exchange>, m: Message): seq<Exchange> {
    if m.role == User || xs == [] then xs + [[m]]
    else xs[..|xs| - 1] + [xs[|xs| - 1] + [m]]
  }

  function Group(body: seq<Message>): seq<Exchange> {
    if body == [] then [] else AddToExchanges(Group(body[..|body| - 1]), body[|body| - 1])
  }

  // ---------------------------------------------------------------------------
  // Choosing what to drop

  function Digest(carried: seq<string>, dropped: seq<Exchange>, maxExchanges: nat, maxUserChars: nat)
    : Option<seq<string>>
  {
    FoldCarried(carried, StructuredSummary(dropped, maxExchanges, maxUserChars))
  }

  function FullDigest(carried: seq<string>, dropped: seq<Exchange>): Option<seq<string>> {
    Digest(carried, dropped, 4, 120)
  }

  function Injected(summary: Option<seq<string>>): seq<Message> {
    if summary.Some? then [SummaryMessage(summary.value)] else []
  }

  function Build(system: seq<Message>, summary: Option<seq<string>>, kept: seq<Exchange>): seq<Message> {
    system + Injected(summary) + Flatten(kept)
  }

  /** Whether sending everything but the oldest `i` exchanges, digested, fits. */
  predicate FitsAfterDropping(ctx: Context, exchanges: seq<Exchange>, i: nat)
    requires i <= |exchanges|
  {
    Fits(Build(ctx.system, FullDigest(ctx.carried, exchanges[..i]), exchanges[i..]), ctx.limit)
  }

  function DropPoint(ctx: Context, exchanges: seq<Exchange>, i: nat): (r: nat)
    requires i <= |exchanges|
    ensures i <= r <= |exchanges|
    decreases |exchanges| - i
  {
    if |exchanges| - i <= 1 || FitsAfterDropping(ctx, exchanges, i) then i
    else DropPoint(ctx, exchanges, i + 1)
  }

  function DropOldest(ctx: Context, exchanges: seq<Exchange>): Cut {
    var i := DropPoint(ctx, exchanges, 0);
    Cut(exchanges[..i], exchanges[i..])
  }

  /** A cut starts a fresh assistant sub-turn after the user message. */
  predicate LegalCut(exchange: Exchange, cut: nat) {
    && 2 <= cut < |exchange|
    && exchange[cut].role == Assistant
    && (exchange[cut - 1].role == Tool || exchange[cut - 1].role == User)
  }

  function Suffix(exchange: Exchange, cut: nat): Exchange
    requires 1 <= cut <= |exchange|
  {
    [exchange[0]] + exchange[cut..]
  }

  predicate FittingCut(ctx: Context, summary: Option<seq<string>>, exchange: Exchange, cut: nat) {
    LegalCut(exchange, cut) && Fits(Build(ctx.system, summary, [Suffix(exchange, cut)]), ctx.limit)
  }

  function FirstFittingCut(ctx: Context, summary: Option<seq<string>>, exchange: Exchange, cut: nat): (r: Option<nat>)
    ensures r.Some? ==> cut <= r.value && FittingCut(ctx, summary, exchange, r.value)
    decreases |exchange| - cut
  {
    if cut >= |exchange| then None
    else if FittingCut(ctx, summary, exchange, cut) then Some(cut)
    else FirstFittingCut(ctx, summary, exchange, cut + 1)
  }

  function SplitPoint(ctx: Context, summary: Option<seq<string>>, exchange: Exchange): (r: Option<nat>)
    ensures r.Some? ==> exchange != [] && exchange[0].role == User && FittingCut(ctx, summary, exchange, r.value)
  {
    if exchange == [] || exchange[0].role != User then None
    else FirstFittingCut(ctx, summary, exchange, 2)
  }

  function SplitTurn(ctx: Context, c: Cut): Cut {
    var summary := FullDigest(ctx.carried, c.dropped);
    if |c.kept| != 1 || Fits(Build(ctx.system, summary, c.kept), ctx.limit) then c
    else
      var cut := SplitPoint(ctx, summary, c.kept[0]);
      if cut.None? then c
      else
        Cut(c.dropped + [c.kept[0][1..cut.value]], [Suffix(c.kept[0], cut.value)])
  }

  /** Smaller and smaller digests, and in the end none. */
  function ShrinkDigest(ctx: Context, c: Cut, sizes: seq<(nat, nat)>): Option<seq<string>> {
    if sizes == [] then None
    else
      var summary := Digest(ctx.carried, c.dropped, sizes[0].0, sizes[0].1);
      if Fits(Build(ctx.system, summary, c.kept), ctx.limit) then summary
      else ShrinkDigest(ctx, c, sizes[1..])
  }

  function ChosenDigest(ctx: Context, c: Cut): Option<seq<string>> {
    var full := FullDigest(ctx.carried, c.dropped);
    if c.dropped == [] || Fits(Build(ctx.system, full, c.kept), ctx.limit) then full
    else ShrinkDigest(ctx, c, RETRIES)
  }

  function Projection(ctx: Context, c: Cut): seq<Message> {
    Build(ctx.system, ChosenDigest(ctx, c), c.kept)
  }

  // ---------------------------------------------------------------------------
  // Truncation of tool outputs

  function ClipOutput(output: string): string {
    if |output| > OUTPUT_CHARS then output[..OUTPUT_CHARS] + "..." + MARKER else output
  }

  function ClipBlock(b: Block): Block {
    if b.ToolResult? then b.(output := ClipOutput(b.output)) else b
  }

  function ClipContent(content: seq<Block>): seq<Block> {
    if content == [] then [] else ClipContent(content[..|content| - 1]) + [ClipBlock(content[|content| - 1])]
  }

  /** Outputs long enough to be clipped. */
  function LongOutputs(content: seq<Block>): nat {
    if content == [] then 0
    else
      var last := content[|content| - 1];
      LongOutputs(content[..|content| - 1]) + (if last.ToolResult? && |last.output| > OUTPUT_CHARS then 1 else 0)
  }

  function ClipMessage(m: Message): Message {
    m.(content := ClipContent(m.content))
  }

  function ClipAll(ms: seq<Message>): (r: seq<Message>)
    ensures |r| == |ms|
    ensures forall i :: 0 <= i < |ms| ==> r[i] == ClipMessage(ms[i])
  {
    seq(|ms|, i requires 0 <= i < |ms| => ClipMessage(ms[i]))
  }

  /** The conversation with the outputs of its first `n` messages clipped. */
  function ClippedTo(ms: seq<Message>, n: nat): (r: seq<Message>)
    requires n <= |ms|
    ensures |r| == |ms|
    ensures forall i :: 0 <= i < |ms| ==> r[i] == if i < n then ClipMessage(ms[i]) else ms[i]
  {
    ClipAll(ms[..n]) + ms[n..]
  }

  /** How many leading messages are clipped before the conversation fits. */
  function ClipPoint(ms: seq<Message>, limit: nat, n: nat): (r: nat)
    requires n <= |ms|
    ensures n <= r <= |ms|
    decreases |ms| - n
  {
    if n == |ms| || Fits(ClippedTo(ms, n), limit) then n else ClipPoint(ms, limit, n + 1)
  }

  function TotalLong(ms: seq<Message>): nat {
    if ms == [] then 0 else TotalLong(ms[..|ms| - 1]) + LongOutputs(ms[|ms| - 1].content)
  }

  // ---------------------------------------------------------------------------
  // The plan

  function ContextOf(ms: seq<Message>, limit: nat): Context {
    var system := ms[..SystemCount(ms)];
    Context(Retained(system), Carried(system), limit)
  }

  function ExchangesOf(ms: seq<Message>): seq<Exchange> {
    Group(ms[SystemCount(ms)..])
  }

  /** The final division of the body. */
  function CutOf(ms: seq<Message>, limit: nat): Cut {
    var ctx := ContextOf(ms, limit);
    SplitTurn(ctx, DropOldest(ctx, ExchangesOf(ms)))
  }

  function CompactPlan(ms: seq<Message>, limit: nat): Plan {
    if Fits(ms, limit) then Plan(ms, false, [], [], |ms|, 0)
    else
      var ctx := ContextOf(ms, limit);
      var c := CutOf(ms, limit);
      var out := Projection(ctx, c);
      var n := ClipPoint(out, limit, 0);
      Plan(ClippedTo(out, n), true, c.dropped, ctx.carried,
           |ctx.system| + |Flatten(c.kept)|, TotalLong(out[..n]))
  }

  // ---------------------------------------------------------------------------
  // Request shaping

  /** One step of folding adjacent system messages together. */
  function MergeInto(out: seq<Message>, m: Message): seq<Message> {
    if out != [] && out[|out| - 1].role == System && m.role == System then
      var last := out[|out| - 1];
      out[..|out| - 1] + [last.(content := last.content + m.content)]
    else out + [m]
  }

  function MergeSystem(ms: seq<Message>): seq<Message> {
    if ms == [] then [] else MergeInto(MergeSystem(ms[..|ms| - 1]), ms[|ms| - 1])
  }

  // ---------------------------------------------------------------------------
  // Smart digest cutover

  /** Index of the first message that looks like a digest. */
  function SummaryIndex(ms: seq<Message>): (r: Option<nat>)
    ensures r.Some? ==> r.value < |ms| && IsSummaryMessage(ms[r.value])
    ensures forall j :: 0 <= j < (if r.Some? then r.value else |ms|) ==> !IsSummaryMessage(ms[j])
  {
    if ms == [] then None
    else if IsSummaryMessage(ms[0]) then Some(0)
    else
      var r := SummaryIndex(ms[1..]);
      if r.None? then None else Some(r.value + 1)
  }

  /** The projection with its digest message replaced, if it has one. */
  function SwapSummary(ms: seq<Message>, rendered: string): Option<seq<Message>> {
    var i := SummaryIndex(ms);
    if i.None? then None else Some(ms[i.value := TextMessage(System, rendered)])
  }

  function ApplySmartDigest(p: Plan, rendered: string, limit: nat): Plan {
    var swapped := SwapSummary(p.messages, rendered);
    if swapped.None? || !Fits(swapped.value, limit) then p else p.(messages := swapped.value)
  }

  /** What `compact_candidate` selects: the plan, or its projection with a smart digest. */
  function Candidate(ms: seq<Message>, limit: nat, smart: Option<string>): Plan {
    var p := CompactPlan(ms, limit);
    if !p.compacted || smart.None? || p.dropped == [] then p else ApplySmartDigest(p, smart.value, limit)
  }
}
