/** What compaction promises, for every history and every limit. */
module CompactionLaws {
  import opened Wrappers
  import opened Messages
  import opened Summary
  import opened Compaction

  // ---------------------------------------------------------------------------
  // Grouping

  lemma {:induction false} FlattenConcat(a: seq<Exchange>, b: seq<Exchange>)
    ensures Flatten(a + b) == Flatten(a) + Flatten(b)
  {
    if a == [] {
      assert a + b == b;
    } else {
      FlattenConcat(a[1..], b);
      assert (a + b)[1..] == a[1..] + b;
    }
  }

  lemma {:induction false} FlattenSingle(x: Exchange)
    ensures Flatten([x]) == x
  {
    assert Flatten([x]) == x + Flatten([]);
  }

  lemma {:induction false} FlattenAt(xs: seq<Exchange>, i: nat)
    requires i <= |xs|
    ensures Flatten(xs) == Flatten(xs[..i]) + Flatten(xs[i..])
  {
    assert xs == xs[..i] + xs[i..];
    FlattenConcat(xs[..i], xs[i..]);
  }

  lemma {:induction false} FlattenAdd(xs: seq<Exchange>, m: Message)
    ensures Flatten(AddToExchanges(xs, m)) == Flatten(xs) + [m]
  {
    if m.role == User || xs == [] {
      FlattenConcat(xs, [[m]]);
      FlattenSingle([m]);
    } else {
      var init, last := xs[..|xs| - 1], xs[|xs| - 1];
      FlattenConcat(init, [last + [m]]);
      FlattenConcat(init, [last]);
      assert xs == init + [last];
      FlattenSingle(last);
      FlattenSingle(last + [m]);
    }
  }

  /** Every exchange is non-empty, has no user message after its first, and all but the
      first open with one. */
  ghost predicate WellGrouped(xs: seq<Exchange>) {
    forall i :: 0 <= i < |xs| ==>
      && xs[i] != []
      && (i > 0 ==> xs[i][0].role == User)
      && (forall k :: 1 <= k < |xs[i]| ==> xs[i][k].role != User)
  }

  lemma {:induction false} AddKeepsGrouped(xs: seq<Exchange>, m: Message)
    requires WellGrouped(xs)
    ensures WellGrouped(AddToExchanges(xs, m))
  {
    var after := AddToExchanges(xs, m);
    forall i | 0 <= i < |xs| - 1 ensures after[i] == xs[i] {
    }
  }

  /** Grouping is a partition of the body at its user messages. */
  lemma {:induction false} GroupPartitions(body: seq<Message>)
    ensures Flatten(Group(body)) == body
    ensures WellGrouped(Group(body))
    ensures body != [] ==> Group(body) != []
  {
    hide WellGrouped, Flatten;
    if body != [] {
      var init, m := body[..|body| - 1], body[|body| - 1];
      GroupPartitions(init);
      FlattenAdd(Group(init), m);
      AddKeepsGrouped(Group(init), m);
      assert body == init + [m];
    } else {
      NothingIsGrouped();
    }
  }

  lemma {:induction false} NothingIsGrouped()
    ensures WellGrouped([]) && Flatten([]) == []
  {
  }

  // ---------------------------------------------------------------------------
  // The drop loops find the least sufficient cut

  /** The two drop loops together are one search for the least number of exchanges to drop. */
  lemma {:induction false} DropPointIsLeast(ctx: Context, exchanges: seq<Exchange>, i: nat)
    requires i <= |exchanges|
    ensures var r := DropPoint(ctx, exchanges, i);
            && (forall j :: i <= j < r ==> !FitsAfterDropping(ctx, exchanges, j))
            && (|exchanges| - r > 1 ==> FitsAfterDropping(ctx, exchanges, r))
            && (i < |exchanges| ==> r < |exchanges|)
    decreases |exchanges| - i
  {
    hide FitsAfterDropping;
    if |exchanges| - i > 1 && !FitsAfterDropping(ctx, exchanges, i) {
      DropPointIsLeast(ctx, exchanges, i + 1);
    }
  }

  /** A split keeps the longest legal suffix that fits. */
  lemma {:induction false} SplitKeepsLongest(ctx: Context, summary: Option<seq<string>>, exchange: Exchange, cut: nat)
    ensures match FirstFittingCut(ctx, summary, exchange, cut)
            case Some(r) =>
              && cut <= r < |exchange| && FittingCut(ctx, summary, exchange, r)
              && forall j :: cut <= j < r ==> !FittingCut(ctx, summary, exchange, j)
            case None => forall j :: cut <= j < |exchange| ==> !FittingCut(ctx, summary, exchange, j)
    decreases |exchange| - cut
  {
    if cut < |exchange| && !FittingCut(ctx, summary, exchange, cut) {
      SplitKeepsLongest(ctx, summary, exchange, cut + 1);
    }
  }

  // ---------------------------------------------------------------------------
  // Conservation

  /** `part` can be read off `whole` from left to right. */
  ghost predicate Subsequence(part: seq<Message>, whole: seq<Message>)
    decreases |whole|
  {
    part == [] ||
    (whole != [] && (if part[0] == whole[0] && Subsequence(part[1..], whole[1..]) then true
                     else Subsequence(part, whole[1..])))
  }

  lemma {:induction false} SubsequenceExtend(part: seq<Message>, before: seq<Message>, whole: seq<Message>)
    requires Subsequence(part, whole)
    ensures Subsequence(part, before + whole)
    decreases |before|
  {
    if before == [] {
      assert before + whole == whole;
    } else {
      SubsequenceExtend(part, before[1..], whole);
      assert (before + whole)[1..] == before[1..] + whole;
    }
  }

  lemma {:induction false} SubsequencePrepend(shared: seq<Message>, part: seq<Message>, whole: seq<Message>)
    requires Subsequence(part, whole)
    ensures Subsequence(shared + part, shared + whole)
    decreases |shared|
  {
    if shared == [] {
      assert shared + part == part && shared + whole == whole;
    } else {
      SubsequencePrepend(shared[1..], part, whole);
      assert (shared + part)[1..] == shared[1..] + part;
      assert (shared + whole)[1..] == shared[1..] + whole;
    }
  }

  lemma {:induction false} SubsequenceSelf(s: seq<Message>, rest: seq<Message>)
    ensures Subsequence(s, s + rest)
  {
    SubsequencePrepend(s, [], rest);
    assert s + [] == s;
  }

  /** The body is cut in two, or into the user message and two pieces of its exchange. */
  ghost predicate Divides(c: Cut, body: seq<Message>) {
    || Flatten(c.dropped) + Flatten(c.kept) == body
    || exists d: seq<Message>, u: Message, p: seq<Message>, s: seq<Message> ::
         Flatten(c.dropped) == d + p && Flatten(c.kept) == [u] + s && body == d + [u] + p + s
  }

  /** A successful split, taken apart. */
  lemma {:induction false} SplitShape(ctx: Context, c: Cut) returns (cut: nat)
    requires SplitTurn(ctx, c) != c
    ensures |c.kept| == 1 && LegalCut(c.kept[0], cut) && c.kept[0][0].role == User
    ensures Fits(Build(ctx.system, FullDigest(ctx.carried, c.dropped), [Suffix(c.kept[0], cut)]), ctx.limit)
    ensures SplitTurn(ctx, c) == Cut(c.dropped + [c.kept[0][1..cut]], [Suffix(c.kept[0], cut)])
  {
    cut := SplitPoint(ctx, FullDigest(ctx.carried, c.dropped), c.kept[0]).value;
  }

  lemma {:induction false} ThreePieces(d: seq<Message>, x: Exchange, cut: nat)
    requires 1 <= cut <= |x|
    ensures d + x == d + [x[0]] + x[1..cut] + x[cut..]
  {
    assert x == [x[0]] + x[1..cut] + x[cut..];
  }

  lemma {:induction false} SplitDivides(dropped: seq<Exchange>, x: Exchange, cut: nat, body: seq<Message>)
    requires 1 <= cut <= |x| && Flatten(dropped) + x == body
    ensures Divides(Cut(dropped + [x[1..cut]], [Suffix(x, cut)]), body)
  {
    var p, s := x[1..cut], x[cut..];
    var c := Cut(dropped + [p], [Suffix(x, cut)]);
    assert Flatten(c.dropped) == Flatten(dropped) + p by {
      FlattenConcat(dropped, [p]);
      FlattenSingle(p);
    }
    assert Flatten(c.kept) == [x[0]] + s by {
      FlattenSingle(Suffix(x, cut));
    }
    ThreePieces(Flatten(dropped), x, cut);
  }

  lemma {:induction false} CutDivides(ms: seq<Message>, limit: nat)
    ensures Divides(CutOf(ms, limit), ms[SystemCount(ms)..])
  {
    var body, ctx, xs := ms[SystemCount(ms)..], ContextOf(ms, limit), ExchangesOf(ms);
    GroupPartitions(body);
    var c := DropOldest(ctx, xs);
    FlattenAt(xs, |c.dropped|);
    if SplitTurn(ctx, c) != c {
      var cut := SplitShape(ctx, c);
      assert c.kept == [c.kept[0]];
      FlattenSingle(c.kept[0]);
      SplitDivides(c.dropped, c.kept[0], cut, body);
    }
  }

  ghost predicate Conserves(dropped: seq<Message>, kept: seq<Message>, body: seq<Message>) {
    && multiset(dropped) + multiset(kept) == multiset(body)
    && Subsequence(dropped, body)
    && Subsequence(kept, body)
  }

  lemma {:induction false} HalvesConserve(dropped: seq<Message>, kept: seq<Message>)
    ensures Conserves(dropped, kept, dropped + kept)
  {
    SubsequenceSelf(dropped, kept);
    SubsequenceSelf(kept, []);
    assert kept + [] == kept;
    SubsequenceExtend(kept, dropped, kept);
  }

  lemma {:induction false} PiecesConserve(d: seq<Message>, u: Message, p: seq<Message>, s: seq<Message>)
    ensures Conserves(d + p, [u] + s, d + [u] + p + s)
  {
    hide Subsequence;
    DividedSubsequences(d, u, p, s);
    assert multiset(d + [u] + p + s) == multiset(d) + multiset([u]) + multiset(p) + multiset(s);
  }

  lemma {:induction false} DividesConserves(c: Cut, body: seq<Message>)
    requires Divides(c, body)
    ensures Conserves(Flatten(c.dropped), Flatten(c.kept), body)
  {
    hide Subsequence, Flatten, Conserves;
    var dropped, kept := Flatten(c.dropped), Flatten(c.kept);
    if dropped + kept == body {
      HalvesConserve(dropped, kept);
    } else {
      var d, u, p, s :| dropped == d + p && kept == [u] + s && body == d + [u] + p + s;
      PiecesConserve(d, u, p, s);
    }
  }

  /** Dropped and kept messages are exactly the body messages, each once, in order in each part. */
  lemma {:induction false} CompactionConserves(ms: seq<Message>, limit: nat)
    ensures var body, c := ms[SystemCount(ms)..], CutOf(ms, limit);
            Conserves(Flatten(c.dropped), Flatten(c.kept), body)
  {
    CutDivides(ms, limit);
    DividesConserves(CutOf(ms, limit), ms[SystemCount(ms)..]);
  }

  lemma {:induction false} DividedSubsequences(d: seq<Message>, u: Message, p: seq<Message>, s: seq<Message>)
    ensures Subsequence(d + p, d + [u] + p + s)
    ensures Subsequence([u] + s, d + [u] + p + s)
  {
    SubsequenceSelf(p, s);
    SubsequenceExtend(p, [u], p + s);
    SubsequencePrepend(d, p, [u] + (p + s));
    assert d + ([u] + (p + s)) == d + [u] + p + s;
    SubsequenceSelf(s, []);
    assert s + [] == s;
    SubsequenceExtend(s, p, s);
    SubsequencePrepend([u], s, p + s);
    SubsequenceExtend([u] + s, d, [u] + (p + s));
  }

  // ---------------------------------------------------------------------------
  // Pairing

  lemma {:induction false} RetainedSystem(system: seq<Message>)
    requires forall i :: 0 <= i < |system| ==> system[i].role == System && ToolFree(system[i])
    ensures forall i :: 0 <= i < |Retained(system)| ==>
              Retained(system)[i].role == System && ToolFree(Retained(system)[i])
  {
    if system != [] {
      RetainedSystem(system[1..]);
    }
  }

  lemma {:induction false} TextIsToolFree(role: Role, text: string)
    ensures ToolFree(TextMessage(role, text))
  {
    var content := TextMessage(role, text).content;
    assert UseIds(content[1..]) == [];
  }

  /** Whatever digest is injected, the scan of a projection is the scan of its body part. */
  lemma {:induction false} ScanOfBuild(strict: bool, system: seq<Message>, summary: Option<seq<string>>, kept: seq<Exchange>)
    requires forall i :: 0 <= i < |system| ==> ToolFree(system[i])
    ensures Scan(strict, [], Build(system, summary, kept)) == Scan(strict, [], Flatten(kept))
  {
    var head := system + Injected(summary);
    forall i | 0 <= i < |head| ensures ToolFree(head[i]) {
      if i >= |system| {
        TextIsToolFree(System, Render(summary.value));
      }
    }
    ScanToolFree(strict, head);
    ScanConcat(strict, [], head, Flatten(kept));
  }

  /** Leading system messages are tool-free and do not touch the scan. */
  lemma {:induction false} ScanOfBody(strict: bool, ms: seq<Message>)
    requires Scan(strict, [], ms).Some?
    ensures var n := SystemCount(ms);
            && Scan(strict, [], ms) == Scan(strict, [], ms[n..])
            && forall i :: 0 <= i < n ==> ms[..n][i].role == System && ToolFree(ms[..n][i])
  {
    var n := SystemCount(ms);
    forall i | 0 <= i < n ensures ToolFree(ms[i]) {
      AcceptedRoles(strict, [], ms, i);
    }
    ScanToolFree(strict, ms[..n]);
    ScanConcat(strict, [], ms[..n], ms[n..]);
    assert ms == ms[..n] + ms[n..];
  }

  /** Dropping whole exchanges from the front leaves the scan's verdict as it was. */
  lemma {:induction false} ScanAfterDrop(strict: bool, xs: seq<Exchange>, i: nat)
    requires WellGrouped(xs) && i <= |xs| && (i == |xs| ==> i == 0)
    requires Scan(strict, [], Flatten(xs)).Some?
    ensures Scan(strict, [], Flatten(xs[i..])) == Scan(strict, [], Flatten(xs))
  {
    if i > 0 {
      FlattenAt(xs, i);
      ScanConcat(strict, [], Flatten(xs[..i]), Flatten(xs[i..]));
      var mid := Scan(strict, [], Flatten(xs[..i])).value;
      assert xs[i..][0] == xs[i];
      assert Flatten(xs[i..])[0] == xs[i][0];
      FreshStart(strict, mid, Flatten(xs[i..]));
    } else {
      assert xs[0..] == xs;
    }
  }

  /** Splitting an exchange at a legal cut leaves the scan's verdict as it was. */
  lemma {:induction false} ScanAfterSplit(strict: bool, x: Exchange, cut: nat)
    requires LegalCut(x, cut) && x[0].role == User
    requires Scan(strict, [], x).Some?
    ensures Scan(strict, [], Suffix(x, cut)) == Scan(strict, [], x)
  {
    AcceptedRoles(strict, [], x, 0);
    ScanToolFree(strict, [x[0]]);
    ScanConcat(strict, [], [x[0]], x[cut..]);
    assert x == x[..cut] + x[cut..];
    ScanConcat(strict, [], x[..cut], x[cut..]);
    FreshStart(strict, Scan(strict, [], x[..cut]).value, x[cut..]);
  }

  lemma {:induction false} ScanOfCut(strict: bool, ms: seq<Message>, limit: nat)
    requires Scan(strict, [], ms).Some?
    ensures Scan(strict, [], Flatten(CutOf(ms, limit).kept)) == Scan(strict, [], ms)
  {
    var body, ctx, xs := ms[SystemCount(ms)..], ContextOf(ms, limit), ExchangesOf(ms);
    ScanOfBody(strict, ms);
    GroupPartitions(body);
    DropPointIsLeast(ctx, xs, 0);
    var c := DropOldest(ctx, xs);
    ScanAfterDrop(strict, xs, |c.dropped|);
    if SplitTurn(ctx, c) != c {
      var cut := SplitShape(ctx, c);
      assert c.kept == [c.kept[0]];
      FlattenSingle(c.kept[0]);
      FlattenSingle(Suffix(c.kept[0], cut));
      ScanAfterSplit(strict, c.kept[0], cut);
    }
  }

  lemma {:induction false} ClipContentKeepsTools(content: seq<Block>)
    ensures |ClipContent(content)| == |content|
    ensures forall i :: 0 <= i < |content| ==> ClipContent(content)[i] == ClipBlock(content[i])
  {
    if content != [] {
      ClipContentKeepsTools(content[..|content| - 1]);
    }
  }

  lemma {:induction false} UseIdsPointwise(a: seq<Block>, b: seq<Block>)
    requires |a| == |b| && forall i :: 0 <= i < |a| ==> a[i] == b[i] || (a[i].ToolResult? && b[i].ToolResult?)
    ensures UseIds(a) == UseIds(b)
  {
    if a != [] {
      UseIdsPointwise(a[1..], b[1..]);
    }
  }

  lemma {:induction false} ClipKeepsAdvance(strict: bool, open: seq<string>, m: Message)
    ensures Advance(strict, open, ClipMessage(m)) == Advance(strict, open, m)
  {
    ClipContentKeepsTools(m.content);
    var a, b := m.content, ClipContent(m.content);
    forall i | 0 <= i < |a| ensures a[i].ToolResult? == b[i].ToolResult? && (a[i].ToolResult? ==> a[i].id == b[i].id) {
    }
    assert HasResult(a) == HasResult(b) by {
      if HasResult(a) {
        var i :| 0 <= i < |a| && a[i].ToolResult?;
        assert b[i].ToolResult?;
      }
      if HasResult(b) {
        var i :| 0 <= i < |b| && b[i].ToolResult?;
        assert a[i].ToolResult?;
      }
    }
    UseIdsPointwise(a, b);
  }

  lemma {:induction false} ScanAfterClip(strict: bool, open: seq<string>, a: seq<Message>, b: seq<Message>)
    requires |a| == |b| && forall i :: 0 <= i < |a| ==> b[i] == a[i] || b[i] == ClipMessage(a[i])
    ensures Scan(strict, open, b) == Scan(strict, open, a)
    decreases |a|
  {
    if a != [] {
      ClipKeepsAdvance(strict, open, a[0]);
      var next := Advance(strict, open, a[0]);
      if next.Some? {
        ScanAfterClip(strict, next.value, a[1..], b[1..]);
      }
    }
  }

  /** Compaction never separates a call from its result: whatever reading accepts the input
      accepts the output, with the same calls still open at its end. */
  lemma {:induction false} CompactionKeepsPairing(strict: bool, ms: seq<Message>, limit: nat)
    requires Scan(strict, [], ms).Some?
    ensures Scan(strict, [], CompactPlan(ms, limit).messages) == Scan(strict, [], ms)
  {
    if !Fits(ms, limit) {
      var ctx, c := ContextOf(ms, limit), CutOf(ms, limit);
      ScanOfBody(strict, ms);
      RetainedSystem(ms[..SystemCount(ms)]);
      ScanOfCut(strict, ms, limit);
      ScanOfBuild(strict, ctx.system, ChosenDigest(ctx, c), c.kept);
      var out := Projection(ctx, c);
      ScanAfterClip(strict, [], out, ClippedTo(out, ClipPoint(out, limit, 0)));
    }
  }

  // ---------------------------------------------------------------------------
  // Budget

  lemma {:induction false} BuildBytes(system: seq<Message>, summary: Option<seq<string>>, kept: seq<Exchange>)
    ensures TotalBytes(Build(system, summary, kept)) ==
            TotalBytes(system) + TotalBytes(Injected(summary)) + TotalBytes(Flatten(kept))
  {
    TotalBytesConcat(system + Injected(summary), Flatten(kept));
    TotalBytesConcat(system, Injected(summary));
  }

  /** Dropping the digest never costs budget. */
  lemma {:induction false} NoDigestIsSmaller(system: seq<Message>, summary: Option<seq<string>>, kept: seq<Exchange>, limit: nat)
    requires Fits(Build(system, summary, kept), limit)
    ensures Fits(Build(system, None, kept), limit)
  {
    BuildBytes(system, summary, kept);
    BuildBytes(system, None, kept);
  }

  /** A digest is chosen only if it fits; none at all is tried before giving up. */
  lemma {:induction false} ShrinkDigestFits(ctx: Context, c: Cut, sizes: seq<(nat, nat)>)
    ensures var d := ShrinkDigest(ctx, c, sizes);
            d.Some? ==> Fits(Build(ctx.system, d, c.kept), ctx.limit)
  {
    if sizes != [] {
      ShrinkDigestFits(ctx, c, sizes[1..]);
    }
  }

  /** If the projection without any digest fits, the chosen one does. */
  lemma {:induction false} ChosenFitsIfBareFits(ctx: Context, c: Cut)
    requires c.dropped != []
    requires Fits(Build(ctx.system, None, c.kept), ctx.limit)
    ensures Fits(Projection(ctx, c), ctx.limit)
  {
    ShrinkDigestFits(ctx, c, RETRIES);
  }

  /** A successful split always yields a projection within budget. */
  lemma {:induction false} SplitForcesFit(ctx: Context, c: Cut)
    requires SplitTurn(ctx, c) != c
    ensures Fits(Projection(ctx, SplitTurn(ctx, c)), ctx.limit)
  {
    var cut := SplitShape(ctx, c);
    var r := SplitTurn(ctx, c);
    NoDigestIsSmaller(ctx.system, FullDigest(ctx.carried, c.dropped), r.kept, ctx.limit);
    ChosenFitsIfBareFits(ctx, r);
  }

  lemma {:induction false} ClipPointIsLeast(ms: seq<Message>, limit: nat, n: nat)
    requires n <= |ms|
    ensures var r := ClipPoint(ms, limit, n);
            && (forall j :: n <= j < r ==> !Fits(ClippedTo(ms, j), limit))
            && (r < |ms| ==> Fits(ClippedTo(ms, r), limit))
    decreases |ms| - n
  {
    if n < |ms| && !Fits(ClippedTo(ms, n), limit) {
      ClipPointIsLeast(ms, limit, n + 1);
    }
  }

  /** Clipping a clipped output changes nothing. */
  lemma {:induction false} ClipOutputIsIdempotent(s: string)
    ensures ClipOutput(ClipOutput(s)) == ClipOutput(s)
  {
    if |s| > OUTPUT_CHARS {
      assert ClipOutput(s)[..OUTPUT_CHARS] == s[..OUTPUT_CHARS];
    }
  }

  /** No tool output can be shortened any further. */
  ghost predicate AtFloor(ms: seq<Message>) {
    forall i, k :: 0 <= i < |ms| && 0 <= k < |ms[i].content| && ms[i].content[k].ToolResult? ==>
      ClipOutput(ms[i].content[k].output) == ms[i].content[k].output
  }

  lemma {:induction false} FullyClippedIsAtFloor(ms: seq<Message>)
    ensures AtFloor(ClippedTo(ms, |ms|))
  {
    var r := ClippedTo(ms, |ms|);
    forall i, k | 0 <= i < |r| && 0 <= k < |r[i].content| && r[i].content[k].ToolResult?
      ensures ClipOutput(r[i].content[k].output) == r[i].content[k].output
    {
      ClipContentKeepsTools(ms[i].content);
      ClipOutputIsIdempotent(ms[i].content[k].output);
    }
  }

  /** Compaction gives up over budget only when it has nothing left to try: at most one
      exchange is kept, no digest is injected if anything was dropped, and every tool
      output is already at its floor. */
  lemma {:induction false} OverBudgetMeansExhausted(ms: seq<Message>, limit: nat)
    requires !Fits(CompactPlan(ms, limit).messages, limit)
    ensures var ctx, c := ContextOf(ms, limit), CutOf(ms, limit);
            && |c.kept| <= 1
            && (c.dropped != [] ==> ChosenDigest(ctx, c).None?)
            && AtFloor(CompactPlan(ms, limit).messages)
  {
    var ctx, xs := ContextOf(ms, limit), ExchangesOf(ms);
    var c0 := DropOldest(ctx, xs);
    var c := CutOf(ms, limit);
    var out := Projection(ctx, c);
    DropPointIsLeast(ctx, xs, 0);
    ClipPointIsLeast(out, limit, 0);
    assert ClippedTo(out, 0) == out;
    var n := ClipPoint(out, limit, 0);
    assert n == |out|;
    FullyClippedIsAtFloor(out);
    assert !Fits(out, limit);
    if c != c0 {
      SplitForcesFit(ctx, c0);
    }
    assert |c.kept| <= 1 || c == c0;
    if c.dropped != [] {
      ShrinkDigestFits(ctx, c, RETRIES);
    }
  }

  /** Truncation stops at the first message where the conversation fits. */
  lemma {:induction false} TruncationIsMinimal(ms: seq<Message>, limit: nat, j: nat)
    requires !Fits(ms, limit)
    ensures var out := Projection(ContextOf(ms, limit), CutOf(ms, limit));
            && CompactPlan(ms, limit).messages == ClippedTo(out, ClipPoint(out, limit, 0))
            && (j < ClipPoint(out, limit, 0) ==> !Fits(ClippedTo(out, j), limit))
  {
    ClipPointIsLeast(Projection(ContextOf(ms, limit), CutOf(ms, limit)), limit, 0);
  }

  /** Clipping makes an output longer exactly when it is over the threshold but the part cut
      away is smaller than the ellipsis and the marker together. */
  lemma {:induction false} ClipGrowsExactlyWhen(s: string)
    ensures Utf8Len(ClipOutput(s)) > Utf8Len(s) <==>
            |s| > OUTPUT_CHARS && Utf8Len(s[OUTPUT_CHARS..]) < Utf8Len("..." + MARKER)
  {
    if |s| > OUTPUT_CHARS {
      var head, tail := s[..OUTPUT_CHARS], s[OUTPUT_CHARS..];
      assert s == head + tail;
      Utf8LenConcat(head, tail);
      assert ClipOutput(s) == head + ("..." + MARKER);
      Utf8LenConcat(head, "..." + MARKER);
    }
  }

  /** One character over the threshold: the output grows by what stands for that character. */
  lemma {:induction false} ClippedOutputGrows() returns (s: string)
    ensures |s| == OUTPUT_CHARS + 1 && Utf8Len(ClipOutput(s)) > Utf8Len(s)
  {
    s := seq(OUTPUT_CHARS + 1, i => 'a');
    ClipGrowsExactlyWhen(s);
    assert s[OUTPUT_CHARS..] == "a";
    assert Utf8Len("a"[1..]) == 0;
    Utf8LenConcat("...", MARKER);
    assert Utf8Len("...") >= 3 by {
      assert Utf8Len("..."[1..]) >= 1;
    }
  }

  /** The newest user turn is never lost: the last exchange's opening message is kept. */
  lemma {:induction false} NewestTurnIsKept(ms: seq<Message>, limit: nat)
    requires SystemCount(ms) < |ms|
    ensures var xs, kept := ExchangesOf(ms), CutOf(ms, limit).kept;
            xs != [] && xs[|xs| - 1] != [] && kept != [] && kept[|kept| - 1] != [] &&
            kept[|kept| - 1][0] == xs[|xs| - 1][0]
  {
    hide ContextOf, Fits, Build, Group, SplitTurn, FullDigest, WellGrouped, Flatten, DropPoint, FitsAfterDropping;
    var ctx, xs := ContextOf(ms, limit), ExchangesOf(ms);
    LastIsOpened(ms);
    DropPointIsLeast(ctx, xs, 0);
    var c := DropOldest(ctx, xs);
    assert c.kept[|c.kept| - 1] == xs[|xs| - 1];
    if SplitTurn(ctx, c) != c {
      var cut := SplitShape(ctx, c);
    }
  }

  lemma {:induction false} LastIsOpened(ms: seq<Message>)
    requires SystemCount(ms) < |ms|
    ensures var xs := ExchangesOf(ms); xs != [] && xs[|xs| - 1] != []
  {
    GroupPartitions(ms[SystemCount(ms)..]);
  }

  // ---------------------------------------------------------------------------
  // Smart cutover

  /** Only lone results carry results, so a digest-like message carries none. */
  lemma {:induction false} SummaryAnswersNothing(strict: bool, open: seq<string>, ms: seq<Message>, i: nat)
    requires Scan(strict, open, ms).Some? && i < |ms| && IsSummaryMessage(ms[i])
    ensures !HasResult(ms[i].content)
    decreases i
  {
    if i == 0 {
      var content := ms[0].content;
      if |content| == 1 {
        assert FirstText(content[1..]).None?;
      }
    } else {
      SummaryAnswersNothing(strict, Advance(strict, open, ms[0]).value, ms[1..], i - 1);
    }
  }

  lemma {:induction false} ScanMiddle(strict: bool, before: seq<Message>, m: Message, after: seq<Message>)
    ensures Scan(strict, [], before + [m] + after) ==
            (var open := Scan(strict, [], before);
             if open.None? then None
             else
               var next := Advance(strict, open.value, m);
               if next.None? then None else Scan(strict, next.value, after))
  {
    assert before + [m] + after == before + ([m] + after);
    ScanConcat(strict, [], before, [m] + after);
    assert ([m] + after)[1..] == after;
  }

  /** Swapping in a smart digest for a message that called no tools leaves both readings as they were. */
  lemma {:induction false} CutoverKeepsPairing(strict: bool, ms: seq<Message>, rendered: string)
    requires OrphanFree(ms)
    requires SummaryIndex(ms).Some? && UseIds(ms[SummaryIndex(ms).value].content) == []
    ensures Scan(strict, [], SwapSummary(ms, rendered).value) == Scan(strict, [], ms)
  {
    hide UseIds, HasResult, IsSummaryMessage;
    var i := SummaryIndex(ms).value;
    var t := TextMessage(System, rendered);
    assert ms == ms[..i] + [ms[i]] + ms[i + 1..];
    assert ms[i := t] == ms[..i] + [t] + ms[i + 1..];
    ScanMiddle(strict, ms[..i], ms[i], ms[i + 1..]);
    ScanMiddle(strict, ms[..i], t, ms[i + 1..]);
    TextIsToolFree(System, rendered);
    SummaryAnswersNothing(false, [], ms, i);
  }

  /** For an exactly paired projection that condition is also necessary: replacing a message
      that did call tools orphans its results. */
  lemma {:induction false} CutoverKeepsPairingExactlyWhen(ms: seq<Message>, rendered: string)
    requires ExactlyPaired(ms)
    requires SummaryIndex(ms).Some?
    ensures ExactlyPaired(SwapSummary(ms, rendered).value) <==> UseIds(ms[SummaryIndex(ms).value].content) == []
  {
    hide UseIds, HasResult, IsSummaryMessage;
    var i := SummaryIndex(ms).value;
    var m, t, after := ms[i], TextMessage(System, rendered), ms[i + 1..];
    if UseIds(m.content) == [] {
      StrictImpliesLenient([], ms);
      CutoverKeepsPairing(true, ms, rendered);
    } else {
      assert ms == ms[..i] + [m] + after;
      assert ms[i := t] == ms[..i] + [t] + after;
      ScanMiddle(true, ms[..i], m, after);
      ScanMiddle(true, ms[..i], t, after);
      TextIsToolFree(System, rendered);
      SummaryAnswersNothing(true, [], ms, i);
      OpenNeedsResult(UseIds(m.content), after);
    }
  }

  /** No digest-like message calls tools. */
  ghost predicate NoMimicry(ms: seq<Message>) {
    forall i :: 0 <= i < |ms| && IsSummaryMessage(ms[i]) ==> UseIds(ms[i].content) == []
  }

  /** While calls are open only results are acceptable, and those need the calls. */
  lemma {:induction false} OpenNeedsResult(open: seq<string>, ms: seq<Message>)
    requires open != [] && Scan(true, open, ms) == Some([])
    ensures ms != [] && Scan(true, [], ms).None?
  {
    assert HasResult(ms[0].content);
  }

  lemma {:induction false} SummaryAfter(head: seq<Message>, m: Message, rest: seq<Message>)
    requires forall i :: 0 <= i < |head| ==> !IsSummaryMessage(head[i])
    requires IsSummaryMessage(m)
    ensures SummaryIndex(head + [m] + rest) == Some(|head|)
  {
    var ms := head + [m] + rest;
    if head != [] {
      SummaryAfter(head[1..], m, rest);
      assert ms[1..] == head[1..] + [m] + rest;
      assert !IsSummaryMessage(ms[0]);
    }
  }

  lemma {:induction false} RetainedHasNoSummary(system: seq<Message>)
    ensures forall i :: 0 <= i < |Retained(system)| ==> !IsSummaryMessage(Retained(system)[i])
  {
    if system != [] {
      RetainedHasNoSummary(system[1..]);
    }
  }

  lemma {:induction false} FirstTextPointwise(a: seq<Block>, b: seq<Block>)
    requires |a| == |b| && forall i :: 0 <= i < |a| ==> b[i] == ClipBlock(a[i])
    ensures FirstText(a) == FirstText(b)
  {
    if a != [] {
      FirstTextPointwise(a[1..], b[1..]);
    }
  }

  lemma {:induction false} ClipKeepsSummary(m: Message)
    ensures IsSummaryMessage(ClipMessage(m)) == IsSummaryMessage(m)
  {
    ClipContentKeepsTools(m.content);
    FirstTextPointwise(m.content, ClipContent(m.content));
  }

  lemma {:induction false} InjectedDigestIsFirst(system: seq<Message>, entries: seq<string>, kept: seq<Exchange>, n: nat)
    requires forall i :: 0 <= i < |system| ==> !IsSummaryMessage(system[i])
    requires n <= |Build(system, Some(entries), kept)|
    ensures var r := ClippedTo(Build(system, Some(entries), kept), n);
            |r| > |system| && SummaryIndex(r) == Some(|system|)
  {
    var out := Build(system, Some(entries), kept);
    var r, k := ClippedTo(out, n), |system|;
    forall i | 0 <= i <= k ensures IsSummaryMessage(r[i]) == IsSummaryMessage(out[i]) {
      ClipKeepsSummary(out[i]);
    }
    assert out[k] == SummaryMessage(entries);
    assert IsSummaryMessage(out[k]);
    assert r == r[..k] + [r[k]] + r[k + 1..];
    forall i | 0 <= i < k ensures !IsSummaryMessage(r[..k][i]) {
      assert out[i] == system[i];
    }
    SummaryAfter(r[..k], r[k], r[k + 1..]);
  }

  /** With an injected digest the cutover replaces exactly that digest: the system prompt and
      the kept body reach the provider untouched. */
  lemma {:induction false} CutoverReplacesInjectedDigest(ms: seq<Message>, limit: nat, rendered: string)
    requires !Fits(ms, limit)
    requires ChosenDigest(ContextOf(ms, limit), CutOf(ms, limit)).Some?
    ensures var p, k := CompactPlan(ms, limit).messages, |ContextOf(ms, limit).system|;
            k < |p| && SwapSummary(p, rendered) == Some(p[k := TextMessage(System, rendered)])
  {
    var ctx, c := ContextOf(ms, limit), CutOf(ms, limit);
    RetainedHasNoSummary(ms[..SystemCount(ms)]);
    var out := Projection(ctx, c);
    InjectedDigestIsFirst(ctx.system, ChosenDigest(ctx, c).value, c.kept, ClipPoint(out, limit, 0));
  }

  // ---------------------------------------------------------------------------
  // Folding system messages

  ghost predicate NoAdjacentSystem(ms: seq<Message>) {
    forall i :: 0 <= i < |ms| - 1 ==> !(ms[i].role == System && ms[i + 1].role == System)
  }

  function FlatContent(ms: seq<Message>): seq<Block> {
    if ms == [] then [] else FlatContent(ms[..|ms| - 1]) + ms[|ms| - 1].content
  }

  function NonSystem(ms: seq<Message>): seq<Message> {
    if ms == [] then []
    else NonSystem(ms[..|ms| - 1]) + (if ms[|ms| - 1].role == System then [] else [ms[|ms| - 1]])
  }

  lemma {:induction false} SnocParts(ms: seq<Message>, m: Message)
    ensures FlatContent(ms + [m]) == FlatContent(ms) + m.content
    ensures NonSystem(ms + [m]) == NonSystem(ms) + (if m.role == System then [] else [m])
  {
    assert (ms + [m])[..|ms|] == ms;
  }

  lemma {:induction false} MergeStep(out: seq<Message>, m: Message)
    requires NoAdjacentSystem(out)
    ensures NoAdjacentSystem(MergeInto(out, m))
    ensures FlatContent(MergeInto(out, m)) == FlatContent(out) + m.content
    ensures NonSystem(MergeInto(out, m)) == NonSystem(out) + (if m.role == System then [] else [m])
  {
    hide FlatContent, NonSystem;
    if out != [] && out[|out| - 1].role == System && m.role == System {
      var head, last := out[..|out| - 1], out[|out| - 1];
      var merged := last.(content := last.content + m.content);
      assert out == head + [last];
      SnocParts(head, last);
      SnocParts(head, merged);
    } else {
      SnocParts(out, m);
    }
  }

  /** After folding no two system messages are adjacent, no block is lost, added or moved,
      and every other message is still there, in its place. */
  lemma {:induction false} MergeFolds(ms: seq<Message>)
    ensures NoAdjacentSystem(MergeSystem(ms))
    ensures FlatContent(MergeSystem(ms)) == FlatContent(ms)
    ensures NonSystem(MergeSystem(ms)) == NonSystem(ms)
  {
    if ms != [] {
      MergeFolds(ms[..|ms| - 1]);
      MergeStep(MergeSystem(ms[..|ms| - 1]), ms[|ms| - 1]);
    }
  }

  /** One message, or several that are all system messages. */
  ghost predicate IsRun(run: seq<Message>) {
    run != [] && (|run| > 1 ==> forall k :: 0 <= k < |run| ==> run[k].role == System)
  }

  /** A run as one message: its first, with the blocks of all. */
  function Folded(run: seq<Message>): Message
    requires run != []
  {
    run[0].(content := FlatContent(run))
  }

  /** Runs that cut up `ms`, none of which could be longer, and what each of them becomes. */
  ghost predicate FoldsRuns(runs: seq<seq<Message>>, ms: seq<Message>, out: seq<Message>) {
    && Flatten(runs) == ms
    && |runs| == |out|
    && (forall i :: 0 <= i < |runs| ==> IsRun(runs[i]) && out[i] == Folded(runs[i]))
    && NoAdjacentSystem(out)
  }

  /** Each message sent stands for one maximal run of adjacent system messages, or for one other message;
      it has the blocks of its run, in order, and everything else of the run's first message. */
  lemma {:induction false} MergeFoldsRuns(ms: seq<Message>) returns (runs: seq<seq<Message>>)
    ensures FoldsRuns(runs, ms, MergeSystem(ms))
  {
    if ms == [] {
      runs := [];
    } else {
      var init, m := ms[..|ms| - 1], ms[|ms| - 1];
      var before: seq<seq<Message>> := MergeFoldsRuns(init);
      assert ms == init + [m];
      var n := |before|;
      hide MergeSystem;
      if n > 0 && MergeSystem(init)[n - 1].role == System && m.role == System {
        runs := before[..n - 1] + [before[n - 1] + [m]];
        ExtendRun(before, init, MergeSystem(init), m);
      } else {
        runs := before + [[m]];
        AddRun(before, init, MergeSystem(init), m);
      }
      MergeSnoc(init, m);
    }
  }

  lemma {:induction false} MergeSnoc(init: seq<Message>, m: Message)
    ensures MergeSystem(init + [m]) == MergeInto(MergeSystem(init), m)
  {
    assert (init + [m])[..|init|] == init;
  }

  lemma {:induction false} FlatSnoc(runs: seq<seq<Message>>, run: seq<Message>)
    ensures Flatten(runs + [run]) == Flatten(runs) + run
  {
    FlattenConcat(runs, [run]);
    FlattenSingle(run);
  }

  lemma {:induction false} AddRun(runs: seq<seq<Message>>, ms: seq<Message>, out: seq<Message>, m: Message)
    requires FoldsRuns(runs, ms, out)
    requires out != [] ==> !(out[|out| - 1].role == System && m.role == System)
    ensures FoldsRuns(runs + [[m]], ms + [m], MergeInto(out, m))
  {
    hide Flatten, FlatContent, Folded;
    FlatSnoc(runs, [m]);
    LoneRun(m);
  }

  lemma {:induction false} LoneRun(m: Message)
    ensures IsRun([m]) && Folded([m]) == m
  {
    SnocParts([], m);
    assert [] + [m] == [m];
  }

  lemma {:induction false} ExtendRun(runs: seq<seq<Message>>, ms: seq<Message>, out: seq<Message>, m: Message)
    requires FoldsRuns(runs, ms, out) && runs != []
    requires out[|out| - 1].role == System && m.role == System
    ensures FoldsRuns(runs[..|runs| - 1] + [runs[|runs| - 1] + [m]], ms + [m], MergeInto(out, m))
  {
    hide Flatten, FlatContent;
    var head, run := runs[..|runs| - 1], runs[|runs| - 1];
    assert runs == head + [run];
    FlatSnoc(head, run);
    FlatSnoc(head, run + [m]);
    SnocParts(run, m);
    assert IsRun(run);
    assert IsRun(run + [m]);
  }

  lemma {:induction false} MergeFixesFolded(ms: seq<Message>)
    requires NoAdjacentSystem(ms)
    ensures MergeSystem(ms) == ms
  {
    if ms != [] {
      var init := ms[..|ms| - 1];
      MergeFixesFolded(init);
      if init != [] {
        assert !(ms[|ms| - 2].role == System && ms[|ms| - 1].role == System);
      }
    }
  }

  /** Folding twice is folding once. */
  lemma {:induction false} MergeIsIdempotent(ms: seq<Message>)
    ensures MergeSystem(MergeSystem(ms)) == MergeSystem(ms)
  {
    MergeFolds(ms);
    MergeFixesFolded(MergeSystem(ms));
  }

  lemma {:induction false} UseIdsConcat(a: seq<Block>, b: seq<Block>)
    ensures UseIds(a + b) == UseIds(a) + UseIds(b)
  {
    if a == [] {
      assert a + b == b;
    } else {
      assert (a + b)[1..] == a[1..] + b;
      UseIdsConcat(a[1..], b);
    }
  }

  lemma {:induction false} PlainConcat(a: seq<Block>, b: seq<Block>)
    requires UseIds(a) == UseIds(b) == [] && !HasResult(a) && !HasResult(b)
    ensures UseIds(a + b) == [] && !HasResult(a + b)
  {
    UseIdsConcat(a, b);
    forall i | 0 <= i < |a + b| ensures !(a + b)[i].ToolResult? {
      assert (a + b)[i] == if i < |a| then a[i] else b[i - |a|];
    }
  }

  /** Folding system messages is invisible to the pairing automaton, in either reading. */
  lemma {:induction false} MergeKeepsPairing(strict: bool, ms: seq<Message>)
    requires OrphanFree(ms)
    ensures Scan(strict, [], MergeSystem(ms)) == Scan(strict, [], ms)
  {
    hide UseIds, HasResult, MergeSystem;
    if ms == [] {
      MergeNothing();
    } else {
      var init, m := ms[..|ms| - 1], ms[|ms| - 1];
      assert ms == init + [m];
      ScanConcat(false, [], init, [m]);
      ScanConcat(strict, [], init, [m]);
      MergeKeepsPairing(false, init);
      MergeKeepsPairing(strict, init);
      MergeSnoc(init, m);
      var before := MergeSystem(init);
      if before != [] && before[|before| - 1].role == System && m.role == System {
        AcceptedRoles(false, [], before, |before| - 1);
        AcceptedRoles(false, [], ms, |ms| - 1);
        MergePair(strict, before[..|before| - 1], before[|before| - 1], m);
        assert before == before[..|before| - 1] + [before[|before| - 1]];
      } else {
        ScanConcat(strict, [], before, [m]);
      }
    }
  }

  lemma {:induction false} MergeNothing()
    ensures MergeSystem([]) == []
  {
  }

  /** Two adjacent messages without tools are worth one with the blocks of both. */
  lemma {:induction false} MergePair(strict: bool, head: seq<Message>, last: Message, m: Message)
    requires ToolFree(last) && ToolFree(m)
    ensures Scan(strict, [], head + [last.(content := last.content + m.content)]) ==
            (var open := Scan(strict, [], head + [last]); if open.None? then None else Scan(strict, open.value, [m]))
  {
    hide UseIds, HasResult;
    var merged := last.(content := last.content + m.content);
    PlainConcat(last.content, m.content);
    ScanConcat(strict, [], head, [last]);
    ScanConcat(strict, [], head, [merged]);
    assert [last][1..] == [] && [merged][1..] == [] && [m][1..] == [];
  }

  // ---------------------------------------------------------------------------
  // What every message of a projection is

  /** A projected message is an input message, possibly clipped, or an injected digest. */
  ghost predicate ComesFrom(m: Message, ms: seq<Message>) {
    || (exists j :: 0 <= j < |ms| && (m == ms[j] || m == ClipMessage(ms[j])))
    || (exists text :: m == TextMessage(System, text))
  }

  lemma {:induction false} SubsequenceMember(part: seq<Message>, whole: seq<Message>, m: Message)
    requires Subsequence(part, whole) && m in part
    ensures m in whole
    decreases |whole|
  {
    if part[0] == whole[0] && Subsequence(part[1..], whole[1..]) {
      if m != part[0] {
        assert part == [part[0]] + part[1..];
        SubsequenceMember(part[1..], whole[1..], m);
      }
    } else {
      SubsequenceMember(part, whole[1..], m);
    }
  }

  lemma {:induction false} RetainedSubsequence(system: seq<Message>)
    ensures Subsequence(Retained(system), system)
  {
    if system != [] {
      RetainedSubsequence(system[1..]);
      var r := Retained(system);
      if !IsSummaryMessage(system[0]) {
        assert r[0] == system[0] && r[1..] == Retained(system[1..]);
      } else {
        assert r == Retained(system[1..]);
        SubsequenceExtend(r, [system[0]], system[1..]);
        assert [system[0]] + system[1..] == system;
      }
    }
  }

  lemma {:induction false} ProjectionComesFrom(ms: seq<Message>, limit: nat, m: Message)
    requires m in Projection(ContextOf(ms, limit), CutOf(ms, limit))
    ensures m in ms || exists text :: m == TextMessage(System, text)
  {
    hide CutOf, ChosenDigest, Flatten, Subsequence, SystemCount, Retained;
    var ctx, c, n := ContextOf(ms, limit), CutOf(ms, limit), SystemCount(ms);
    assert ms == ms[..n] + ms[n..];
    if m in ctx.system {
      RetainedSubsequence(ms[..n]);
      SubsequenceMember(ctx.system, ms[..n], m);
    } else if m in Flatten(c.kept) {
      CompactionConserves(ms, limit);
      SubsequenceMember(Flatten(c.kept), ms[n..], m);
    } else {
      assert m in Injected(ChosenDigest(ctx, c));
    }
  }

  lemma {:induction false} PlanComesFrom(ms: seq<Message>, limit: nat, i: nat)
    requires i < |CompactPlan(ms, limit).messages|
    ensures ComesFrom(CompactPlan(ms, limit).messages[i], ms)
  {
    if !Fits(ms, limit) {
      var out := Projection(ContextOf(ms, limit), CutOf(ms, limit));
      var m := out[i];
      ProjectionComesFrom(ms, limit, m);
      if m in ms {
        var j :| 0 <= j < |ms| && ms[j] == m;
      } else {
        var text :| m == TextMessage(System, text);
        PlainTextUnclipped(System, text);
      }
    }
  }

  lemma {:induction false} PlainTextUnclipped(role: Role, text: string)
    ensures ClipMessage(TextMessage(role, text)) == TextMessage(role, text)
  {
    var content := [Text(text)];
    assert ClipContent(content[..0]) == [];
  }

  lemma {:induction false} ClipKeepsPlain(m: Message)
    requires !HasResult(m.content)
    ensures ClipMessage(m) == m
  {
    ClipContentKeepsTools(m.content);
    forall i | 0 <= i < |m.content| ensures ClipContent(m.content)[i] == m.content[i] {
      assert !m.content[i].ToolResult?;
    }
  }

  lemma {:induction false} ClipKeepsUseIds(m: Message)
    ensures UseIds(ClipMessage(m).content) == UseIds(m.content)
    ensures HasResult(ClipMessage(m).content) == HasResult(m.content)
  {
    ClipContentKeepsTools(m.content);
    var a, b := m.content, ClipContent(m.content);
    UseIdsPointwise(a, b);
    if HasResult(a) {
      var i :| 0 <= i < |a| && a[i].ToolResult?;
      assert b[i].ToolResult?;
    }
    if HasResult(b) {
      var i :| 0 <= i < |b| && b[i].ToolResult?;
      assert a[i].ToolResult?;
    }
  }

  lemma {:induction false} PlanKeepsNoMimicry(ms: seq<Message>, limit: nat)
    requires NoMimicry(ms)
    ensures NoMimicry(CompactPlan(ms, limit).messages)
  {
    var out := CompactPlan(ms, limit).messages;
    forall i | 0 <= i < |out| && IsSummaryMessage(out[i]) ensures UseIds(out[i].content) == [] {
      PlanComesFrom(ms, limit, i);
      if j :| 0 <= j < |ms| && (out[i] == ms[j] || out[i] == ClipMessage(ms[j])) {
        ClipKeepsSummary(ms[j]);
        ClipKeepsUseIds(ms[j]);
      } else {
        var text :| out[i] == TextMessage(System, text);
        TextIsToolFree(System, text);
      }
    }
  }

  /** The smart digest goes in: the plan dropped something, shows a digest-like message, and
      fits with the smart one in its place. */
  predicate Adopts(ms: seq<Message>, limit: nat, smart: Option<string>) {
    var p := CompactPlan(ms, limit);
    && smart.Some? && p.compacted && p.dropped != []
    && SwapSummary(p.messages, smart.value).Some?
    && Fits(SwapSummary(p.messages, smart.value).value, limit)
  }

  /** What goes out for the smart digest called no tools. */
  predicate SwapIsSafe(ms: seq<Message>, limit: nat, smart: Option<string>) {
    var shown := CompactPlan(ms, limit).messages;
    Adopts(ms, limit, smart) ==> UseIds(shown[SummaryIndex(shown).value].content) == []
  }

  lemma {:induction false} CandidateIsSwapped(ms: seq<Message>, limit: nat, smart: Option<string>)
    ensures var p := CompactPlan(ms, limit);
            Candidate(ms, limit, smart).messages ==
            if Adopts(ms, limit, smart) then SwapSummary(p.messages, smart.value).value else p.messages
  {
    hide CompactPlan;
  }

  /** The candidate the session adopts, smart or not, keeps the pairing of its input. */
  lemma {:induction false} CandidateKeepsPairing(strict: bool, ms: seq<Message>, limit: nat, smart: Option<string>)
    requires Scan(strict, [], ms).Some?
    requires SwapIsSafe(ms, limit, smart)
    ensures Scan(strict, [], Candidate(ms, limit, smart).messages) == Scan(strict, [], ms)
  {
    hide CompactPlan, Candidate, SwapSummary;
    CompactionKeepsPairing(strict, ms, limit);
    CandidateIsSwapped(ms, limit, smart);
    if Adopts(ms, limit, smart) {
      SwapHasSummary(CompactPlan(ms, limit).messages, smart.value);
      if strict {
        StrictImpliesLenient([], CompactPlan(ms, limit).messages);
      }
      CutoverKeepsPairing(strict, CompactPlan(ms, limit).messages, smart.value);
    }
  }

  lemma {:induction false} SwapHasSummary(ms: seq<Message>, rendered: string)
    ensures SwapSummary(ms, rendered).Some? <==> SummaryIndex(ms).Some?
  {
  }

  /** For an exactly paired history that condition is also necessary: the candidate loses the
      pairing exactly when the message that makes room for the smart digest called tools. */
  lemma {:induction false} CandidateKeepsPairingExactlyWhen(ms: seq<Message>, limit: nat, smart: Option<string>)
    requires ExactlyPaired(ms)
    ensures ExactlyPaired(Candidate(ms, limit, smart).messages) <==> SwapIsSafe(ms, limit, smart)
  {
    hide CompactPlan, Candidate, SwapSummary;
    CompactionKeepsPairing(true, ms, limit);
    CandidateIsSwapped(ms, limit, smart);
    if Adopts(ms, limit, smart) {
      SwapHasSummary(CompactPlan(ms, limit).messages, smart.value);
      CutoverKeepsPairingExactlyWhen(CompactPlan(ms, limit).messages, smart.value);
    }
  }

  /** Where the plan carries a digest of its own the swap is safe: that digest is what goes out. */
  lemma {:induction false} InjectedIsSafe(ms: seq<Message>, limit: nat, smart: Option<string>)
    requires Fits(ms, limit) || ChosenDigest(ContextOf(ms, limit), CutOf(ms, limit)).Some?
    ensures SwapIsSafe(ms, limit, smart)
  {
    if Adopts(ms, limit, smart) {
      var ctx, c := ContextOf(ms, limit), CutOf(ms, limit);
      var out := Projection(ctx, c);
      var digest := ChosenDigest(ctx, c).value;
      RetainedHasNoSummary(ms[..SystemCount(ms)]);
      InjectedDigestIsFirst(ctx.system, digest, c.kept, ClipPoint(out, limit, 0));
      assert out[|ctx.system|] == SummaryMessage(digest);
      TextIsToolFree(System, Render(digest));
      ClipKeepsUseIds(SummaryMessage(digest));
    }
  }

  /** So is a history in which no digest-like message calls tools. */
  lemma {:induction false} NoMimicryIsSafe(ms: seq<Message>, limit: nat, smart: Option<string>)
    requires NoMimicry(ms)
    ensures SwapIsSafe(ms, limit, smart)
  {
    hide CompactPlan;
    PlanKeepsNoMimicry(ms, limit);
  }

  // ---------------------------------------------------------------------------
  // Histories whose candidate loses the pairing

  const EARLIER := TextMessage(User, "go")
  const ASKED := TextMessage(User, "do")
  const ANSWER := Message(Tool, [ToolResult("1", "a", false)], None)

  /** A reply that opens like a digest and calls a tool with some input. */
  function Mimic(input: Json): Message {
    Message(Assistant, [Text(TITLE), ToolUse("1", "ls", input)], None)
  }

  function LastTurn(input: Json): Exchange {
    [ASKED, Mimic(input), ANSWER]
  }

  function Mimicry(input: Json): seq<Message> {
    [EARLIER] + LastTurn(input)
  }

  /** The input alone is over the limit. */
  predicate Oversized(input: Json, limit: nat) {
    Utf8Len(input.text) >= 4 * (limit + 1)
  }

  lemma {:induction false} MimicIsTooLarge(input: Json, limit: nat, before: seq<Message>, after: seq<Message>)
    requires Oversized(input, limit)
    ensures !Fits(before + [Mimic(input)] + after, limit)
  {
    var m := Mimic(input);
    TotalBytesConcat(before + [m], after);
    TotalBytesConcat(before, [m]);
    assert TotalBytes([m]) == ContentBytes(m.content) + TotalBytes([m][1..]);
    assert m.content[1..] == [m.content[1]];
    assert ContentBytes(m.content[1..]) >= BlockBytes(m.content[1]) >= Utf8Len(input.text);
  }

  lemma {:induction false} NoRoomNoDigest(ctx: Context, c: Cut, sizes: seq<(nat, nat)>)
    requires !Fits(Build(ctx.system, None, c.kept), ctx.limit)
    ensures ShrinkDigest(ctx, c, sizes) == None
  {
    hide Build, Digest;
    if sizes != [] {
      var d := Digest(ctx.carried, c.dropped, sizes[0].0, sizes[0].1);
      if Fits(Build(ctx.system, d, c.kept), ctx.limit) {
        NoDigestIsSmaller(ctx.system, d, c.kept, ctx.limit);
      }
      NoRoomNoDigest(ctx, c, sizes[1..]);
    }
  }

  lemma {:induction false} GroupSnoc(body: seq<Message>, m: Message)
    ensures Group(body + [m]) == AddToExchanges(Group(body), m)
    ensures Group([]) == []
  {
    assert (body + [m])[..|body|] == body;
  }

  lemma {:induction false} MimicryGroups(input: Json, limit: nat)
    ensures SystemCount(Mimicry(input)) == 0 && ExchangesOf(Mimicry(input)) == [[EARLIER], LastTurn(input)]
    ensures ContextOf(Mimicry(input), limit) == Context([], [], limit)
  {
    hide Group;
    var ms, m := Mimicry(input), Mimic(input);
    assert ms[..0] == [] && ms[0..] == ms;
    NothingIsGrouped();
    GroupSnoc([], EARLIER);
    assert [] + [EARLIER] == [EARLIER];
    GroupSnoc([EARLIER], ASKED);
    GroupSnoc([EARLIER] + [ASKED], m);
    GroupSnoc([EARLIER] + [ASKED] + [m], ANSWER);
    assert ms == [EARLIER] + [ASKED] + [m] + [ANSWER];
    assert LastTurn(input) == [ASKED] + [m] + [ANSWER];
  }

  lemma {:induction false} LastTurnIsTooLarge(input: Json, limit: nat, summary: Option<seq<string>>)
    requires Oversized(input, limit)
    ensures !Fits(Build([], summary, [LastTurn(input)]), limit)
    ensures !Fits(Build([], summary, [[EARLIER], LastTurn(input)]), limit)
  {
    hide Fits, Mimic;
    var m, turn := Mimic(input), LastTurn(input);
    assert Flatten([turn]) == turn + Flatten([turn][1..]);
    assert Flatten([[EARLIER], turn]) == [EARLIER] + Flatten([[EARLIER], turn][1..]);
    assert Build([], summary, [turn]) == Injected(summary) + [ASKED] + [m] + [ANSWER];
    MimicIsTooLarge(input, limit, Injected(summary) + [ASKED], [ANSWER]);
    assert [[EARLIER], turn][1..] == [turn];
    assert Build([], summary, [[EARLIER], turn]) == Injected(summary) + [EARLIER, ASKED] + [m] + [ANSWER];
    MimicIsTooLarge(input, limit, Injected(summary) + [EARLIER, ASKED], [ANSWER]);
  }

  /** The earlier exchange goes, the last one cannot be split, and no digest fits. */
  lemma {:induction false} MimicryCut(input: Json, limit: nat)
    requires Oversized(input, limit)
    ensures CutOf(Mimicry(input), limit) == Cut([[EARLIER]], [LastTurn(input)])
    ensures ChosenDigest(ContextOf(Mimicry(input), limit), CutOf(Mimicry(input), limit)) == None
  {
    hide Fits, Build, Digest, Mimicry, Group, Oversized;
    var turn := LastTurn(input);
    var ctx, xs := Context([], [], limit), [[EARLIER], turn];
    MimicryGroups(input, limit);
    LastTurnIsTooLarge(input, limit, FullDigest([], xs[..0]));
    assert xs[0..] == xs && xs[1..] == [turn] && xs[..1] == [[EARLIER]];
    assert DropPoint(ctx, xs, 0) == DropPoint(ctx, xs, 1) == 1;
    var c := Cut([[EARLIER]], [turn]);
    assert DropOldest(ctx, xs) == c;
    LastTurnIsTooLarge(input, limit, FullDigest([], c.dropped));
    assert FirstFittingCut(ctx, FullDigest([], c.dropped), turn, 3) == None;
    assert SplitPoint(ctx, FullDigest([], c.dropped), turn) == None;
    LastTurnIsTooLarge(input, limit, None);
    NoRoomNoDigest(ctx, c, RETRIES);
  }

  lemma {:induction false} MimicAnswersNothing(input: Json)
    ensures !HasResult(Mimic(input).content)
  {
  }

  lemma {:induction false} ClippedLastTurn(input: Json, n: nat)
    requires n <= 3
    ensures ClippedTo(LastTurn(input), n) == LastTurn(input)
  {
    PlainTextUnclipped(User, "do");
    MimicAnswersNothing(input);
    ClipKeepsPlain(Mimic(input));
    assert ANSWER.content[..0] == [] && ClipBlock(ANSWER.content[0]) == ANSWER.content[0];
    assert ClipContent(ANSWER.content) == ClipContent(ANSWER.content[..0]) + [ANSWER.content[0]];
    assert ClipMessage(ANSWER) == ANSWER;
  }

  lemma {:induction false} MimicryIsTooLarge(input: Json, limit: nat)
    requires Oversized(input, limit)
    ensures !Fits(Mimicry(input), limit)
  {
    MimicIsTooLarge(input, limit, [EARLIER, ASKED], [ANSWER]);
    assert Mimicry(input) == [EARLIER, ASKED] + [Mimic(input)] + [ANSWER];
  }

  lemma {:induction false} MimicryPlan(input: Json, limit: nat)
    requires Oversized(input, limit)
    ensures var p := CompactPlan(Mimicry(input), limit);
            p.compacted && p.dropped == [[EARLIER]] && p.messages == LastTurn(input)
  {
    hide Fits, CutOf, ContextOf, ClippedTo, ClipPoint, Oversized, Mimicry, ChosenDigest, Mimic;
    MimicryGroups(input, limit);
    MimicryCut(input, limit);
    MimicryIsTooLarge(input, limit);
    var turn := LastTurn(input);
    FlattenSingle(turn);
    assert Projection(Context([], [], limit), Cut([[EARLIER]], [turn])) == turn;
    ClippedLastTurn(input, ClipPoint(turn, limit, 0));
  }

  lemma {:induction false} SmallParts()
    ensures ContentBytes(ASKED.content) == 2 && ContentBytes(ANSWER.content) == 1
  {
    assert "do"[..1] == "d" && "d"[..0] == "" && "a"[..0] == "";
    assert Utf8Len("do") == 2 && Utf8Len("a") == 1;
  }

  lemma {:induction false} SwappedFits(input: Json, limit: nat, rendered: string)
    requires (Utf8Len(rendered) + 3) / 4 <= limit
    ensures SummaryIndex(LastTurn(input)) == Some(1)
    ensures Fits([ASKED, TextMessage(System, rendered), ANSWER], limit)
  {
    assert LastTurn(input)[1..][0] == Mimic(input);
    SmallParts();
    var digest := TextMessage(System, rendered);
    assert digest.content[1..] == [] && ContentBytes(digest.content) == Utf8Len(rendered);
    assert [ASKED, digest, ANSWER] == [ASKED] + [digest] + [ANSWER];
    TotalBytesConcat([ASKED] + [digest], [ANSWER]);
    TotalBytesConcat([ASKED], [digest]);
    assert [ASKED][1..] == [] && [digest][1..] == [] && [ANSWER][1..] == [];
  }

  /** For every limit and every smart digest with room under it there are histories whose candidate
      loses the pairing: an earlier turn is dropped, no digest fits beside a reply that opens like
      one and calls a tool with a large input, and the smart digest fits in its place. The result
      that answered the reply is left without its call. */
  lemma {:induction false} MimicryLosesPairing(input: Json, limit: nat, rendered: string)
    requires Oversized(input, limit) && (Utf8Len(rendered) + 3) / 4 <= limit
    ensures ExactlyPaired(Mimicry(input)) && !Fits(Mimicry(input), limit)
    ensures !ExactlyPaired(Candidate(Mimicry(input), limit, Some(rendered)).messages)
  {
    hide Candidate, CompactPlan, Fits, CutOf, ContextOf, Oversized, Mimicry, Mimic, UseIds;
    MimicryPlan(input, limit);
    SwappedFits(input, limit, rendered);
    MimicryIsPaired(input);
    MimicryIsTooLarge(input, limit);
    assert LastTurn(input)[1 := TextMessage(System, rendered)] == [ASKED, TextMessage(System, rendered), ANSWER];
    CandidateKeepsPairingExactlyWhen(Mimicry(input), limit, Some(rendered));
  }

  lemma {:induction false} MimicCalls(input: Json)
    ensures UseIds(Mimic(input).content) == ["1"]
  {
    var call := ToolUse("1", "ls", input);
    assert Mimic(input).content[1..] == [call];
    assert [call][1..] == [];
    assert UseIds([call]) == ["1"] + UseIds([call][1..]);
  }

  lemma {:induction false} MimicrySteps(input: Json)
    ensures Advance(true, [], EARLIER) == Advance(true, [], ASKED) == Some([])
    ensures Advance(true, [], Mimic(input)) == Some(["1"]) && Advance(true, ["1"], ANSWER) == Some([])
  {
    hide UseIds;
    TextIsToolFree(User, "go");
    TextIsToolFree(User, "do");
    MimicAnswersNothing(input);
    MimicCalls(input);
    assert ANSWER.content[0].ToolResult?;
    assert ["1"][1..] == [];
  }

  lemma {:induction false} MimicryIsPaired(input: Json)
    ensures ExactlyPaired(Mimicry(input)) && UseIds(Mimic(input).content) == ["1"]
  {
    hide Advance, UseIds, Mimic;
    MimicCalls(input);
    MimicrySteps(input);
    var ms, turn, m := Mimicry(input), LastTurn(input), Mimic(input);
    assert ms[1..] == turn && turn[1..] == [m, ANSWER];
    assert [m, ANSWER][1..] == [ANSWER] && [ANSWER][1..] == [];
    assert Scan(true, ["1"], [ANSWER]) == Scan(true, [], []);
    assert Scan(true, [], [m, ANSWER]) == Scan(true, ["1"], [ANSWER]) == Some([]);
    assert turn[0] == ASKED;
    assert Scan(true, [], turn) == Scan(true, [], [m, ANSWER]);
    assert ms[0] == EARLIER;
    assert Scan(true, [], ms) == Scan(true, [], turn);
  }

  /** A smart digest is adopted only within budget; otherwise the plan stays in force. */
  lemma {:induction false} SmartNeverWorsens(ms: seq<Message>, limit: nat, smart: Option<string>)
    ensures var c, p := Candidate(ms, limit, smart), CompactPlan(ms, limit);
            && c.(messages := p.messages) == p
            && (c.messages != p.messages ==>
                  && Fits(c.messages, limit)
                  && |c.messages| == |p.messages|
                  && exists k :: && 0 <= k < |p.messages| && IsSummaryMessage(p.messages[k])
                                 && c.messages == p.messages[k := c.messages[k]])
  {
    var c, p := Candidate(ms, limit, smart), CompactPlan(ms, limit);
    if c.messages != p.messages {
      var k := SummaryIndex(p.messages).value;
      assert c.messages == p.messages[k := c.messages[k]];
    }
  }
}
