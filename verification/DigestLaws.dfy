/** What the digest of trimmed history tells: which exchanges it lists and in what words, what it carries over
    from earlier digests, and what is lost to its caps. */
module DigestLaws {
  import opened Wrappers
  import opened Messages
  import opened Summary
  import opened Compaction
  import opened CompactionLaws
  import T = Text
  import TextLines
  import Markup

  // ---------------------------------------------------------------------------
  // One exchange in words

  /** `text` is the first text of a message. */
  ghost predicate TextOpens(content: seq<Block>, text: string) {
    exists b :: 0 <= b < |content| && content[b] == Text(text) && forall k :: 0 <= k < b ==> !content[k].Text?
  }

  /** Message `i` is the first one the user wrote. */
  predicate IsFirstUser(x: Exchange, i: nat) {
    i < |x| && x[i].role == User && forall k :: 0 <= k < i ==> x[k].role != User
  }

  /** What the user asked in an exchange. */
  ghost predicate Asks(x: Exchange, text: string) {
    exists i :: 0 <= i < |x| && IsFirstUser(x, i) && TextOpens(x[i].content, text)
  }

  function CallNames(content: seq<Block>): seq<string> {
    if content == [] then []
    else
      var last := content[|content| - 1];
      CallNames(content[..|content| - 1]) + if last.ToolUse? then [last.name] else []
  }

  /** The tools an exchange called, in order. */
  function Called(x: Exchange): seq<string> {
    if x == [] then [] else Called(x[..|x| - 1]) + CallNames(x[|x| - 1].content)
  }

  /** At most `max` characters of a text, marked when something is missing. */
  ghost predicate Shortens(text: string, max: nat, s: string) {
    if |text| <= max then s == text else s == text[..max] + "..."
  }

  /** The entry an exchange deserves: what was asked, the tools used, both, or none. */
  ghost predicate Describes(x: Exchange, max: nat, e: Option<string>) {
    var tools := Called(x);
    if exists text :: Asks(x, text) then
      exists text, short :: Asks(x, text) && Shortens(text, max, short) &&
        e == Some("user asked: " + short + if tools == [] then "" else "; tools used: " + TextLines.Glued(tools, ", "))
    else e == if tools == [] then None else Some("tools used: " + TextLines.Glued(tools, ", "))
  }

  lemma {:induction false} FirstTextOpens(content: seq<Block>)
    ensures FirstText(content).Some? ==> TextOpens(content, FirstText(content).value)
    ensures FirstText(content).None? ==> forall b :: 0 <= b < |content| ==> !content[b].Text?
  {
    if content != [] {
      var rest := content[1..];
      FirstTextOpens(rest);
      if content[0].Text? {
        assert content[0] == Text(content[0].text);
      } else if FirstText(rest).Some? {
        var b :| 0 <= b < |rest| && rest[b] == Text(FirstText(rest).value) && forall k :: 0 <= k < b ==> !rest[k].Text?;
        assert content[b + 1] == rest[b];
        forall k | 0 <= k < b + 1 ensures !content[k].Text? {
          assert k > 0 ==> content[k] == rest[k - 1];
        }
      } else {
        forall b | 0 <= b < |content| ensures !content[b].Text? {
          assert b > 0 ==> content[b] == rest[b - 1];
        }
      }
    }
  }

  lemma {:induction false} TextOpensOnce(content: seq<Block>, a: string, b: string)
    requires TextOpens(content, a) && TextOpens(content, b)
    ensures a == b
  {
    var i :| 0 <= i < |content| && content[i] == Text(a) && forall k :: 0 <= k < i ==> !content[k].Text?;
    var j :| 0 <= j < |content| && content[j] == Text(b) && forall k :: 0 <= k < j ==> !content[k].Text?;
  }

  lemma {:induction false} UserTextAsks(x: Exchange)
    ensures UserText(x).Some? ==> Asks(x, UserText(x).value)
    ensures UserText(x).None? ==> forall text :: !Asks(x, text)
  {
    if x != [] {
      var rest := x[1..];
      if x[0].role == User {
        assert IsFirstUser(x, 0);
        FirstTextOpens(x[0].content);
        forall text | Asks(x, text) ensures FirstText(x[0].content).Some? {
          var i :| 0 <= i < |x| && IsFirstUser(x, i) && TextOpens(x[i].content, text);
          assert i == 0;
        }
      } else {
        UserTextAsks(rest);
        if UserText(rest).Some? {
          var i :| 0 <= i < |rest| && IsFirstUser(rest, i) && TextOpens(rest[i].content, UserText(rest).value);
          FirstUserShifts(x, i);
        }
        forall text | Asks(x, text) ensures Asks(rest, text) {
          var i :| 0 <= i < |x| && IsFirstUser(x, i) && TextOpens(x[i].content, text);
          FirstUserShifts(x, i - 1);
        }
      }
    }
  }

  lemma {:induction false} FirstUserShifts(x: Exchange, i: nat)
    requires x != [] && x[0].role != User && i + 1 < |x|
    ensures IsFirstUser(x[1..], i) <==> IsFirstUser(x, i + 1)
    ensures x[1..][i] == x[i + 1]
  {
    if IsFirstUser(x[1..], i) {
      forall k | 0 <= k < i + 1 ensures x[k].role != User {
        assert k > 0 ==> x[k] == x[1..][k - 1];
      }
    }
  }

  lemma {:induction false} BlockNamesStep(content: seq<Block>)
    ensures BlockToolNames(content) ==
            if content == [] then []
            else (if content[0].ToolUse? then [content[0].name] else []) + BlockToolNames(content[1..])
  {
  }

  lemma {:induction false} BlockNamesSnoc(content: seq<Block>, b: Block)
    ensures BlockToolNames(content + [b]) == BlockToolNames(content) + if b.ToolUse? then [b.name] else []
  {
    hide BlockToolNames;
    var all := content + [b];
    BlockNamesStep(content);
    BlockNamesStep(all);
    if content == [] {
      assert all == [b] && [b][1..] == [];
      BlockNamesStep([]);
    } else {
      assert all[0] == content[0] && all[1..] == content[1..] + [b];
      BlockNamesSnoc(content[1..], b);
    }
  }

  lemma {:induction false} BlockNamesAre(content: seq<Block>)
    ensures BlockToolNames(content) == CallNames(content)
  {
    if content != [] {
      BlockNamesAre(content[..|content| - 1]);
      BlockNamesSnoc(content[..|content| - 1], content[|content| - 1]);
      assert content == content[..|content| - 1] + [content[|content| - 1]];
    }
  }

  lemma {:induction false} ToolNamesSnoc(x: Exchange, m: Message)
    ensures ToolNames(x + [m]) == ToolNames(x) + BlockToolNames(m.content)
  {
    hide BlockToolNames;
    if x == [] {
      assert x + [m] == [m] && [m][1..] == [];
    } else {
      assert (x + [m])[1..] == x[1..] + [m];
      ToolNamesSnoc(x[1..], m);
    }
  }

  lemma {:induction false} ToolNamesAre(x: Exchange)
    ensures ToolNames(x) == Called(x)
  {
    hide BlockToolNames, CallNames;
    if x != [] {
      ToolNamesAre(x[..|x| - 1]);
      ToolNamesSnoc(x[..|x| - 1], x[|x| - 1]);
      BlockNamesAre(x[|x| - 1].content);
      assert x == x[..|x| - 1] + [x[|x| - 1]];
    }
  }

  /** An exchange is summed up by what the user asked first, shortened, and the tools it called, in order. */
  lemma {:induction false} SummaryDescribes(x: Exchange, max: nat)
    ensures Describes(x, max, SummarizeExchange(x, max))
  {
    hide UserText, ToolNames, Called, T.Join, TextLines.Glued, Asks;
    UserTextAsks(x);
    ToolNamesAre(x);
    TextLines.JoinGlues(Called(x), ", ");
    if UserText(x).Some? {
      var short := T.Truncate(UserText(x).value, max);
      assert Shortens(UserText(x).value, max, short);
      var asked, tools := "user asked: " + short, Called(x);
      assert asked + "" == asked;
      assert asked + "; tools used: " + TextLines.Glued(tools, ", ") == asked + ("; tools used: " + TextLines.Glued(tools, ", "));
    }
  }

  lemma {:induction false} AsksOnce(x: Exchange, a: string, b: string)
    requires Asks(x, a) && Asks(x, b)
    ensures a == b
  {
    hide TextOpens;
    var i :| 0 <= i < |x| && IsFirstUser(x, i) && TextOpens(x[i].content, a);
    var j :| 0 <= j < |x| && IsFirstUser(x, j) && TextOpens(x[j].content, b);
    assert i == j;
    TextOpensOnce(x[i].content, a, b);
  }

  /** There is only one such entry. */
  lemma {:induction false} DescribesOnce(x: Exchange, max: nat, a: Option<string>, b: Option<string>)
    requires Describes(x, max, a) && Describes(x, max, b)
    ensures a == b
  {
    hide Asks, Called, TextLines.Glued;
    if exists text :: Asks(x, text) {
      forall s, t | Asks(x, s) && Asks(x, t) ensures s == t {
        AsksOnce(x, s, t);
      }
    }
  }

  // ---------------------------------------------------------------------------
  // Which exchanges are told

  /** `at` are the positions from `from` on whose exchanges deserve an entry, ascending and each once. */
  ghost predicate TellsAt(at: seq<nat>, dropped: seq<Exchange>, from: nat, max: nat) {
    && (forall i, j :: 0 <= i < j < |at| ==> at[i] < at[j])
    && (forall i :: 0 <= i < |at| ==> from <= at[i] < |dropped| && !Describes(dropped[at[i]], max, None))
    && (forall k :: from <= k < |dropped| && k !in at ==> Describes(dropped[k], max, None))
  }

  /** `told` are their entries. */
  ghost predicate Tells(told: seq<string>, at: seq<nat>, dropped: seq<Exchange>, max: nat) {
    && |told| == |at|
    && forall i :: 0 <= i < |at| ==> at[i] < |dropped| && Describes(dropped[at[i]], max, Some(told[i]))
  }

  /** The last `n` parts, or all when there are fewer. */
  ghost predicate IsLatest(s: seq<string>, n: nat, all: seq<string>) {
    |s| == (if |all| <= n then |all| else n) && s == all[|all| - |s|..]
  }

  /** A digest of at most `listed` exchanges in at most `max` characters each: what earlier digests carried, then
      the entries of the latest dropped exchanges; of all that, only the oldest entries are lost to the cap. */
  ghost predicate IsDigest(
      entries: seq<string>, carried: seq<string>, dropped: seq<Exchange>, listed: nat, max: nat,
      at: seq<nat>, told: seq<string>)
  {
    && TellsAt(at, dropped, if |dropped| > listed then |dropped| - listed else 0, max)
    && Tells(told, at, dropped, max)
    && IsLatest(entries, 8, carried + told)
  }

  /** The positions of the exchanges that deserve an entry, as the entries are collected. */
  ghost function EntryPositions(dropped: seq<Exchange>, from: nat, max: nat): seq<nat>
    decreases |dropped| - from
  {
    if from >= |dropped| then []
    else (if SummarizeExchange(dropped[from], max).Some? then [from] else []) + EntryPositions(dropped, from + 1, max)
  }

  lemma {:induction false} TellsMore(at: seq<nat>, told: seq<string>, dropped: seq<Exchange>, from: nat, max: nat, e: string)
    requires from < |dropped| && TellsAt(at, dropped, from + 1, max) && Tells(told, at, dropped, max)
    requires Describes(dropped[from], max, Some(e)) && !Describes(dropped[from], max, None)
    ensures TellsAt([from] + at, dropped, from, max) && Tells([e] + told, [from] + at, dropped, max)
  {
    hide Describes;
    PositionsGrow(at, dropped, from, max);
    var all, texts := [from] + at, [e] + told;
    forall i | 0 <= i < |all| ensures all[i] < |dropped| && Describes(dropped[all[i]], max, Some(texts[i])) {
      if i > 0 {
        assert all[i] == at[i - 1] && texts[i] == told[i - 1];
      }
    }
  }

  lemma {:induction false} PositionsGrow(at: seq<nat>, dropped: seq<Exchange>, from: nat, max: nat)
    requires from < |dropped| && TellsAt(at, dropped, from + 1, max) && !Describes(dropped[from], max, None)
    ensures TellsAt([from] + at, dropped, from, max)
  {
    hide Describes;
    var all := [from] + at;
    forall i, j | 0 <= i < j < |all| ensures all[i] < all[j] {
      assert all[j] == at[j - 1];
      assert i > 0 ==> all[i] == at[i - 1];
    }
    forall i | 0 <= i < |all| ensures from <= all[i] < |dropped| && !Describes(dropped[all[i]], max, None) {
      assert i > 0 ==> all[i] == at[i - 1];
    }
    forall k | from <= k < |dropped| && k !in all ensures Describes(dropped[k], max, None) {
      ConsHas(from, at, k);
    }
  }

  lemma {:induction false} ConsHas(x: nat, s: seq<nat>, k: nat)
    ensures k in [x] + s <==> k == x || k in s
  {
  }

  lemma {:induction false} TellsNoMore(at: seq<nat>, dropped: seq<Exchange>, from: nat, max: nat)
    requires from < |dropped| && TellsAt(at, dropped, from + 1, max) && Describes(dropped[from], max, None)
    ensures TellsAt(at, dropped, from, max)
  {
    hide Describes;
  }

  lemma {:induction false} EntriesTell(dropped: seq<Exchange>, from: nat, max: nat)
    requires from <= |dropped|
    ensures TellsAt(EntryPositions(dropped, from, max), dropped, from, max)
    ensures Tells(Entries(dropped[from..], max), EntryPositions(dropped, from, max), dropped, max)
    decreases |dropped| - from
  {
    if from < |dropped| {
      hide SummarizeExchange, Describes, TellsAt, Tells;
      var e := SummarizeExchange(dropped[from], max);
      var at, told := EntryPositions(dropped, from + 1, max), Entries(dropped[from + 1..], max);
      EntriesTell(dropped, from + 1, max);
      SummaryDescribes(dropped[from], max);
      assert dropped[from..][1..] == dropped[from + 1..];
      if e.Some? {
        if Describes(dropped[from], max, None) {
          DescribesOnce(dropped[from], max, e, None);
        }
        TellsMore(at, told, dropped, from, max, e.value);
      } else {
        TellsNoMore(at, dropped, from, max);
        assert [] + told == told && [] + at == at;
      }
    }
  }

  lemma {:induction false} FewEntries(xs: seq<Exchange>, max: nat)
    ensures |Entries(xs, max)| <= |xs|
  {
    hide SummarizeExchange;
    if xs != [] {
      FewEntries(xs[1..], max);
    }
  }

  /** Every digest the compaction builds is of that form. */
  lemma {:induction false} DigestTells(carried: seq<string>, dropped: seq<Exchange>, listed: nat, max: nat)
    returns (at: seq<nat>, told: seq<string>)
    requires listed <= 4
    ensures Digest(carried, dropped, listed, max).None? <==> carried == [] && dropped == []
    ensures Digest(carried, dropped, listed, max).Some? ==>
              IsDigest(Digest(carried, dropped, listed, max).value, carried, dropped, listed, max, at, told)
  {
    var from := if |dropped| > listed then |dropped| - listed else 0;
    at, told := EntryPositions(dropped, from, max), Entries(dropped[from..], max);
    EntriesTell(dropped, from, max);
    FewEntries(dropped[from..], max);
    assert dropped[0..] == dropped;
    hide Entries, TellsAt, Tells;
    if dropped == [] {
      NoEntries(max);
    }
    FoldKeepsLatest(carried, told, dropped != []);
  }

  lemma {:induction false} FoldKeepsLatest(carried: seq<string>, told: seq<string>, any: bool)
    requires |told| <= 4 && (!any ==> told == [])
    ensures var d := FoldCarried(carried, if any then Some(told) else None);
            && (d.None? <==> carried == [] && !any)
            && (d.Some? ==> IsLatest(d.value, 8, carried + told))
  {
    var all := carried + told;
    assert all[0..] == all;
    assert carried == [] ==> all == told;
    assert carried + [] == carried;
  }

  lemma {:induction false} NoEntries(max: nat)
    ensures Entries([], max) == []
  {
  }

  /** The sizes a digest is tried in, largest first. */
  const SIZES: seq<(nat, nat)> := [(4, 120), (4, 60), (2, 60), (1, 60), (1, 30)]

  predicate FitsWith(ctx: Context, c: Cut, i: nat)
    requires i < |SIZES|
  {
    Fits(ctx.system + Injected(Digest(ctx.carried, c.dropped, SIZES[i].0, SIZES[i].1)) + Flatten(c.kept), ctx.limit)
  }

  /** Exchanges are dropped, oldest first, only as long as more than one is left and the rest does not fit with the full
      digest of what was dropped. */
  lemma {:induction false} DropsAsNeeded(ctx: Context, exchanges: seq<Exchange>) returns (i: nat)
    ensures i <= |exchanges| && DropOldest(ctx, exchanges) == Cut(exchanges[..i], exchanges[i..])
    ensures |exchanges| - i > 1 ==> FitsWith(ctx, Cut(exchanges[..i], exchanges[i..]), 0)
    ensures forall j :: 0 <= j < i ==> |exchanges| - j > 1 && !FitsWith(ctx, Cut(exchanges[..j], exchanges[j..]), 0)
  {
    i := DropPoint(ctx, exchanges, 0);
    DropPointIsLeast(ctx, exchanges, 0);
    hide Digest, Flatten, Fits, DropPoint;
    forall j | 0 <= j <= i ensures FitsAfterDropping(ctx, exchanges, j) <==> FitsWith(ctx, Cut(exchanges[..j], exchanges[j..]), 0) {
    }
  }

  /** The only exchange kept may be split before position `k`: there the assistant speaks right after a tool or the
      user, and what is left fits with the full digest of what was dropped. */
  predicate MaySplit(ctx: Context, c: Cut, k: nat) {
    && |c.kept| == 1
    && var x := c.kept[0];
       && 2 <= k < |x| && x[0].role == User && x[k].role == Assistant && x[k - 1].role in {Tool, User}
       && Fits(ctx.system + Injected(Digest(ctx.carried, c.dropped, 4, 120)) + ([x[0]] + x[k..]), ctx.limit)
  }

  /** An exchange is split only when it is the last and does not fit as it is, and then at the first position where it
      may be: its opening message and everything from there on are kept, what lies between is dropped. */
  lemma {:induction false} SplitsAsNeeded(ctx: Context, c: Cut) returns (k: nat)
    ensures SplitTurn(ctx, c) != c ==>
              && MaySplit(ctx, c, k) && !FitsWith(ctx, c, 0) && (forall j :: 0 <= j < k ==> !MaySplit(ctx, c, j))
              && SplitTurn(ctx, c) == Cut(c.dropped + [c.kept[0][1..k]], [[c.kept[0][0]] + c.kept[0][k..]])
    ensures SplitTurn(ctx, c) == c ==> |c.kept| != 1 || FitsWith(ctx, c, 0) || forall j: nat :: !MaySplit(ctx, c, j)
  {
    k := 0;
    var summary := FullDigest(ctx.carried, c.dropped);
    if |c.kept| == 1 {
      var x := c.kept[0];
      SplitKeepsLongest(ctx, summary, x, 2);
      forall j: nat ensures MaySplit(ctx, c, j) <==> x != [] && x[0].role == User && FittingCut(ctx, summary, x, j) {
        MaySplitFits(ctx, c, j);
      }
      FullFits(ctx, c);
      var cut := SplitPoint(ctx, summary, x);
      if cut.Some? {
        k := cut.value;
        assert |SplitTurn(ctx, c).dropped| > |c.dropped| || SplitTurn(ctx, c) == c;
      }
      assert forall j: nat :: FittingCut(ctx, summary, x, j) ==> 2 <= j < |x|;
      hide MaySplit, FittingCut, FitsWith, Build, FullDigest, FirstFittingCut;
    }
  }

  lemma {:induction false} FullFits(ctx: Context, c: Cut)
    ensures FitsWith(ctx, c, 0) <==> Fits(Build(ctx.system, FullDigest(ctx.carried, c.dropped), c.kept), ctx.limit)
  {
    hide Digest, Fits, Flatten;
  }

  lemma {:induction false} MaySplitFits(ctx: Context, c: Cut, j: nat)
    requires |c.kept| == 1
    ensures var x := c.kept[0];
            MaySplit(ctx, c, j) <==> x != [] && x[0].role == User && FittingCut(ctx, FullDigest(ctx.carried, c.dropped), x, j)
  {
    hide Digest, Fits, Flatten;
    var x := c.kept[0];
    if LegalCut(x, j) {
      SuffixAlone(ctx, FullDigest(ctx.carried, c.dropped), x, j);
    }
    hide Build, Suffix;
  }

  lemma {:induction false} SuffixAlone(ctx: Context, summary: Option<seq<string>>, x: Exchange, j: nat)
    requires LegalCut(x, j)
    ensures Build(ctx.system, summary, [Suffix(x, j)]) == ctx.system + Injected(summary) + ([x[0]] + x[j..])
  {
    assert [Suffix(x, j)][1..] == [];
    assert Flatten([]) == [];
  }

  /** The digest chosen is the largest that fits; without anything dropped the full one is sent regardless, and
      none is when none fits. */
  lemma {:induction false} ChosenIsLargest(ctx: Context, c: Cut) returns (i: nat)
    ensures ChosenDigest(ctx, c).Some? ==>
              && i < |SIZES| && ChosenDigest(ctx, c) == Digest(ctx.carried, c.dropped, SIZES[i].0, SIZES[i].1)
              && (c.dropped != [] ==> FitsWith(ctx, c, i) && forall j :: 0 <= j < i ==> !FitsWith(ctx, c, j))
              && (c.dropped == [] ==> i == 0)
    ensures ChosenDigest(ctx, c).None? && c.dropped != [] ==> forall j :: 0 <= j < |SIZES| ==> !FitsWith(ctx, c, j)
    ensures ChosenDigest(ctx, c).None? && c.dropped == [] ==> ctx.carried == []
  {
    hide Fits, Flatten, Digest;
    i := 0;
    if c.dropped == [] {
      var at, told := DigestTells(ctx.carried, c.dropped, 4, 120);
    } else if !FitsWith(ctx, c, 0) {
      forall k | 0 <= k < 4 ensures RETRIES[k] == SIZES[k + 1] {
      }
      i := 1;
      assert RETRIES[0..] == RETRIES;
      while i < 5 && !FitsWith(ctx, c, i)
        invariant 1 <= i <= 5
        invariant ChosenDigest(ctx, c) == ShrinkDigest(ctx, c, RETRIES[i - 1..])
        invariant forall j :: 0 <= j < i ==> !FitsWith(ctx, c, j)
      {
        assert RETRIES[i - 1..][0] == SIZES[i] && RETRIES[i - 1..][1..] == RETRIES[i..];
        i := i + 1;
      }
      if i < 5 {
        assert RETRIES[i - 1..][0] == SIZES[i];
        SomethingToTell(ctx, c, SIZES[i]);
      }
    } else {
      SomethingToTell(ctx, c, SIZES[0]);
    }
  }

  lemma {:induction false} SomethingToTell(ctx: Context, c: Cut, size: (nat, nat))
    requires c.dropped != [] && size in SIZES
    ensures Digest(ctx.carried, c.dropped, size.0, size.1).Some?
  {
    var at, told := DigestTells(ctx.carried, c.dropped, size.0, size.1);
  }

  // ---------------------------------------------------------------------------
  // The digest a compaction injects

  /** The text of a digest: the title and a bullet for each entry. */
  function DigestText(entries: seq<string>): string {
    if entries == [] then "Conversation summary for trimmed history:"
    else DigestText(entries[..|entries| - 1]) + "\n- " + entries[|entries| - 1]
  }

  lemma {:induction false} BulletsSnoc(entries: seq<string>, e: string)
    ensures Bullets(entries + [e]) == Bullets(entries) + "\n- " + e
  {
    if entries == [] {
      assert entries + [e] == [e] && [e][1..] == [];
    } else {
      assert (entries + [e])[1..] == entries[1..] + [e];
      BulletsSnoc(entries[1..], e);
    }
  }

  lemma {:induction false} RenderIsText(entries: seq<string>)
    ensures Render(entries) == DigestText(entries)
  {
    hide Bullets;
    if entries == [] {
      NoBullets();
      assert TITLE + "" == TITLE;
    } else {
      var init, e := entries[..|entries| - 1], entries[|entries| - 1];
      RenderIsText(init);
      BulletsSnoc(init, e);
      assert entries == init + [e];
      assert TITLE + (Bullets(init) + "\n- " + e) == TITLE + Bullets(init) + "\n- " + e;
    }
  }

  lemma {:induction false} NoBullets()
    ensures Bullets([]) == ""
  {
  }

  /** Over every history that has to be compacted: the message behind the retained system messages is the digest
      of what was dropped, in the largest size that fits, or there is none because nothing was dropped or carried
      or because none fits. */
  lemma {:induction false} PlanTells(ms: seq<Message>, limit: nat)
    returns (size: Option<nat>, entries: seq<string>, at: seq<nat>, told: seq<string>)
    requires !Fits(ms, limit)
    ensures var p, k := CompactPlan(ms, limit), |Retained(ms[..SystemCount(ms)])|;
            && (size.Some? ==>
                  && size.value < |SIZES| && k < |p.messages|
                  && p.messages[k] == TextMessage(System, DigestText(entries))
                  && IsDigest(entries, p.carried, p.dropped, SIZES[size.value].0, SIZES[size.value].1, at, told))
            && (size.None? ==>
                  && |p.messages| == p.keptMessages
                  && (p.dropped == [] ==> p.carried == []))
    ensures var ctx, c := ContextOf(ms, limit), CutOf(ms, limit);
            && (size.Some? && c.dropped != [] ==>
                  FitsWith(ctx, c, size.value) && forall j :: 0 <= j < size.value ==> !FitsWith(ctx, c, j))
            && (size.Some? && c.dropped == [] ==> size.value == 0)
            && (size.None? && c.dropped != [] ==> forall j :: 0 <= j < |SIZES| ==> !FitsWith(ctx, c, j))
  {
    hide Fits, CutOf, ChosenDigest, ClipPoint, Digest, IsDigest, FitsWith, Retained, Flatten, SystemCount, TotalLong;
    var ctx, c := ContextOf(ms, limit), CutOf(ms, limit);
    var i := ChosenIsLargest(ctx, c);
    var d := ChosenDigest(ctx, c);
    var out := Projection(ctx, c);
    size, entries, at, told := None, [], [], [];
    if d.Some? {
      size, entries := Some(i), d.value;
      assert SIZES[i].0 <= 4;
      at, told := DigestTells(ctx.carried, c.dropped, SIZES[i].0, SIZES[i].1);
      RenderIsText(entries);
      assert out[|ctx.system|] == SummaryMessage(entries);
      PlainTextUnclipped(System, Render(entries));
    }
  }

  /** The last entry of a digest is that of the newest dropped exchange that deserves one, if one is told. */
  lemma {:induction false} NewestIsLast(
      entries: seq<string>, carried: seq<string>, dropped: seq<Exchange>, listed: nat, max: nat,
      at: seq<nat>, told: seq<string>, k: nat)
    requires IsDigest(entries, carried, dropped, listed, max, at, told)
    requires k < |dropped| && !Describes(dropped[k], max, None) && k + listed >= |dropped|
    requires forall j :: k < j < |dropped| ==> Describes(dropped[j], max, None)
    ensures entries != [] && Describes(dropped[k], max, Some(entries[|entries| - 1]))
  {
    hide Describes;
    assert k in at;
    LastIsLargest(at, k);
    var all := carried + told;
    assert all[|all| - 1] == told[|told| - 1];
  }

  lemma {:induction false} LastIsLargest(at: seq<nat>, k: nat)
    requires k in at && forall i, j :: 0 <= i < j < |at| ==> at[i] < at[j]
    ensures at[|at| - 1] >= k
  {
  }

  // ---------------------------------------------------------------------------
  // What the next compaction reads back

  /** The entry stays on its line, and is not taken for a bullet. */
  ghost predicate ReadsBack(entries: seq<string>) {
    forall i :: 0 <= i < |entries| ==>
      && '\n' !in entries[i] && !("- " <= entries[i])
      && (i < |entries| - 1 && entries[i] != "" ==> entries[i][|entries[i]| - 1] != '\r')
  }

  /** What is read from the line of entry `i`. */
  function ReadEntry(entries: seq<string>, i: nat): string
    requires i < |entries|
  {
    StripBullets(if i < |entries| - 1 then T.StripCr("- " + entries[i]) else "- " + entries[i])
  }

  ghost predicate SingleLines(entries: seq<string>) {
    forall i :: 0 <= i < |entries| ==> '\n' !in entries[i]
  }

  lemma {:induction false} LinesOfBullets(head: string, entries: seq<string>)
    requires head != "" && '\n' !in head
    ensures entries == [] ==> T.Lines(head + Bullets(entries)) == [head]
    ensures entries != [] ==>
              T.Lines(head + Bullets(entries)) == [T.StripCr(head)] + T.Lines("- " + entries[0] + Bullets(entries[1..]))
  {
    var text := head + Bullets(entries);
    if entries == [] {
      assert text == head;
      assert T.IndexOf(head, '\n') == |head|;
      TextLines.LinesStep(head, |head|);
    } else {
      var rest := "- " + entries[0] + Bullets(entries[1..]);
      assert text == head + "\n" + rest;
      Markup.IndexOfFirst(head, rest);
      TextLines.LinesStep(text, |head|);
      assert text[..|head|] == head && text[|head| + 1..] == rest;
    }
  }

  lemma {:induction false} BulletLines(entries: seq<string>)
    requires entries != [] && SingleLines(entries)
    ensures var lines := T.Lines("- " + entries[0] + Bullets(entries[1..]));
            && |lines| == |entries|
            && forall i :: 0 <= i < |entries| ==> StripBullets(lines[i]) == ReadEntry(entries, i)
  {
    hide T.Lines, StripBullets, T.StripCr;
    var head, rest := "- " + entries[0], entries[1..];
    LinesOfBullets(head, rest);
    if rest != [] {
      assert SingleLines(rest);
      BulletLines(rest);
      var lines := T.Lines(head + Bullets(rest));
      forall i | 0 <= i < |entries| ensures StripBullets(lines[i]) == ReadEntry(entries, i) {
        if i > 0 {
          assert ReadEntry(entries, i) == ReadEntry(rest, i - 1);
        }
      }
    }
  }

  lemma {:induction false} StripAllAre(lines: seq<string>)
    ensures |StripAllBullets(lines)| == |lines|
    ensures forall i :: 0 <= i < |lines| ==> StripAllBullets(lines)[i] == StripBullets(lines[i])
  {
    if lines != [] {
      StripAllAre(lines[1..]);
    }
  }

  lemma {:induction false} StripShortens(s: string)
    ensures |StripBullets(s)| <= |s| && (StripBullets(s) == s <==> !("- " <= s))
    ensures forall c :: c in StripBullets(s) ==> c in s
  {
    if "- " <= s {
      StripShortens(s[2..]);
    }
  }

  lemma {:induction false} StripsBullet(e: string)
    ensures StripBullets("- " + e) == StripBullets(e)
  {
    assert ("- " + e)[2..] == e;
  }

  lemma {:induction false} EntryReadsExactlyWhen(entries: seq<string>, i: nat)
    requires i < |entries|
    ensures ReadEntry(entries, i) == entries[i] <==>
            && !("- " <= entries[i])
            && (i < |entries| - 1 && entries[i] != "" ==> entries[i][|entries[i]| - 1] != '\r')
  {
    var e := entries[i];
    StripsBullet(e);
    StripShortens(e);
    if i < |entries| - 1 && e != "" && e[|e| - 1] == '\r' {
      var cut := e[..|e| - 1];
      assert ("- " + e)[..|e| + 1] == "- " + cut;
      StripsBullet(cut);
      StripShortens(cut);
    }
  }

  lemma {:induction false} CarriedAre(entries: seq<string>)
    ensures CarriedBy(TextMessage(System, DigestText(entries))) == StripAllBullets(T.Lines(TITLE + Bullets(entries))[1..])
    ensures T.Lines(TITLE + Bullets(entries)) != []
  {
    hide T.Lines, StripBullets, StripAllBullets, Bullets, DigestText, IsSummaryMessage, FirstText;
    RenderIsText(entries);
    TitledIsSummary(Bullets(entries));
    LinesOfBullets(TITLE, entries);
  }

  lemma {:induction false} TitledIsSummary(rest: string)
    ensures var m := TextMessage(System, TITLE + rest);
            IsSummaryMessage(m) && FirstText(m.content) == Some(TITLE + rest)
  {
    var text := TITLE + rest;
    assert TITLE <= text;
    assert TextMessage(System, text).content[0] == Text(text);
    hide *;
    OpensWithText(text);
  }

  lemma {:induction false} OpensWithText(text: string)
    ensures FirstText(TextMessage(System, text).content) == Some(text)
    ensures IsSummaryMessage(TextMessage(System, text)) <==> TITLE <= text
  {
  }

  lemma {:induction false} SingleLinesCarry(entries: seq<string>)
    requires SingleLines(entries)
    ensures var carried := CarriedBy(TextMessage(System, DigestText(entries)));
            |carried| == |entries| && forall i :: 0 <= i < |entries| ==> carried[i] == ReadEntry(entries, i)
  {
    hide T.Lines, StripBullets, StripAllBullets, Bullets, ReadEntry, DigestText, CarriedBy;
    CarriedAre(entries);
    LinesOfBullets(TITLE, entries);
    StripAllAre(T.Lines(TITLE + Bullets(entries))[1..]);
    if entries != [] {
      BulletLines(entries);
    }
  }

  lemma {:induction false} CarriedAreSingle(entries: seq<string>)
    ensures SingleLines(CarriedBy(TextMessage(System, DigestText(entries))))
  {
    hide T.Lines, StripBullets, StripAllBullets, Bullets, DigestText, CarriedBy;
    CarriedAre(entries);
    var lines := T.Lines(TITLE + Bullets(entries));
    Markup.LinesAreSingle(TITLE + Bullets(entries));
    StripAllAre(lines[1..]);
    forall i | 0 <= i < |lines[1..]| ensures '\n' !in StripBullets(lines[1..][i]) {
      StripShortens(lines[1..][i]);
    }
  }

  /** A digest is carried forward into the next compaction entry by entry, word for word, exactly when no entry
      holds a line break, begins like a bullet or ends, before another, in a carriage return. */
  lemma {:induction false} CarriedExactlyWhen(entries: seq<string>)
    ensures CarriedBy(TextMessage(System, DigestText(entries))) == entries <==> ReadsBack(entries)
  {
    hide ReadEntry, DigestText, CarriedBy;
    if SingleLines(entries) {
      SingleLinesCarry(entries);
      forall i | 0 <= i < |entries|
        ensures ReadEntry(entries, i) == entries[i] <==>
                !("- " <= entries[i]) && (i < |entries| - 1 && entries[i] != "" ==> entries[i][|entries[i]| - 1] != '\r')
      {
        EntryReadsExactlyWhen(entries, i);
      }
    } else {
      CarriedAreSingle(entries);
    }
  }
}
