/** What the size estimate counts, what clipping leaves, and what a plan reports. */
module EstimateLaws {
  import opened Wrappers
  import opened Messages
  import opened Summary
  import opened Compaction
  import opened CompactionLaws

  // ---------------------------------------------------------------------------
  // Sizes

  /** What of a block counts: texts as they are, a call by its name and input, a result by its output. */
  function Counted(b: Block): string {
    match b
    case Text(text) => text
    case Reasoning(text, _) => text
    case ToolUse(_, name, input) => name + input.text
    case ToolResult(_, output, _) => output
  }

  function AllCounted(content: seq<Block>): string {
    if content == [] then "" else AllCounted(content[..|content| - 1]) + Counted(content[|content| - 1])
  }

  function Everything(ms: seq<Message>): string {
    if ms == [] then "" else Everything(ms[..|ms| - 1]) + AllCounted(ms[|ms| - 1].content)
  }

  lemma {:induction false} BlockCounts(b: Block)
    ensures BlockBytes(b) == Utf8Len(Counted(b))
  {
    if b.ToolUse? {
      Utf8LenConcat(b.name, b.input.text);
    }
  }

  lemma {:induction false} ContentBytesSnoc(content: seq<Block>, b: Block)
    ensures ContentBytes(content + [b]) == ContentBytes(content) + BlockBytes(b)
  {
    if content == [] {
      assert content + [b] == [b] && [b][1..] == [];
    } else {
      assert (content + [b])[1..] == content[1..] + [b];
      ContentBytesSnoc(content[1..], b);
    }
  }

  lemma {:induction false} ContentCounts(content: seq<Block>)
    ensures ContentBytes(content) == Utf8Len(AllCounted(content))
  {
    hide BlockBytes, Counted;
    if content != [] {
      var init, last := content[..|content| - 1], content[|content| - 1];
      ContentCounts(init);
      assert content == init + [last];
      ContentBytesSnoc(init, last);
      BlockCounts(last);
      Utf8LenConcat(AllCounted(init), Counted(last));
    }
  }

  /** The estimate is a quarter of the bytes of everything said, called and answered, in UTF-8. */
  lemma {:induction false} EstimateCounts(ms: seq<Message>)
    ensures Tokens(ms) == Utf8Len(Everything(ms)) / 4
    ensures TotalBytes(ms) == Utf8Len(Everything(ms))
  {
    hide ContentBytes, AllCounted;
    if ms != [] {
      var init, last := ms[..|ms| - 1], ms[|ms| - 1];
      EstimateCounts(init);
      assert ms == init + [last];
      TotalBytesConcat(init, [last]);
      assert TotalBytes([last]) == ContentBytes(last.content) + TotalBytes([last][1..]);
      ContentCounts(last.content);
      Utf8LenConcat(Everything(init), AllCounted(last.content));
    }
  }

  /** A character takes one to four bytes: one up to U+7F, two up to U+7FF, three up to U+FFFF, four beyond. */
  lemma {:induction false} CharactersCount(c: char)
    ensures Utf8Len([c]) == if c as int <= 0x7F then 1 else if c as int <= 0x7FF then 2 else if c as int <= 0xFFFF then 3 else 4
  {
    assert [c][..0] == [];
  }

  // ---------------------------------------------------------------------------
  // Clipping

  /** A tool output of more than 240 characters keeps its first 240 and says that it was cut; a shorter one stays. */
  lemma {:induction false} ClipSays(s: string)
    ensures |s| <= 240 ==> ClipOutput(s) == s
    ensures |s| > 240 ==> ClipOutput(s) == s[..240] + "..." + "\n[output truncated during context compaction]"
  {
  }

  // ---------------------------------------------------------------------------
  // What a plan reports

  /** The long outputs of the first `n` messages. */
  ghost function LongAt(ms: seq<Message>, n: nat): set<(nat, nat)>
    requires n <= |ms|
  {
    set i, b | 0 <= i < n && 0 <= b < |ms[i].content| && IsLong(ms, i, b) :: (i, b)
  }

  predicate IsLong(ms: seq<Message>, i: nat, b: nat) {
    i < |ms| && b < |ms[i].content| && ms[i].content[b].ToolResult? && |ms[i].content[b].output| > 240
  }

  ghost function LongIn(ms: seq<Message>, i: nat, n: nat): set<(nat, nat)>
    requires i < |ms| && n <= |ms[i].content|
  {
    set b | 0 <= b < n && IsLong(ms, i, b) :: (i, b)
  }

  lemma {:induction false} LongInCounts(ms: seq<Message>, i: nat, n: nat)
    requires i < |ms| && n <= |ms[i].content|
    ensures |LongIn(ms, i, n)| == LongOutputs(ms[i].content[..n])
  {
    if n > 0 {
      LongInCounts(ms, i, n - 1);
      var content := ms[i].content;
      assert content[..n][..n - 1] == content[..n - 1];
      assert LongIn(ms, i, n) == LongIn(ms, i, n - 1) + if IsLong(ms, i, n - 1) then {(i, n - 1)} else {};
    }
  }

  lemma {:induction false} LongCounts(ms: seq<Message>, n: nat)
    requires n <= |ms|
    ensures |LongAt(ms, n)| == TotalLong(ms[..n])
  {
    if n == 0 {
      assert LongAt(ms, 0) == {};
    } else {
      hide LongOutputs;
      LongCounts(ms, n - 1);
      assert ms[..n][..n - 1] == ms[..n - 1];
      var content := ms[n - 1].content;
      LongInCounts(ms, n - 1, |content|);
      assert content[..|content|] == content;
      assert LongAt(ms, n) == LongAt(ms, n - 1) + LongIn(ms, n - 1, |content|);
      assert LongAt(ms, n - 1) !! LongIn(ms, n - 1, |content|);
    }
  }

  /** A plan reports how many messages it keeps, the digest aside, and how many outputs it clipped: every one longer
      than 240 characters in the messages before the point where the conversation first fits. */
  lemma {:induction false} PlanReports(ms: seq<Message>, limit: nat)
    requires !Fits(ms, limit)
    ensures var p := CompactPlan(ms, limit);
            var ctx, c := ContextOf(ms, limit), CutOf(ms, limit);
            var out := Projection(ctx, c);
            && p.compacted && p.dropped == c.dropped && p.carried == Carried(ms[..SystemCount(ms)])
            && |p.messages| == p.keptMessages + (if ChosenDigest(ctx, c).Some? then 1 else 0)
            && p.truncated == |LongAt(out, ClipPoint(out, limit, 0))|
  {
    hide Fits, CutOf, ChosenDigest, ClipPoint, Retained, Flatten, SystemCount, TotalLong, LongAt, Carried;
    var out := Projection(ContextOf(ms, limit), CutOf(ms, limit));
    LongCounts(out, ClipPoint(out, limit, 0));
  }

  /** A history that fits is left as it is. */
  lemma {:induction false} FittingStays(ms: seq<Message>, limit: nat)
    requires Fits(ms, limit)
    ensures CompactPlan(ms, limit) == Plan(ms, false, [], [], |ms|, 0)
  {
  }

  lemma {:induction false} SetupStep(system: seq<Message>)
    requires system != []
    ensures Retained(system) == (if IsSummaryMessage(system[0]) then [] else [system[0]]) + Retained(system[1..])
    ensures Carried(system) == (if IsSummaryMessage(system[0]) then CarriedBy(system[0]) else []) + Carried(system[1..])
    ensures Retained([]) == [] && Carried([]) == []
  {
    hide IsSummaryMessage;
    NoCarry(system[0]);
    hide CarriedBy;
  }

  lemma {:induction false} NoCarry(m: Message)
    ensures !IsSummaryMessage(m) ==> CarriedBy(m) == []
  {
  }

  /** Message by message, the setup is kept as it is and the earlier digests in it are read for what they carry. */
  lemma {:induction false} SetupIsRead(system: seq<Message>, m: Message)
    ensures Retained(system + [m]) == Retained(system) + if IsSummaryMessage(m) then [] else [m]
    ensures Carried(system + [m]) == Carried(system) + if IsSummaryMessage(m) then CarriedBy(m) else []
  {
    hide IsSummaryMessage, CarriedBy, Retained, Carried;
    var all := system + [m];
    SetupStep(all);
    if system == [] {
      assert all == [m] && all[1..] == [];
    } else {
      SetupStep(system);
      SetupIsRead(system[1..], m);
      assert all[1..] == system[1..] + [m] && all[0] == system[0];
    }
  }
}
