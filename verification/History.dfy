/** What the session keeps true of its live history and of its durable log. */
module History {
  import opened Wrappers
  import opened Messages
  import C = Compaction
  import L = CompactionLaws
  import S = Summary

  const RETRIEVAL_MARKER := "retrieval-context"

  predicate IsRetrieval(m: Message) {
    m.synthetic == Some(RETRIEVAL_MARKER)
  }

  function RetrievalCount(ms: seq<Message>): nat {
    if ms == [] then 0 else (if IsRetrieval(ms[0]) then 1 else 0) + RetrievalCount(ms[1..])
  }

  /** The history without its retrieval blocks. */
  function Authored(ms: seq<Message>): seq<Message> {
    if ms == [] then [] else (if IsRetrieval(ms[0]) then [] else [ms[0]]) + Authored(ms[1..])
  }

  /** Durable events; only message events carry conversation content. */
  datatype Event = MessageEvent(message: Message) | AuditEvent(kind: AuditKind)

  datatype AuditKind =
    | SessionOpened | BranchForked | Compacted | CompactionAttempt | TurnStarted
    | RecoveryDiagnostic | ToolStarted(id: string) | ToolFinished(id: string, isError: bool)
    | TurnCancelled | TurnEnded

  /** The conversation a session log replays to. */
  function Transcript(log: seq<Event>): seq<Message> {
    if log == [] then []
    else Transcript(log[..|log| - 1]) +
         (var last := log[|log| - 1]; if last.MessageEvent? then [last.message] else [])
  }

  /** A history the loop can continue from: pairing is sound, at most one retrieval block is
      present and it is plain text, and in smart mode no calling message mimics a digest. */
  ghost predicate Sound(smart: bool, ms: seq<Message>) {
    && OrphanFree(ms)
    && RetrievalCount(ms) <= 1
    && (forall i :: 0 <= i < |ms| && IsRetrieval(ms[i]) ==> ms[i].role == System && ToolFree(ms[i]))
    && (smart ==> L.NoMimicry(ms))
  }

  predicate MentionsDigest(m: Message) {
    exists i :: 0 <= i < |m.content| && m.content[i].Text? && S.TITLE <= m.content[i].text
  }

  /** The setup prompt that opens every history. */
  predicate IsPrompt(m: Message) {
    m.role == System && ToolFree(m) && !IsRetrieval(m) && !S.IsSummaryMessage(m) && !MentionsDigest(m)
  }

  /** A live history: sound, and opened by the setup prompt. */
  ghost predicate Live(smart: bool, prompt: Message, ms: seq<Message>) {
    Sound(smart, ms) && ms != [] && ms[0] == prompt
  }

  // ---------------------------------------------------------------------------

  lemma {:induction false} RetrievalConcat(a: seq<Message>, b: seq<Message>)
    ensures RetrievalCount(a + b) == RetrievalCount(a) + RetrievalCount(b)
  {
    if a == [] {
      assert a + b == b;
    } else {
      RetrievalConcat(a[1..], b);
      assert (a + b)[1..] == a[1..] + b;
    }
  }

  lemma {:induction false} AuthoredConcat(a: seq<Message>, b: seq<Message>)
    ensures Authored(a + b) == Authored(a) + Authored(b)
  {
    if a == [] {
      assert a + b == b;
    } else {
      AuthoredConcat(a[1..], b);
      assert (a + b)[1..] == a[1..] + b;
      var head := if IsRetrieval(a[0]) then [] else [a[0]];
      assert head + (Authored(a[1..]) + Authored(b)) == head + Authored(a[1..]) + Authored(b);
    }
  }

  lemma {:induction false} RetrievalNone(ms: seq<Message>)
    requires forall i :: 0 <= i < |ms| ==> !IsRetrieval(ms[i])
    ensures RetrievalCount(ms) == 0 && Authored(ms) == ms
  {
    if ms != [] {
      RetrievalNone(ms[1..]);
    }
  }

  lemma {:induction false} RetrievalMono(part: seq<Message>, whole: seq<Message>)
    requires L.Subsequence(part, whole)
    ensures RetrievalCount(part) <= RetrievalCount(whole)
    decreases |whole|
  {
    if part != [] {
      if part[0] == whole[0] && L.Subsequence(part[1..], whole[1..]) {
        RetrievalMono(part[1..], whole[1..]);
      } else {
        RetrievalMono(part, whole[1..]);
      }
    }
  }

  lemma {:induction false} RetrievalPointwise(a: seq<Message>, b: seq<Message>)
    requires |a| == |b| && forall i :: 0 <= i < |a| ==> a[i].synthetic == b[i].synthetic
    ensures RetrievalCount(a) == RetrievalCount(b)
  {
    if a != [] {
      RetrievalPointwise(a[1..], b[1..]);
    }
  }

  lemma {:induction false} AuthoredIsPlain(ms: seq<Message>)
    ensures RetrievalCount(Authored(ms)) == 0
    ensures forall i :: 0 <= i < |Authored(ms)| ==> Authored(ms)[i] in ms && !IsRetrieval(Authored(ms)[i])
  {
    if ms != [] {
      AuthoredIsPlain(ms[1..]);
      if IsRetrieval(ms[0]) {
        assert Authored(ms) == Authored(ms[1..]);
      } else {
        assert Authored(ms)[1..] == Authored(ms[1..]);
      }
    }
  }

  lemma {:induction false} TranscriptConcat(a: seq<Event>, b: seq<Event>)
    ensures Transcript(a + b) == Transcript(a) + Transcript(b)
  {
    if b == [] {
      assert a + b == a;
    } else {
      assert (a + b)[..|a + b| - 1] == a + b[..|b| - 1];
      TranscriptConcat(a, b[..|b| - 1]);
    }
  }

  /** Evicting plain blocks keeps whatever the pairing automaton accepted. */
  lemma {:induction false} EvictKeepsPairing(strict: bool, open: seq<string>, ms: seq<Message>)
    requires Scan(strict, open, ms).Some?
    requires forall i :: 0 <= i < |ms| && IsRetrieval(ms[i]) ==> ToolFree(ms[i])
    ensures Scan(strict, open, Authored(ms)).Some?
    ensures strict ==> Scan(strict, open, Authored(ms)) == Scan(strict, open, ms)
    decreases |ms|
  {
    if ms != [] {
      var next := Advance(strict, open, ms[0]).value;
      EvictKeepsPairing(strict, next, ms[1..]);
      if IsRetrieval(ms[0]) {
        assert ToolFree(ms[0]) && next == [];
        assert Authored(ms) == Authored(ms[1..]);
        if !strict {
          LenientFromEmpty(open, Authored(ms[1..]));
        }
      } else {
        assert Authored(ms)[1..] == Authored(ms[1..]);
      }
    }
  }

  lemma {:induction false} NoMimicrySubset(part: seq<Message>, whole: seq<Message>)
    requires L.NoMimicry(whole)
    requires forall i :: 0 <= i < |part| ==> part[i] in whole
    ensures L.NoMimicry(part)
  {
    forall i | 0 <= i < |part| && S.IsSummaryMessage(part[i]) ensures UseIds(part[i].content) == [] {
      var j :| 0 <= j < |whole| && whole[j] == part[i];
    }
  }

  lemma {:induction false} EvictKeepsSound(smart: bool, ms: seq<Message>)
    requires Sound(smart, ms)
    ensures Sound(smart, Authored(ms)) && RetrievalCount(Authored(ms)) == 0
  {
    EvictKeepsPairing(false, [], ms);
    AuthoredIsPlain(ms);
    if smart {
      NoMimicrySubset(Authored(ms), ms);
    }
  }

  /** Appending one message, as the automaton sees it. */
  lemma {:induction false} ScanSnoc(strict: bool, ms: seq<Message>, m: Message)
    ensures Scan(strict, [], ms + [m]) ==
            (var mid := Scan(strict, [], ms); if mid.None? then None else Advance(strict, mid.value, m))
  {
    ScanConcat(strict, [], ms, [m]);
    if Scan(strict, [], ms).Some? {
      var mid := Scan(strict, [], ms).value;
      assert [m][1..] == [];
      var next := Advance(strict, mid, m);
      if next.Some? {
        assert Scan(strict, next.value, []) == next;
      }
    }
  }

  lemma {:induction false} AppendKeepsSound(smart: bool, ms: seq<Message>, m: Message)
    requires Sound(smart, ms)
    requires Scan(false, [], ms + [m]).Some?
    requires IsRetrieval(m) ==> RetrievalCount(ms) == 0 && m.role == System && ToolFree(m)
    requires smart && S.IsSummaryMessage(m) ==> UseIds(m.content) == []
    ensures Sound(smart, ms + [m])
  {
    RetrievalConcat(ms, [m]);
    assert RetrievalCount([m]) == (if IsRetrieval(m) then 1 else 0) + RetrievalCount([m][1..]);
    var all := ms + [m];
    forall i | 0 <= i < |all| && IsRetrieval(all[i]) ensures all[i].role == System && ToolFree(all[i]) {
      assert i < |ms| ==> all[i] == ms[i];
    }
    if smart {
      forall i | 0 <= i < |all| && S.IsSummaryMessage(all[i]) ensures UseIds(all[i].content) == [] {
        assert i < |ms| ==> all[i] == ms[i];
      }
    }
  }

  /** A strictly paired run of messages may follow any sound history. */
  lemma {:induction false} JoinKeepsOrphanFree(a: seq<Message>, b: seq<Message>)
    requires OrphanFree(a) && Scan(true, [], b).Some?
    ensures OrphanFree(a + b)
  {
    ScanConcat(false, [], a, b);
    StrictImpliesLenient([], b);
    LenientFromEmpty(Scan(false, [], a).value, b);
  }

  lemma {:induction false} NoMimicryConcat(a: seq<Message>, b: seq<Message>)
    requires L.NoMimicry(a) && L.NoMimicry(b)
    ensures L.NoMimicry(a + b)
  {
    forall i | 0 <= i < |a + b| && S.IsSummaryMessage((a + b)[i]) ensures UseIds((a + b)[i].content) == [] {
      assert if i < |a| then (a + b)[i] == a[i] else (a + b)[i] == b[i - |a|];
    }
  }

  /** A strictly paired run of authored messages extends any sound history to a sound one. */
  lemma {:induction false} JoinKeepsSound(smart: bool, a: seq<Message>, b: seq<Message>)
    requires Sound(smart, a)
    requires Scan(true, [], b).Some? && RetrievalCount(b) == 0
    requires forall i :: 0 <= i < |b| ==> !IsRetrieval(b[i])
    requires smart ==> L.NoMimicry(b)
    ensures Sound(smart, a + b)
  {
    JoinKeepsOrphanFree(a, b);
    RetrievalConcat(a, b);
    if smart {
      NoMimicryConcat(a, b);
    }
    forall i | 0 <= i < |a + b|
      ensures IsRetrieval((a + b)[i]) ==> (a + b)[i].role == System && ToolFree((a + b)[i])
    {
      assert (a + b)[i] == if i < |a| then a[i] else b[i - |a|];
    }
  }

  /** Without its setup prompt a live history is still sound. */
  lemma {:induction false} TailIsSound(smart: bool, prompt: Message, ms: seq<Message>)
    requires IsPrompt(prompt) && Live(smart, prompt, ms)
    ensures Sound(smart, ms[1..])
  {
    assert Advance(false, [], prompt) == Some([]);
    assert ms == [prompt] + ms[1..];
    RetrievalConcat([prompt], ms[1..]);
    if smart {
      NoMimicrySubset(ms[1..], ms);
    }
    forall i | 0 <= i < |ms[1..]| && IsRetrieval(ms[1..][i]) ensures ms[1..][i].role == System && ToolFree(ms[1..][i]) {
      assert ms[1..][i] == ms[i + 1];
    }
  }

  lemma {:induction false} EmptyIsSound(smart: bool)
    ensures Sound(smart, [])
  {
  }

  /** A sound transcript behind the setup prompt is a live history. */
  lemma {:induction false} PromptedIsLive(smart: bool, prompt: Message, ms: seq<Message>)
    requires IsPrompt(prompt) && Sound(smart, ms)
    ensures Live(smart, prompt, [prompt] + ms)
  {
    var all := [prompt] + ms;
    assert Advance(false, [], prompt) == Some([]);
    assert all[1..] == ms;
    RetrievalConcat([prompt], ms);
    assert RetrievalCount([prompt]) == RetrievalCount([prompt][1..]);
    if smart {
      assert L.NoMimicry([prompt]);
      NoMimicryConcat([prompt], ms);
    }
    forall i | 0 <= i < |all| && IsRetrieval(all[i]) ensures all[i].role == System && ToolFree(all[i]) {
      assert i > 0 ==> all[i] == ms[i - 1];
    }
  }

  // ---------------------------------------------------------------------------
  // Compaction keeps histories live

  lemma {:induction false} InjectedIsAuthored(summary: Option<seq<string>>)
    ensures RetrievalCount(C.Injected(summary)) == 0
  {
    var head := C.Injected(summary);
    if head != [] {
      assert head[1..] == [];
    }
  }

  lemma {:induction false} BuildRetrievals(system: seq<Message>, summary: Option<seq<string>>, kept: seq<C.Exchange>)
    ensures RetrievalCount(C.Build(system, summary, kept)) ==
            RetrievalCount(system) + RetrievalCount(C.Flatten(kept))
  {
    var head := C.Injected(summary);
    RetrievalConcat(system + head, C.Flatten(kept));
    RetrievalConcat(system, head);
    InjectedIsAuthored(summary);
  }

  lemma {:induction false} ProjectionRetrievals(ms: seq<Message>, limit: nat)
    ensures RetrievalCount(C.Projection(C.ContextOf(ms, limit), C.CutOf(ms, limit))) <= RetrievalCount(ms)
  {
    hide RetrievalCount, C.CutOf, C.ChosenDigest, C.Build, C.Flatten, C.SystemCount, S.Retained, L.Subsequence;
    var ctx, c, n := C.ContextOf(ms, limit), C.CutOf(ms, limit), C.SystemCount(ms);
    BuildRetrievals(ctx.system, C.ChosenDigest(ctx, c), c.kept);
    L.RetainedSubsequence(ms[..n]);
    RetrievalMono(ctx.system, ms[..n]);
    L.CompactionConserves(ms, limit);
    RetrievalMono(C.Flatten(c.kept), ms[n..]);
    RetrievalConcat(ms[..n], ms[n..]);
    assert ms == ms[..n] + ms[n..];
  }

  lemma {:induction false} PlanRetrievals(ms: seq<Message>, limit: nat)
    ensures RetrievalCount(C.CompactPlan(ms, limit).messages) <= RetrievalCount(ms)
  {
    if !Fits(ms, limit) {
      ProjectionRetrievals(ms, limit);
      var out := C.Projection(C.ContextOf(ms, limit), C.CutOf(ms, limit));
      RetrievalPointwise(out, C.ClippedTo(out, C.ClipPoint(out, limit, 0)));
    }
  }

  lemma {:induction false} RetrievalUpdate(ms: seq<Message>, k: nat, m: Message)
    requires k < |ms| && !IsRetrieval(m)
    ensures RetrievalCount(ms[k := m]) <= RetrievalCount(ms)
  {
    var a, b := ms[..k], ms[k + 1..];
    assert ms == a + ([ms[k]] + b);
    assert ms[k := m] == a + ([m] + b);
    RetrievalConcat(a, [ms[k]] + b);
    RetrievalConcat(a, [m] + b);
    assert ([ms[k]] + b)[1..] == b && ([m] + b)[1..] == b;
  }

  lemma {:induction false} CandidateRetrievals(ms: seq<Message>, limit: nat, smart: Option<string>)
    ensures RetrievalCount(C.Candidate(ms, limit, smart).messages) <= RetrievalCount(ms)
  {
    PlanRetrievals(ms, limit);
    var p := C.CompactPlan(ms, limit).messages;
    if smart.Some? && C.SummaryIndex(p).Some? {
      RetrievalUpdate(p, C.SummaryIndex(p).value, TextMessage(System, smart.value));
    }
  }

  lemma {:induction false} CandidateComesFrom(ms: seq<Message>, limit: nat, smart: Option<string>, i: nat)
    requires i < |C.Candidate(ms, limit, smart).messages|
    ensures L.ComesFrom(C.Candidate(ms, limit, smart).messages[i], ms)
  {
    var p := C.CompactPlan(ms, limit).messages;
    var c := C.Candidate(ms, limit, smart).messages;
    if c != p {
      assert C.SummaryIndex(p).Some?;
      if i == C.SummaryIndex(p).value {
        assert c[i] == TextMessage(System, smart.value);
      } else {
        assert c[i] == p[i];
        L.PlanComesFrom(ms, limit, i);
      }
    } else {
      L.PlanComesFrom(ms, limit, i);
    }
  }

  lemma {:induction false} PlanKeepsPrompt(ms: seq<Message>, limit: nat)
    requires ms != [] && IsPrompt(ms[0])
    ensures var p := C.CompactPlan(ms, limit).messages; p != [] && p[0] == ms[0]
  {
    if !Fits(ms, limit) {
      var system := ms[..C.SystemCount(ms)];
      assert system[0] == ms[0];
      assert S.Retained(system)[0] == ms[0];
      var out := C.Projection(C.ContextOf(ms, limit), C.CutOf(ms, limit));
      assert out[0] == ms[0];
      L.ClipKeepsPlain(ms[0]);
    }
  }

  lemma {:induction false} CandidateKeepsPrompt(ms: seq<Message>, limit: nat, smart: Option<string>)
    requires ms != [] && IsPrompt(ms[0])
    ensures var c := C.Candidate(ms, limit, smart).messages; c != [] && c[0] == ms[0]
  {
    PlanKeepsPrompt(ms, limit);
    var p := C.CompactPlan(ms, limit).messages;
    if C.SummaryIndex(p).Some? {
      assert C.SummaryIndex(p).value != 0;
    }
  }

  lemma {:induction false} CandidatePlainRetrieval(ms: seq<Message>, limit: nat, smart: Option<string>, i: nat)
    requires i < |C.Candidate(ms, limit, smart).messages|
    requires IsRetrieval(C.Candidate(ms, limit, smart).messages[i])
    requires forall j :: 0 <= j < |ms| && IsRetrieval(ms[j]) ==> ms[j].role == System && ToolFree(ms[j])
    ensures var m := C.Candidate(ms, limit, smart).messages[i]; m.role == System && ToolFree(m)
  {
    CandidateComesFrom(ms, limit, smart, i);
    var m := C.Candidate(ms, limit, smart).messages[i];
    var j :| 0 <= j < |ms| && (m == ms[j] || m == C.ClipMessage(ms[j]));
    L.ClipKeepsUseIds(ms[j]);
  }

  lemma {:induction false} CandidateKeepsNoMimicry(ms: seq<Message>, limit: nat, smart: Option<string>)
    requires L.NoMimicry(ms)
    ensures L.NoMimicry(C.Candidate(ms, limit, smart).messages)
  {
    L.PlanKeepsNoMimicry(ms, limit);
    var p := C.CompactPlan(ms, limit).messages;
    var c := C.Candidate(ms, limit, smart).messages;
    if c != p {
      L.TextIsToolFree(System, smart.value);
      forall i | 0 <= i < |c| && S.IsSummaryMessage(c[i]) ensures UseIds(c[i].content) == [] {
        assert i != C.SummaryIndex(p).value ==> c[i] == p[i];
      }
    }
  }

  lemma {:induction false} SmartIsSafe(smart: bool, ms: seq<Message>, limit: nat, digest: Option<string>)
    requires (digest.Some? ==> smart) && (smart ==> L.NoMimicry(ms))
    ensures L.SwapIsSafe(ms, limit, digest)
  {
    hide C.CompactPlan;
    if smart {
      L.NoMimicryIsSafe(ms, limit, digest);
    }
  }

  /** Adopting a compaction candidate keeps a live history live, and its calls as open as before. */
  lemma {:induction false} CandidateKeepsLive(smart: bool, prompt: Message, ms: seq<Message>, limit: nat, digest: Option<string>)
    requires IsPrompt(prompt) && Live(smart, prompt, ms)
    requires digest.Some? ==> smart
    ensures Live(smart, prompt, C.Candidate(ms, limit, digest).messages)
    ensures forall strict: bool :: Scan(strict, [], ms).Some? ==>
              Scan(strict, [], C.Candidate(ms, limit, digest).messages) == Scan(strict, [], ms)
  {
    forall strict: bool | Scan(strict, [], ms).Some?
      ensures Scan(strict, [], C.Candidate(ms, limit, digest).messages) == Scan(strict, [], ms)
    {
      SmartIsSafe(smart, ms, limit, digest);
      L.CandidateKeepsPairing(strict, ms, limit, digest);
    }
    CandidateKeepsPrompt(ms, limit, digest);
    CandidateRetrievals(ms, limit, digest);
    var c := C.Candidate(ms, limit, digest).messages;
    forall i | 0 <= i < |c| && IsRetrieval(c[i]) ensures c[i].role == System && ToolFree(c[i]) {
      CandidatePlainRetrieval(ms, limit, digest, i);
    }
    if smart {
      CandidateKeepsNoMimicry(ms, limit, digest);
    }
  }
}
