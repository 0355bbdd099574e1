/** The session runtime: the live history, the compaction cache keyed by its generation, and
    the durable log, with every operation that touches them. */
module Runtime {
  import opened Wrappers
  import opened Messages
  import opened History
  import opened Session
  import opened TurnLaws
  import A = AnsweredLaws
  import C = Compaction
  import L = CompactionLaws
  import K = Compactor
  import S = Summary

  /** What a turn started from, for stating what it leaves behind. */
  datatype TurnFrame = TurnFrame(
    base: seq<Message>,   // the transcript before the turn
    start: seq<Message>,  // the live history before the turn, retrieval replaced
    paired: bool,         // whether that history was exactly paired
    sentBefore: nat,      // requests sent before the turn
    shrunk: bool,         // whether an overflow shrank the history
    honest: bool)         // whether no reply of the turn can be taken for a digest

  /** What every request put on the wire satisfies. */
  ghost predicate RequestOk(request: seq<Message>, paired: bool) {
    && Scan(false, [], request) == Some([])
    && (paired ==> ExactlyPaired(request))
    && L.NoAdjacentSystem(request)
  }

  ghost predicate IsCandidateOf(smart: bool, ms: seq<Message>, limit: nat, plan: C.Plan) {
    exists d: Option<string> :: (d.Some? ==> smart) && plan == C.Candidate(ms, limit, d)
  }

  ghost predicate ArchiveSound(smart: bool, nextId: nat, archive: map<nat, seq<Event>>) {
    forall s :: s in archive ==> s < nextId && Sound(smart, Transcript(archive[s]))
  }

  class SessionRuntime {
    const prompt: Message
    const limit: nat
    const smart: bool

    var messages: seq<Message>
    var historyGeneration: nat
    var compactionCache: Option<(nat, C.Plan)>
    var log: seq<Event>
    var archive: map<nat, seq<Event>>
    var sessionId: nat
    var nextId: nat
    ghost var sent: seq<seq<Message>>

    /** Some compaction of the live history, deterministic unless smart mode is on. */
    ghost predicate IsCandidate(plan: C.Plan)
      reads this
    {
      IsCandidateOf(smart, messages, limit, plan)
    }

    /** A cache entry of the current generation is a compaction of the current history. */
    ghost predicate CacheCoherent()
      reads this
    {
      compactionCache.Some? ==>
        && compactionCache.value.0 <= historyGeneration
        && (compactionCache.value.0 == historyGeneration ==> IsCandidate(compactionCache.value.1))
    }

    ghost predicate LiveValid()
      reads this
    {
      IsPrompt(prompt) && Live(smart, prompt, messages) && CacheCoherent()
    }

    ghost predicate LogsValid()
      reads this
    {
      && Sound(smart, Transcript(log))
      && ArchiveSound(smart, nextId, archive)
      && sessionId < nextId
      && sessionId !in archive
    }

    ghost predicate Valid()
      reads this
    {
      LiveValid() && LogsValid()
    }

    /** What every turn keeps, whatever the model replies: the cache is current and no result in the durable log
        is without its call. */
    ghost predicate Recorded()
      reads this
    {
      CacheCoherent() && OrphanFree(Transcript(log))
    }

    /** In the middle of a turn that appended `turn` and still owes results for `open`. */
    ghost predicate InTurn(f: TurnFrame, turn: seq<Message>, open: seq<string>)
      reads this
    {
      && CacheCoherent()
      && Transcript(log) == f.base + turn
      && Scan(true, [], turn) == Some(open)
      && (!f.shrunk ==> messages == f.start + turn)
      && (forall i :: 0 <= i < |turn| ==> !IsRetrieval(turn[i]))
      && f.sentBefore <= |sent|
      && (f.honest ==> LiveInTurn(f, turn, open))
    }

    /** What holds of the live history and of the requests as long as no digest can take the place of a reply. */
    ghost predicate LiveInTurn(f: TurnFrame, turn: seq<Message>, open: seq<string>)
      reads this
    {
      && LiveValid()
      && Scan(false, [], messages) == Some(open)
      && (f.paired ==> Scan(true, [], messages) == Some(open))
      && (smart ==> L.NoMimicry(turn))
      && (forall k :: f.sentBefore <= k < |sent| ==> RequestOk(sent[k], f.paired))
    }

    /** Without a summarizer, a cached compaction of the current generation is what compacting the current
        history again would give. */
    lemma CachedPlanIsCurrent()
      requires Valid() && !smart
      ensures compactionCache.Some? && compactionCache.value.0 == historyGeneration ==>
                compactionCache.value.1 == C.CompactPlan(messages, limit)
    {
      hide C.CompactPlan;
      if compactionCache.Some? && compactionCache.value.0 == historyGeneration {
        var plan := compactionCache.value.1;
        var d: Option<string> :| (d.Some? ==> smart) && plan == C.Candidate(messages, limit, d);
      }
    }

    constructor (prompt: Message, seed: seq<Message>, limit: nat, smart: bool)
      ensures IsPrompt(prompt) && Sound(smart, seed) ==> Valid()
      ensures messages == [prompt] + seed && Transcript(log) == [] && sent == []
      ensures this.prompt == prompt && this.limit == limit && this.smart == smart
    {
      this.prompt, this.limit, this.smart := prompt, limit, smart;
      messages := [prompt] + seed;
      historyGeneration, compactionCache := 0, None;
      log := [AuditEvent(SessionOpened)];
      archive, sessionId, nextId, sent := map[], 0, 1, [];
      new;
      if IsPrompt(prompt) && Sound(smart, seed) {
        PromptedIsLive(smart, prompt, seed);
      }
      assert Transcript(log) == [] by {
        assert log[..0] == [];
      }
    }

    method RecordAudit(kind: AuditKind)
      modifies this`log
      ensures Transcript(log) == old(Transcript(log))
      ensures log == old(log) + [AuditEvent(kind)]
    {
      ghost var before := log;
      log := log + [AuditEvent(kind)];
      assert log[..|log| - 1] == before;
    }

    /** Persists a message, then keeps it in memory. */
    method Append(m: Message)
      modifies this`log, this`messages, this`historyGeneration
      ensures messages == old(messages) + [m]
      ensures Transcript(log) == old(Transcript(log)) + [m]
      ensures historyGeneration == old(historyGeneration) + 1
      ensures old(CacheCoherent()) ==> CacheCoherent()
      ensures old(Valid()) && old(Welcome(m)) ==> Valid()
    {
      ghost var before := log;
      log := log + [MessageEvent(m)];
      assert log[..|log| - 1] == before;
      if old(Valid()) && old(Welcome(m)) {
        AppendKeepsSound(smart, messages, m);
      }
      messages := messages + [m];
      historyGeneration := historyGeneration + 1;
    }

    /** A message that answers no call but the next open one, and does not read like a digest when it calls. */
    ghost predicate Welcome(m: Message)
      reads this
    {
      && Scan(false, [], messages + [m]).Some? && Sound(smart, Transcript(log) + [m])
      && !IsRetrieval(m) && (smart && S.IsSummaryMessage(m) ==> UseIds(m.content) == [])
    }

    /** Appends inside a turn: the automaton advances on the turn and on the live history alike. */
    method AppendInTurn(m: Message, ghost f: TurnFrame, ghost turn: seq<Message>, ghost open: seq<string>)
      requires InTurn(f, turn, open)
      requires Advance(true, open, m).Some? && !IsRetrieval(m)
      requires f.honest && smart && S.IsSummaryMessage(m) ==> UseIds(m.content) == []
      modifies this`log, this`messages, this`historyGeneration
      ensures InTurn(f, turn + [m], Advance(true, open, m).value)
    {
      hide RequestOk, L.NoMimicry, IsCandidateOf, Advance, Scan, Live, Sound, IsPrompt, S.IsSummaryMessage, UseIds, Welcome;
      ghost var was := messages;
      Append(m);
      assert f.base + turn + [m] == f.base + (turn + [m]);
      assert f.start + turn + [m] == f.start + (turn + [m]);
      ScanSnoc(true, turn, m);
      if f.honest {
        LiveAppend(smart, prompt, was, open, m);
        if smart {
          SingleNoMimicry(m);
          NoMimicryConcat(turn, [m]);
        }
      }
    }

    /** Evicts the previous retrieval block and adds the new one, unless it is empty. The block
        never reaches the durable log. */
    method SetRetrievalContext(text: string)
      requires CacheCoherent()
      modifies this`messages, this`historyGeneration
      ensures CacheCoherent() && (old(Valid()) ==> Valid())
      ensures messages == Authored(old(messages)) + RetrievalBlock(text)
      ensures RetrievalCount(messages) == if text == "" then 0 else 1
      ensures text != "" ==> messages[|messages| - 1] == Message(System, [Text(text)], Some(RETRIEVAL_MARKER))
      ensures Transcript(log) == old(Transcript(log))
      ensures historyGeneration == old(historyGeneration) <==> messages == old(messages) && RetrievalCount(messages) == 0
    {
      var had := RetrievalCount(messages) > 0;
      ghost var was := messages;
      NothingToEvict(was);
      AuthoredIsPlain(was);
      if old(Valid()) {
        EvictKeepsSound(smart, was);
        RetrievalKeepsLive(smart, prompt, was, text);
      }
      messages := Authored(messages);
      ghost var evicted := messages;
      var added := text != "";
      if added {
        var block := Message(System, [Text(text)], Some(RETRIEVAL_MARKER));
        messages := messages + [block];
        RetrievalConcat(evicted, [block]);
        assert RetrievalCount([block]) == 1 + RetrievalCount([block][1..]);
      }
      if had || added {
        historyGeneration := historyGeneration + 1;
      }
      assert messages == evicted + RetrievalBlock(text);
    }

    // -------------------------------------------------------------------------
    // Compaction

    /** The projection for `target`, with one smart attempt when smart mode is on. */
    method CompactCandidate(target: nat, digest: Option<string>) returns (plan: C.Plan)
      ensures plan == C.Candidate(messages, target, if smart then digest else None)
    {
      plan := K.CompactHistory(messages, target);
      if plan.compacted && smart && digest.Some? && plan.dropped != [] {
        plan := C.ApplySmartDigest(plan, digest.value, target);
      }
    }

    /** The compacted history for the next request; unchanged history is never recompacted. */
    method CompactedHistory(digest: Option<string>) returns (plan: C.Plan)
      requires CacheCoherent()
      modifies this`log, this`compactionCache
      ensures CacheCoherent() && IsCandidate(plan)
      ensures old(LiveValid()) ==> LiveValid()
      ensures Transcript(log) == old(Transcript(log))
      ensures compactionCache == Some((historyGeneration, plan))
      ensures old(compactionCache.Some? && compactionCache.value.0 == historyGeneration) ==>
                plan == old(compactionCache).value.1
    {
      hide C.Candidate, Live, IsPrompt;
      if compactionCache.Some? && compactionCache.value.0 == historyGeneration {
        return compactionCache.value.1;
      }
      plan := CompactCandidate(limit, digest);
      ghost var d := if smart then digest else None;
      assert plan == C.Candidate(messages, limit, d);
      if plan.compacted {
        RecordAudit(Compacted);
        RecordAudit(CompactionAttempt);
      }
      compactionCache := Some((historyGeneration, plan));
    }

    /** Replaces the live history by a compaction of it; `always` even when there was nothing to compact. */
    method Adopt(target: nat, digest: Option<string>, always: bool) returns (plan: C.Plan)
      requires CacheCoherent()
      modifies this`log, this`messages, this`historyGeneration, this`compactionCache
      ensures CacheCoherent()
      ensures Transcript(log) == old(Transcript(log))
      ensures plan == C.Candidate(old(messages), target, if smart then digest else None)
      ensures messages == plan.messages
      ensures historyGeneration == old(historyGeneration) + if plan.compacted || always then 1 else 0
      ensures compactionCache == if plan.compacted || always then None else old(compactionCache)
      ensures old(LiveValid()) ==>
                && LiveValid()
                && forall strict: bool :: Scan(strict, [], old(messages)).Some? ==>
                     Scan(strict, [], messages) == Scan(strict, [], old(messages))
    {
      plan := CompactCandidate(target, digest);
      if plan.compacted {
        RecordAudit(Compacted);
        RecordAudit(CompactionAttempt);
      }
      if LiveValid() {
        CandidateKeepsLive(smart, prompt, messages, target, if smart then digest else None);
      }
      if plan.compacted || always {
        messages := plan.messages;
        historyGeneration := historyGeneration + 1;
        compactionCache := None;
      }
    }

    /** Compacts the stored history as the next request would. */
    method CompactConversation(digest: Option<string>)
      requires Valid()
      modifies this`log, this`messages, this`historyGeneration, this`compactionCache
      ensures Valid()
      ensures Transcript(log) == old(Transcript(log))
      ensures exists d: Option<string> :: (d.Some? ==> smart) && messages == C.Candidate(old(messages), limit, d).messages
    {
      hide C.Candidate, Live, IsPrompt;
      var plan := CompactedHistory(digest);
      ghost var d: Option<string> :| (d.Some? ==> smart) && plan == C.Candidate(messages, limit, d);
      CandidateKeepsLive(smart, prompt, messages, limit, d);
      messages := plan.messages;
      historyGeneration := historyGeneration + 1;
    }

    /** Compacts to about half the limit even when the history fits. */
    method CompactConversationForce(digest: Option<string>)
      requires Valid()
      modifies this`log, this`messages, this`historyGeneration, this`compactionCache
      ensures Valid()
      ensures Transcript(log) == old(Transcript(log))
      ensures var target := if limit / 2 > FORCE_COMPACT_FLOOR then limit / 2 else FORCE_COMPACT_FLOOR;
              messages == C.Candidate(old(messages), target, if smart then digest else None).messages
    {
      var _ := Adopt(if limit / 2 > FORCE_COMPACT_FLOOR then limit / 2 else FORCE_COMPACT_FLOOR, digest, true);
    }

    // -------------------------------------------------------------------------
    // Sessions

    /** Keeps the leading setup messages; the durable log is not touched. */
    method ClearConversation()
      requires Valid()
      modifies this`messages, this`historyGeneration
      ensures Valid()
      ensures messages == LeadingSetup(old(messages))
    {
      LeadingSetupIsLive(smart, prompt, messages);
      messages := LeadingSetup(messages);
      historyGeneration := historyGeneration + 1;
    }

    /** Files the running session's log under its id. */
    method ArchiveLog(id: nat)
      requires LogsValid() && id == sessionId
      modifies this`archive
      ensures archive == old(archive)[id := log]
      ensures ArchiveSound(smart, nextId, archive)
    {
      archive := archive[id := log];
    }

    /** Files the running log and starts an empty one under a new id. */
    method OpenFreshLog()
      requires LogsValid()
      modifies this`log, this`archive, this`sessionId, this`nextId
      ensures Transcript(log) == [] && LogsValid()
      ensures archive == old(archive)[old(sessionId) := old(log)] && sessionId !in old(archive)
    {
      hide Sound;
      EmptyIsSound(smart);
      ArchiveLog(sessionId);
      sessionId, nextId := nextId, nextId + 1;
      log := [];
      assert Transcript(log) == [];
      hide Transcript;
      RecordAudit(SessionOpened);
    }

    /** A fresh session: a new id, the setup messages, and an empty transcript. */
    method StartNewSession()
      requires Valid()
      modifies this`messages, this`historyGeneration, this`log, this`archive, this`sessionId, this`nextId
      ensures Valid()
      ensures messages == LeadingSetup(old(messages)) && Transcript(log) == []
      ensures archive == old(archive)[old(sessionId) := old(log)] && sessionId !in old(archive)
    {
      ClearConversation();
      OpenFreshLog();
    }

    /** The stored log of a session, the running one included. */
    function StoredLog(session: nat): seq<Event>
      requires session == sessionId || session in archive
      reads this
    {
      if session == sessionId then log else archive[session]
    }

    /** Files the running log and takes up a stored one. */
    method ReopenLog(session: nat)
      requires LogsValid() && (session == sessionId || session in archive)
      modifies this`log, this`archive, this`sessionId
      ensures LogsValid() && sessionId == session
      ensures Transcript(log) == Transcript(old(StoredLog(session)))
      ensures archive == old(archive)[old(sessionId) := old(log)] - {session}
    {
      hide Sound;
      ArchiveLog(sessionId);
      var events := archive[session];
      archive := archive - {session};
      sessionId, log := session, events;
      RecordAudit(SessionOpened);
    }

    /** Resumes a session, possibly the running one, by replaying its log behind the current setup prompt. */
    method LoadSession(session: nat)
      requires Valid()
      requires session == sessionId || session in archive
      modifies this`messages, this`historyGeneration, this`compactionCache, this`log, this`archive, this`sessionId
      ensures Valid() && sessionId == session
      ensures messages == [prompt] + Transcript(old(StoredLog(session)))
      ensures Transcript(log) == Transcript(old(StoredLog(session)))
      ensures archive == old(archive)[old(sessionId) := old(log)] - {session}
    {
      hide Sound, Live;
      ReopenLog(session);
      PromptedIsLive(smart, prompt, Transcript(log));
      messages := [prompt] + Transcript(log);
      historyGeneration := historyGeneration + 1;
      compactionCache := None;
    }

    method RecordHistory(history: seq<Message>)
      modifies this`log
      ensures Transcript(log) == old(Transcript(log)) + history
    {
      ghost var before := Transcript(log);
      for i := 0 to |history|
        invariant Transcript(log) == before + history[..i]
      {
        ghost var was := log;
        log := log + [MessageEvent(history[i])];
        assert log[..|log| - 1] == was;
      }
    }

    /** Branches into a new session whose log re-records the live history. */
    method ForkSession()
      requires Valid()
      modifies this`historyGeneration, this`compactionCache, this`log, this`archive, this`sessionId, this`nextId
      ensures Valid()
      ensures messages == [prompt] + Transcript(log)
      ensures RetrievalCount(Transcript(log)) == RetrievalCount(messages)
      ensures archive == old(archive)[old(sessionId) := old(log)] && sessionId !in old(archive)
    {
      hide C.Candidate, OrphanFree, L.NoMimicry;
      OpenFreshLog();
      RecordAudit(BranchForked);
      RecordHistory(messages[1..]);
      assert Transcript(log) == messages[1..];
      TailIsSound(smart, prompt, messages);
      historyGeneration := historyGeneration + 1;
      compactionCache := None;
    }

    /** A system note, or a surfaced shell run: tool-free, so always welcome. */
    method AppendNote(role: Role, text: string)
      requires Valid()
      requires role == System || role == UserShell
      modifies this`log, this`messages, this`historyGeneration
      ensures Valid()
      ensures messages == old(messages) + [TextMessage(role, text)]
      ensures Transcript(log) == old(Transcript(log)) + [TextMessage(role, text)]
    {
      var m := TextMessage(role, text);
      L.TextIsToolFree(role, text);
      ScanSnoc(false, messages, m);
      L.TextIsToolFree(role, text);
      assert Scan(true, [], [m][1..]) == Some([]);
      JoinKeepsSound(smart, Transcript(log), [m]);
      Append(m);
    }

    // -------------------------------------------------------------------------
    // One turn

    /** Builds the request for the next provider call and puts it on the wire. It is exactly paired if and only
        if every batch of calls the compaction keeps was answered. */
    method SendRequest(digest: Option<string>, ghost f: TurnFrame, ghost turn: seq<Message>)
      requires InTurn(f, turn, [])
      modifies this`log, this`compactionCache, this`sent
      ensures InTurn(f, turn, [])
      ensures compactionCache.Some? && compactionCache.value.0 == historyGeneration
      ensures sent == old(sent) + [C.MergeSystem(compactionCache.value.1.messages)]
      ensures f.honest ==> (ExactlyPaired(sent[|old(sent)|]) <==> A.AllAnswered(A.Shown(messages, limit)))
    {
      hide C.Candidate, C.MergeSystem, Live, IsPrompt, RequestOk, L.NoMimicry, Scan, ExactlyPaired, A.AllAnswered, A.Shown,
           IsCandidateOf;
      var plan := CompactedHistory(digest);
      var request := K.MergeConsecutiveSystem(plan.messages);
      if f.honest {
        RequestIsOk(plan, f.paired);
      }
      sent := sent + [request];
      AuditInTurn(TurnStarted, f, turn, []);
    }

    lemma RequestIsOk(plan: C.Plan, paired: bool)
      requires LiveValid() && IsCandidate(plan)
      requires Scan(false, [], messages) == Some([]) && (paired ==> Scan(true, [], messages) == Some([]))
      ensures RequestOk(C.MergeSystem(plan.messages), paired)
      ensures ExactlyPaired(C.MergeSystem(plan.messages)) <==> A.AllAnswered(A.Shown(messages, limit))
    {
      var d: Option<string> :| (d.Some? ==> smart) && plan == C.Candidate(messages, limit, d);
      SmartIsSafe(smart, messages, limit, d);
      A.RequestPairedExactlyWhen(messages, limit, d);
      hide C.Candidate, A.AllAnswered, A.Shown, L.SwapIsSafe, Live;
      L.CandidateKeepsPairing(false, messages, limit, d);
      L.MergeKeepsPairing(false, plan.messages);
      L.MergeKeepsPairing(true, plan.messages);
      if paired {
        L.CandidateKeepsPairing(true, messages, limit, d);
      }
      L.MergeFolds(plan.messages);
    }

    /** On the first overflow of a turn shrinks the history and says to retry. */
    method TryOverflowRetry(retried: bool, digest: Option<string>, ghost f: TurnFrame, ghost turn: seq<Message>)
      returns (again: bool)
      requires InTurn(f, turn, [])
      modifies this`log, this`messages, this`historyGeneration, this`compactionCache
      ensures again <==> !retried
      ensures !again ==> messages == old(messages) && InTurn(f, turn, [])
      ensures again ==>
                messages == C.Candidate(old(messages), OverflowTarget(old(messages)), if smart then digest else None).messages
      ensures InTurn(f.(shrunk := true), turn, [])
    {
      hide C.Candidate, L.NoMimicry;
      if retried {
        return false;
      }
      var plan := Adopt(OverflowTarget(messages), digest, false);
      return true;
    }

    /** Admits queued user input at a safe boundary. */
    method AdmitSteering(texts: seq<string>, ghost f: TurnFrame, ghost turn0: seq<Message>) returns (ghost turn: seq<Message>)
      requires InTurn(f, turn0, [])
      modifies this`log, this`messages, this`historyGeneration
      ensures InTurn(f, turn, [])
      ensures turn == turn0 + UserTexts(texts)
      ensures sent == old(sent)
    {
      hide InTurn;
      turn := turn0;
      assert turn0 + UserTexts(texts[..0]) == turn0;
      for i := 0 to |texts|
        invariant InTurn(f, turn, []) && turn == turn0 + UserTexts(texts[..i])
      {
        L.TextIsToolFree(User, texts[i]);
        AppendInTurn(TextMessage(User, texts[i]), f, turn, []);
        turn := turn + [TextMessage(User, texts[i])];
        assert UserTexts(texts[..i + 1]) == UserTexts(texts[..i]) + [TextMessage(User, texts[i])];
      }
      assert texts[..|texts|] == texts;
    }

    /** Answers every call of a rejected batch with an error. */
    method AnswerRejected(calls: seq<ToolRequest>, why: string, ghost f: TurnFrame, ghost turn0: seq<Message>)
      returns (ghost turn: seq<Message>)
      requires InTurn(f, turn0, Ids(calls))
      modifies this`log, this`messages, this`historyGeneration
      ensures InTurn(f, turn, [])
      ensures turn == turn0 + Rejections(calls, why)
    {
      hide InTurn;
      turn := turn0;
      assert Ids(calls)[0..] == Ids(calls);
      assert turn0 + Rejections(calls, why)[..0] == turn0;
      for i := 0 to |calls|
        invariant InTurn(f, turn, Ids(calls)[i..]) && turn == turn0 + Rejections(calls, why)[..i]
      {
        var m := ResultMessage(calls[i].id, "tool call rejected: " + why, true);
        ResultAdvances(Ids(calls)[i..], m);
        AppendInTurn(m, f, turn, Ids(calls)[i..]);
        turn := turn + [m];
        assert Ids(calls)[i..][1..] == Ids(calls)[i + 1..];
        assert Rejections(calls, why)[..i + 1] == Rejections(calls, why)[..i] + [m];
      }
      assert Rejections(calls, why)[..|calls|] == Rejections(calls, why);
    }

    /** Runs one call and appends its result, real or synthesized for an abort. */
    method RunCall(id: string, outcome: Dispatch, ghost f: TurnFrame, ghost turn: seq<Message>, ghost open: seq<string>)
      returns (ghost m: Message)
      requires InTurn(f, turn, open) && open != [] && open[0] == id
      modifies this`log, this`messages, this`historyGeneration
      ensures m == ResultOf(id, outcome) && Answers(m, id) && InTurn(f, turn + [m], open[1..])
    {
      hide InTurn;
      AuditInTurn(ToolStarted(id), f, turn, open);
      var result := match outcome
        case Finished(output, isError) => ResultMessage(id, output, isError)
        case Aborted => ResultMessage(id, "cancelled by the user; execution aborted", true);
      AuditInTurn(ToolFinished(id, result.content[0].isError), f, turn, open);
      ResultAdvances(open, result);
      AppendInTurn(result, f, turn, open);
      m := result;
    }

    /** Runs the calls in order; an abort answers the running call and stops. */
    method ExecuteCalls(calls: seq<ToolRequest>, dispatches: seq<Dispatch>, ghost f: TurnFrame, ghost turn0: seq<Message>)
      returns (completed: bool, answered: nat, ghost turn: seq<Message>)
      requires InTurn(f, turn0, Ids(calls)) && calls != []
      modifies this`log, this`messages, this`historyGeneration
      ensures answered == RunUntil(dispatches, 0, |calls|) && (completed <==> !DispatchAt(dispatches, answered - 1).Aborted?)
      ensures completed ==> answered == |calls|
      ensures InTurn(f, turn, Ids(calls)[answered..])
      ensures turn == turn0 + ResultsOf(calls, dispatches, answered)
    {
      hide InTurn;
      turn := turn0;
      answered := 0;
      completed := true;
      assert Ids(calls)[0..] == Ids(calls);
      assert turn0 + ResultsOf(calls, dispatches, 0) == turn0;
      while answered < |calls|
        invariant answered <= |calls|
        invariant RunUntil(dispatches, 0, |calls|) == RunUntil(dispatches, answered, |calls|)
        invariant answered > 0 ==> !DispatchAt(dispatches, answered - 1).Aborted?
        invariant InTurn(f, turn, Ids(calls)[answered..])
        invariant turn == turn0 + ResultsOf(calls, dispatches, answered)
      {
        var outcome := DispatchAt(dispatches, answered);
        ghost var m := RunCall(calls[answered].id, outcome, f, turn, Ids(calls)[answered..]);
        turn := turn + [m];
        assert Ids(calls)[answered..][1..] == Ids(calls)[answered + 1..];
        assert ResultsOf(calls, dispatches, answered + 1) == ResultsOf(calls, dispatches, answered) + [m];
        answered := answered + 1;
        if outcome.Aborted? {
          return false, answered, turn;
        }
      }
    }

    /** Persists the assistant message of a clean reply, if it says anything. */
    method PersistReply(reply: Reply, calls: seq<ToolRequest>, ghost f: TurnFrame, ghost turn0: seq<Message>)
      returns (ghost turn: seq<Message>)
      requires InTurn(f, turn0, [])
      requires f.honest && smart && S.TITLE <= TrimBlankLines(reply.text) ==> calls == []
      modifies this`log, this`messages, this`historyGeneration
      ensures InTurn(f, turn, Ids(calls))
      ensures turn == turn0 + Spoken(reply, calls)
      ensures calls != [] ==> Spoken(reply, calls) == [AssistantMessage(reply, calls)]
    {
      var m := AssistantMessage(reply, calls);
      AssistantMessageAsks(reply, calls);
      turn := turn0;
      if m.content != [] {
        if f.honest && smart && calls != [] {
          HonestReplyIsNoDigest(reply, calls);
        }
        AppendInTurn(m, f, turn0, []);
        turn := turn0 + [m];
      } else {
        assert Ids(calls) == [];
      }
    }

    method AuditInTurn(kind: AuditKind, ghost f: TurnFrame, ghost turn: seq<Message>, ghost open: seq<string>)
      requires InTurn(f, turn, open)
      modifies this`log
      ensures InTurn(f, turn, open)
    {
      hide Live, IsPrompt, RequestOk, L.NoMimicry, Scan, IsCandidateOf;
      RecordAudit(kind);
    }

    /** Appends a runtime-written user message. */
    method Correct(text: string, why: string, ghost f: TurnFrame, ghost turn0: seq<Message>) returns (ghost turn: seq<Message>)
      requires InTurn(f, turn0, []) && why != RETRIEVAL_MARKER
      modifies this`log, this`messages, this`historyGeneration
      ensures InTurn(f, turn, [])
      ensures turn == turn0 + [SyntheticUser(text, why)]
    {
      var m := SyntheticUser(text, why);
      L.TextIsToolFree(User, text);
      assert m.content == TextMessage(User, text).content;
      AppendInTurn(m, f, turn0, []);
      turn := turn0 + [m];
    }

    /** Opens a turn: the retrieval block is replaced and the user's input appended. */
    method OpenTurn(userInput: string, retrieval: string, ghost honest: bool) returns (ghost f: TurnFrame, ghost turn: seq<Message>)
      requires CacheCoherent() && (honest ==> Valid())
      modifies this`log, this`messages, this`historyGeneration
      ensures InTurn(f, turn, [])
      ensures f.base == old(Transcript(log)) && f.sentBefore == |sent| && !f.shrunk && f.honest == honest
      ensures f.start == Authored(old(messages)) + RetrievalBlock(retrieval)
      ensures f.paired == old(ExactlyPaired(messages))
      ensures turn == [TextMessage(User, userInput)]
    {
      ghost var was := messages;
      SetRetrievalContext(retrieval);
      var m := TextMessage(User, userInput);
      L.TextIsToolFree(User, userInput);
      f := TurnFrame(Transcript(log), messages, ExactlyPaired(was), |sent|, false, honest);
      turn := [m];
      assert turn[1..] == [];
      if honest {
        if f.paired {
          RetrievalKeepsPaired(was, retrieval);
        }
        ScanSnoc(false, messages, m);
        ScanSnoc(true, messages, m);
        JoinKeepsSound(smart, Transcript(log), turn);
      }
      Append(m);
    }

    /** Acts on a reply that arrived whole: persists it and answers its calls. */
    method ActOnReply(reply: Reply, dispatches: seq<Dispatch>, ghost f: TurnFrame, ghost turn0: seq<Message>)
      returns (stop: Option<StopReason>, ghost turn: seq<Message>, ghost open: seq<string>)
      requires InTurn(f, turn0, [])
      requires f.honest && smart ==> !Mimics(reply)
      modifies this`log, this`messages, this`historyGeneration
      ensures InTurn(f, turn, open)
      ensures turn0 <= turn && Act(turn[|turn0|..], stop, false, open) == ActOn(reply, dispatches)
      ensures open != [] ==> stop == Some(Cancelled) && CutShort(turn, open)
    {
      hide InTurn, InvalidToolCalls, WithIds, AssistantMessage, TrimBlankLines, CutShort, Spoken, Rejections, ResultsOf, RunUntil;
      open := [];
      var rejection := InvalidToolCalls(reply.calls);
      var calls := if rejection.Some? then WithIds(reply.calls) else reply.calls;
      turn := PersistReply(reply, calls, f, turn0);
      ghost var spoken := Spoken(reply, calls);
      if rejection.Some? {
        turn := AnswerRejected(calls, rejection.value, f, turn);
        ghost var rejections := Rejections(calls, rejection.value);
        assert turn == turn0 + (spoken + rejections);
        if calls == [] {
          turn := Correct(rejection.value, "tool call rejected", f, turn);
        }
        return None, turn, [];
      }
      if calls == [] {
        assert Ids(calls) == [];
        return Some(Done), turn, [];
      }
      if InvalidToolCalls(calls).Some? {
        // The batch was validated before it was persisted, so this is never reached.
        assert false;
      }
      var completed, answered;
      completed, answered, turn := ExecuteCalls(calls, dispatches, f, turn);
      assert turn == turn0 + (spoken + ResultsOf(calls, dispatches, answered));
      open := Ids(calls)[answered..];
      stop := None;
      if !completed {
        AssistantMessageAsks(reply, calls);
        BatchCutShort(turn0, AssistantMessage(reply, calls), turn, calls, dispatches, answered);
        stop := Some(Cancelled);
      }
    }

    /** Decides what a finished stream means for the turn. */
    method HandleReply(reply: Reply, r: Round, retried: bool, ghost f: TurnFrame, ghost turn0: seq<Message>)
      returns (stop: Option<StopReason>, again: bool, ghost turn: seq<Message>, ghost open: seq<string>)
      requires InTurn(f, turn0, [])
      requires f.honest && smart && reply.end == Ended && !reply.limited && !r.badOutput ==> !Mimics(reply)
      modifies this`log, this`messages, this`historyGeneration, this`compactionCache
      ensures InTurn(if again then f.(shrunk := true) else f, turn, open)
      ensures turn0 <= turn && Act(turn[|turn0|..], stop, again, open) == ReplyAct(reply, r, retried)
      ensures open != [] ==> stop == Some(Cancelled) && CutShort(turn, open)
    {
      hide InTurn, ActOn, CutShort, TrimBlankLines;
      stop, again, turn, open := None, false, turn0, [];
      if reply.end == Interrupted {
        stop := Some(Cancelled);
      } else if reply.end == Stopped {
        stop := Some(ProviderError);
      } else if reply.end == Overflowed {
        again := TryOverflowRetry(retried, r.shrinkDigest, f, turn);
        if !again {
          stop := Some(ProviderError);
        }
      } else if reply.limited {
        stop := Some(ProviderError);
      } else if reply.end == Broken || r.badOutput {
        AuditInTurn(RecoveryDiagnostic, f, turn, []);
        if r.degraded {
          stop := Some(Degraded);
        } else {
          turn := Correct(REPAIR_PROMPT, "repair prompt", f, turn);
        }
      } else {
        stop, turn, open := ActOnReply(reply, r.dispatches, f, turn);
      }
    }

    /** One pass through the turn loop. */
    method RunRound(r: Round, retried: bool, ghost f: TurnFrame, ghost turn0: seq<Message>)
      returns (stop: Option<StopReason>, again: bool, ghost turn: seq<Message>, ghost open: seq<string>)
      requires InTurn(f, turn0, [])
      requires f.honest && smart ==> !CallsAsDigest(r)
      modifies this`log, this`messages, this`historyGeneration, this`compactionCache, this`sent
      ensures InTurn(if again then f.(shrunk := true) else f, turn, open)
      ensures turn0 <= turn && Act(turn[|turn0|..], stop, again, open) == RoundAct(r, retried)
      ensures open != [] ==> stop == Some(Cancelled) && CutShort(turn, open)
      ensures |sent| == |old(sent)| + (if r.cancelled then 0 else 1) && sent[..|old(sent)|] == old(sent)
    {
      hide InTurn, ReplyAct, CutShort, Mimics, C.MergeSystem;
      stop, again, turn, open := None, false, turn0, [];
      if r.cancelled {
        return Some(Cancelled), false, turn, [];
      }
      turn := AdmitSteering(r.steering, f, turn);
      SendRequest(r.digest, f, turn);
      ghost var steered := turn;
      if r.open.OpenCancelled? {
        stop := Some(Cancelled);
      } else if r.open.OpenFailed? {
        stop := Some(ProviderError);
      } else if r.open.OpenOverflow? {
        again := TryOverflowRetry(retried, r.shrinkDigest, f, turn);
        if !again {
          stop := Some(ProviderError);
        }
      } else {
        var reply := ReadStream(r.open.items);
        stop, again, turn, open := HandleReply(reply, r, retried, f, turn);
      }
      assert Act(turn[|steered|..], stop, again, open) == AfterSteering(r, retried);
      assert turn[|turn0|..] == UserTexts(r.steering) + turn[|steered|..];
    }

    /** Closes a turn in the audit log. */
    method Stop(reason: StopReason, ghost f: TurnFrame, ghost turn: seq<Message>, ghost open: seq<string>)
      requires InTurn(f, turn, open) && OrphanFree(f.base) && (f.honest ==> LogsValidBut(f.base))
      modifies this`log
      ensures Transcript(log) == f.base + turn && Scan(true, [], turn) == Some(open)
      ensures Recorded() && RetrievalCount(turn) == 0
      ensures !f.shrunk ==> messages == f.start + turn
      ensures f.honest ==>
                && Valid()
                && Scan(false, [], messages) == Some(open)
                && (f.paired ==> Scan(true, [], messages) == Some(open))
                && forall k :: f.sentBefore <= k < |sent| ==> RequestOk(sent[k], f.paired)
    {
      if reason == Cancelled {
        RecordAudit(TurnCancelled);
      }
      RecordAudit(TurnEnded);
      RetrievalNone(turn);
      JoinKeepsOrphanFree(f.base, turn);
      if f.honest {
        JoinKeepsSound(smart, f.base, turn);
      }
    }

    /** All logs are sound, taking `transcript` for the running session. */
    ghost predicate LogsValidBut(transcript: seq<Message>)
      reads this`archive, this`sessionId, this`nextId
    {
      && Sound(smart, transcript)
      && ArchiveSound(smart, nextId, archive)
      && sessionId < nextId
      && sessionId !in archive
    }

    /** The turn loop: rounds until one ends the turn. */
    method RunRounds(script: seq<Round>, ghost f0: TurnFrame, ghost turn0: seq<Message>)
      returns (reason: StopReason, retries: nat, ghost turn: seq<Message>, ghost open: seq<string>)
      requires InTurn(f0, turn0, []) && !f0.shrunk
      requires f0.honest ==> Honest(smart, script)
      modifies this`log, this`messages, this`historyGeneration, this`compactionCache, this`sent
      ensures InTurn(f0.(shrunk := retries > 0), turn, open) && retries <= 1
      ensures turn == turn0 + Play(script, false).said
      ensures reason == Play(script, false).reason && retries == Play(script, false).retries && open == Play(script, false).open
      ensures open != [] ==> reason == Cancelled && CutShort(turn, open)
      ensures |old(sent)| <= |sent| && sent[..|old(sent)|] == old(sent)
    {
      hide InTurn, CutShort, CallsAsDigest, Play, RoundAct, Continued;
      ContinuedStarts(script);
      ghost var f, said := f0, [];
      turn, open, retries, reason := turn0, [], 0, StillRunning;
      var i := 0;
      assert script[0..] == script && turn0 + [] == turn0;
      while i < |script| && reason == StillRunning
        invariant i <= |script|
        invariant InTurn(f, turn, open) && turn == turn0 + said
        invariant f == f0.(shrunk := retries > 0) && retries <= 1
        invariant open != [] ==> reason == Cancelled && CutShort(turn, open)
        invariant |old(sent)| <= |sent| && sent[..|old(sent)|] == old(sent)
        invariant Play(script, false) == Continued(said, reason, retries, open, script[i..])
      {
        var stop, again;
        ghost var before := turn;
        stop, again, turn, open := RunRound(script[i], retries > 0, f, turn);
        RoundSettles(script[i], retries > 0);
        ghost var act := Act(turn[|before|..], stop, again, open);
        ContinuedStep(script, i, said, act.said, retries, act);
        assert turn == before + act.said;
        assert turn == turn0 + (said + act.said);
        said := said + act.said;
        if again {
          retries := retries + 1;
          f := f.(shrunk := true);
        }
        if stop.Some? {
          reason := stop.value;
        }
        i := i + 1;
      }
      ContinuedEnds(said, reason, retries, open, script[i..]);
    }

    /** Runs one user turn over everything the outside world does in it. */
    method RunTurn(userInput: string, retrieval: string, script: seq<Round>)
      returns (reason: StopReason, retries: nat, ghost turn: seq<Message>, ghost open: seq<string>)
      requires Recorded()
      modifies this`log, this`messages, this`historyGeneration, this`compactionCache, this`sent
      ensures Recorded()
      // What is persisted: the old transcript, then this turn, opened by the user's input.
      ensures Transcript(log) == old(Transcript(log)) + turn
      ensures turn == [TextMessage(User, userInput)] + Play(script, false).said
      ensures reason == Play(script, false).reason && retries == Play(script, false).retries && open == Play(script, false).open
      // Every batch of the turn is answered at once and in order; only a cancelled tool run
      // leaves calls open, and those are a suffix of the last batch.
      ensures Scan(true, [], turn) == Some(open)
      ensures open != [] ==> reason == Cancelled && CutShort(turn, open)
      // It leaves calls open exactly when some round reached runs a valid batch of which a call
      // before the last is aborted.
      ensures open != [] <==> LeavesOpen(script, false)
      // No retrieval block reaches the durable log.
      ensures RetrievalCount(Transcript(log)) == old(RetrievalCount(Transcript(log)))
      // Without an overflow the live history is the old one, retrieval replaced, plus the turn.
      ensures retries == 0 ==> messages == Authored(old(messages)) + RetrievalBlock(retrieval) + turn
      ensures retries <= 1 && |old(sent)| <= |sent| && sent[..|old(sent)|] == old(sent)
      // As long as no smart digest can take the place of a reply, the session stays valid, the live
      // history inherits the pairing of the turn, and every request sent was paired.
      ensures old(Valid()) && Honest(smart, script) ==>
                && Valid()
                && Scan(false, [], messages) == Some(open)
                && (old(ExactlyPaired(messages)) ==> Scan(true, [], messages) == Some(open))
                && forall k :: |old(sent)| <= k < |sent| ==> RequestOk(sent[k], old(ExactlyPaired(messages)))
    {
      hide InTurn, Live, CutShort, RequestOk, Sound, Honest, Play, LeavesOpen;
      ghost var f;
      f, turn := OpenTurn(userInput, retrieval, old(Valid()) && Honest(smart, script));
      reason, retries, turn, open := RunRounds(script, f, turn);
      Stop(reason, f.(shrunk := retries > 0), turn, open);
      PlayOpensExactlyWhen(script, false);
      RetrievalConcat(f.base, turn);
    }
  }

  /** The durable log of a session holds no retrieval block until it is forked while one is live. */
  method ForkLeaksRetrieval() returns (s: SessionRuntime)
    ensures s.Valid() && RetrievalCount(Transcript(s.log)) == 1
  {
    var setup := TextMessage(System, "setup");
    SetupIsPrompt(setup);
    EmptyIsSound(false);
    s := new SessionRuntime(setup, [], 4096, false);
    s.SetRetrievalContext("looked up");
    assert RetrievalCount(Transcript(s.log)) == 0;
    s.ForkSession();
  }

  lemma {:induction false} SetupIsPrompt(m: Message)
    requires m == TextMessage(System, "setup")
    ensures IsPrompt(m)
  {
    L.TextIsToolFree(System, "setup");
    assert |"setup"| < |S.TITLE|;
  }

  /** About half of what the history holds, never below the floor. */
  function OverflowTarget(ms: seq<Message>): nat {
    var half := Tokens(ms) / 2;
    if half > FORCE_COMPACT_FLOOR then half else FORCE_COMPACT_FLOOR
  }

  /** An overflow aims at half of what the history holds, but at no less than the floor; so there is something to shed
      exactly when the history holds more than the floor. */
  lemma {:induction false} OverflowHalves(ms: seq<Message>)
    ensures var target := OverflowTarget(ms);
            && target >= FORCE_COMPACT_FLOOR == 4096
            && (target > FORCE_COMPACT_FLOOR ==> 2 * target <= Tokens(ms) <= 2 * target + 1)
            && (target == FORCE_COMPACT_FLOOR ==> Tokens(ms) <= 2 * FORCE_COMPACT_FLOOR + 1)
    ensures !Fits(ms, OverflowTarget(ms)) <==> Tokens(ms) > FORCE_COMPACT_FLOOR
  {
    hide Tokens;
  }

  lemma {:induction false} ResultAdvances(open: seq<string>, m: Message)
    requires open != [] && Answers(m, open[0])
    ensures Advance(true, open, m) == Some(open[1..])
    ensures UseIds(m.content) == []
  {
    assert m.content[0].ToolResult?;
    assert UseIds(m.content[1..]) == [];
  }

  function RetrievalBlock(text: string): seq<Message> {
    if text == "" then [] else [Message(System, [Text(text)], Some(RETRIEVAL_MARKER))]
  }

  lemma {:induction false} RetrievalBlockIsPlain(text: string)
    ensures ToolFree(Message(System, [Text(text)], Some(RETRIEVAL_MARKER)))
  {
    var content := [Text(text)];
    assert UseIds(content[1..]) == [];
  }

  /** A message the strict reading accepts next keeps a live history live and moves both readings alike. */
  lemma {:induction false} LiveAppend(smart: bool, prompt: Message, ms: seq<Message>, open: seq<string>, m: Message)
    requires Live(smart, prompt, ms) && Scan(false, [], ms) == Some(open)
    requires Advance(true, open, m).Some? && !IsRetrieval(m)
    requires smart && S.IsSummaryMessage(m) ==> UseIds(m.content) == []
    ensures Live(smart, prompt, ms + [m])
    ensures Scan(false, [], ms + [m]) == Advance(true, open, m)
    ensures Scan(true, [], ms) == Some(open) ==> Scan(true, [], ms + [m]) == Advance(true, open, m)
  {
    assert Advance(false, open, m) == Advance(true, open, m);
    hide Advance;
    ScanSnoc(false, ms, m);
    ScanSnoc(true, ms, m);
    AppendKeepsSound(smart, ms, m);
  }

  /** Replacing the retrieval block keeps a live history live. */
  lemma {:induction false} RetrievalKeepsLive(smart: bool, prompt: Message, ms: seq<Message>, text: string)
    requires IsPrompt(prompt) && Live(smart, prompt, ms)
    ensures Live(smart, prompt, Authored(ms) + RetrievalBlock(text))
  {
    EvictKeepsSound(smart, ms);
    assert Authored(ms)[0] == prompt;
    if text == "" {
      assert Authored(ms) + RetrievalBlock(text) == Authored(ms);
    } else {
      RetrievalBlockIsPlain(text);
      ScanSnoc(false, Authored(ms), RetrievalBlock(text)[0]);
      AppendKeepsSound(smart, Authored(ms), RetrievalBlock(text)[0]);
    }
  }

  lemma {:induction false} SingleNoMimicry(m: Message)
    requires S.IsSummaryMessage(m) ==> UseIds(m.content) == []
    ensures L.NoMimicry([m])
  {
  }

  lemma {:induction false} NothingToEvict(ms: seq<Message>)
    ensures RetrievalCount(ms) == 0 <==> Authored(ms) == ms
  {
    if ms != [] {
      NothingToEvict(ms[1..]);
      if IsRetrieval(ms[0]) {
        AuthoredIsPlain(ms);
      } else {
        assert Authored(ms)[1..] == Authored(ms[1..]);
      }
    }
  }

  /** The leading system messages, digests removed: what clearing keeps. */
  function LeadingSetup(ms: seq<Message>): seq<Message> {
    SetupOf(ms[..C.SystemCount(ms)])
  }

  function SetupOf(system: seq<Message>): seq<Message> {
    if system == [] then []
    else (if MentionsDigest(system[0]) then [] else [system[0]]) + SetupOf(system[1..])
  }

  /** Message by message, clearing keeps the leading system messages that do not mention a digest. */
  lemma {:induction false} SetupIsKept(system: seq<Message>, m: Message)
    ensures SetupOf(system + [m]) == SetupOf(system) + if MentionsDigest(m) then [] else [m]
    ensures SetupOf([]) == []
  {
    hide MentionsDigest;
    var all := system + [m];
    if system == [] {
      assert all == [m] && all[1..] == [];
    } else {
      SetupIsKept(system[1..], m);
      assert all[1..] == system[1..] + [m] && all[0] == system[0];
    }
  }

  lemma {:induction false} SetupSubsequence(system: seq<Message>)
    ensures L.Subsequence(SetupOf(system), system)
  {
    if system != [] {
      SetupSubsequence(system[1..]);
      var r := SetupOf(system);
      if !MentionsDigest(system[0]) {
        assert r[0] == system[0] && r[1..] == SetupOf(system[1..]);
      } else {
        assert r == SetupOf(system[1..]);
        L.SubsequenceExtend(r, [system[0]], system[1..]);
        assert [system[0]] + system[1..] == system;
      }
    }
  }

  lemma {:induction false} LeadingSetupIsLive(smart: bool, prompt: Message, ms: seq<Message>)
    requires IsPrompt(prompt) && Live(smart, prompt, ms)
    ensures Live(smart, prompt, LeadingSetup(ms))
  {
    hide MentionsDigest, C.SystemCount;
    var n := C.SystemCount(ms);
    var setup := LeadingSetup(ms);
    L.ScanOfBody(false, ms);
    SetupSubsequence(ms[..n]);
    forall i | 0 <= i < |setup| ensures setup[i] in ms && setup[i].role == System && ToolFree(setup[i]) {
      L.SubsequenceMember(setup, ms[..n], setup[i]);
    }
    ScanToolFree(false, setup);
    RetrievalMono(setup, ms[..n]);
    RetrievalConcat(ms[..n], ms[n..]);
    assert ms == ms[..n] + ms[n..];
    if smart {
      NoMimicrySubset(setup, ms);
    }
    assert ms[..n][0] == prompt;
  }

  /** `turn` ends with an assistant message whose calls were answered in order up to `open`. */
  ghost predicate CutShort(turn: seq<Message>, open: seq<string>) {
    exists i :: 0 <= i < |turn| && CutShortAt(turn, i, open)
  }

  ghost predicate CutShortAt(turn: seq<Message>, i: nat, open: seq<string>)
    requires i < |turn|
  {
    var batch := UseIds(turn[i].content);
    var answered := |turn| - 1 - i;
    && turn[i].role == Assistant
    && answered <= |batch|
    && open == batch[answered..]
    && forall k :: 0 <= k < answered ==> Answers(turn[i + 1 + k], batch[k])
  }

  lemma {:induction false} BatchCutShort(
      before: seq<Message>, m: Message, turn: seq<Message>, calls: seq<ToolRequest>, dispatches: seq<Dispatch>, answered: nat)
    requires answered <= |calls| && turn == before + ([m] + ResultsOf(calls, dispatches, answered))
    requires m.role == Assistant && UseIds(m.content) == Ids(calls)
    ensures CutShort(turn, Ids(calls)[answered..])
  {
    assert turn[|before|] == m;
    forall k | 0 <= k < answered ensures Answers(turn[|before| + 1 + k], Ids(calls)[k]) {
      assert turn[|before| + 1 + k] == ResultsOf(calls, dispatches, answered)[k];
    }
    assert CutShortAt(turn, |before|, Ids(calls)[answered..]);
  }

  lemma {:induction false} RetrievalKeepsPaired(ms: seq<Message>, text: string)
    requires ExactlyPaired(ms)
    requires forall i :: 0 <= i < |ms| && IsRetrieval(ms[i]) ==> ToolFree(ms[i])
    ensures ExactlyPaired(Authored(ms) + RetrievalBlock(text))
  {
    EvictKeepsPairing(true, [], ms);
    RetrievalBlockIsPlain(text);
    if text == "" {
      assert Authored(ms) + RetrievalBlock(text) == Authored(ms);
    } else {
      ScanSnoc(true, Authored(ms), RetrievalBlock(text)[0]);
    }
  }
}
