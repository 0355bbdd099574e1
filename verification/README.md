# LocalPilot, modelled and proved

LocalPilot is an agent harness: it talks to a language model, runs the tools the model calls, keeps the
conversation inside a context window, and works a written plan step by step. This project models the parts
whose correctness is not visible from any single function, and proves what they promise.

- **Conversation** (`Messages`, `Summary`, `Compaction`, `Compactor`, `CompactionLaws`, `DigestLaws`, `EstimateLaws`,
  `AnsweredLaws`). A history is a list of messages made of text, reasoning, tool-call and tool-result blocks. A
  pairing automaton (`Messages.Scan`) reads a history from left to right and keeps the calls still unanswered; read
  loosely it accepts every history without orphaned results, read strictly only histories in which each batch of calls
  is answered at once and in order. A history is *exactly paired* when the strict reading ends with nothing open.
  `Compaction` is the specification of the compaction plan, `Compactor` the loops that compute it, `CompactionLaws`
  what it guarantees, `DigestLaws` what the digest of the dropped part tells, `EstimateLaws` what sizes count,
  `AnsweredLaws` what becomes of histories in which a batch was abandoned.
- **Session loop** (`Session`, `TurnLaws`, `ReplyLaws`, `History`, `Runtime`). `SessionRuntime` is the object of
  `session.rs`: live messages, durable log, generation-keyed compaction cache, stored sessions. `Valid()` is the
  invariant every public operation keeps. A `Round` holds everything the outside world does in one pass of the turn
  loop, so `RunTurn` is proved for every sequence of provider events, rejections, repairs, steering, overflows and
  cancellations. `Session.Play` says what a turn persists as a function of such a script alone, and `ReplyLaws` tells
  it from the events of the streams.
- **Wire** (`AnthropicWire`, `WireLaws`, `WireSafety`). The translation of a history into alternating turns, and
  exactly when what the loop sends is acceptable to the provider.
- **Streaming decoders** (`Events`, `ThinkFilter`, `Showing`, `SseLines`, `OpenAiStream`, `OpenAiTools`,
  `OpenAiCalls`, `OpenAiText`, `OpenAiLaws`, `OpenAiDecoder`, `AnthropicStream`, `AnthropicLaws`, `AnthropicCalls`,
  `AnthropicText`). The online `<think>` filter, the line layer both server-sent event decoders share, and the
  decoders themselves: which calls, which text and which usage they emit. JSON and UTF-8 decoding are parameters
  (`Codec`).
- **Context packs** (`Sorting`, `Pack`, `PackLaws`, `PackScores`). The allocator that lets candidates compete for a
  token budget.
- **Calendar** (`Calendar`). Two conversions between day counts and dates, written independently of each other.
- **Ingestion** (`TextLines`, `Chunking`, `Preview`, `Ingest`, `IngestLaws`, `IngestRuns`). Cutting files into chunks,
  the budgets of a walk, and incremental refreshes over a store of chunks.
- **Plan documents and the step loop** (`Markup`, `Progress`, `ProgressReads`, `ProgressLaws`, `Decisions`,
  `DecisionsReads`, `DecisionsLaws`, `Rules`, `RuleLaws`, `Worker`, `GateLaws`, `Resume`, `ResumeLaws`, `StopLaws`).
  `PROGRESS.md` and `DECISIONS.md` as texts, the rules that gate a step, the retry budget, and a resume from the texts
  it reads to the texts it writes.

`Wrappers`, `Numbers` and `Text` hold result types, machine integers and string operations shared by all.

Where the source does its work in loops over mutable state the model has methods and classes, each proved equal to a
specification function; the laws are lemmas about those functions.

Some results differ from what the source says of itself; the model follows the code:

- A cancellation inside a batch of calls answers only the running call
  (`crates/localpilot-harness/src/session.rs:1253-1273`), although the comment at lines 1126-1129 promises an answer
  on every exit path. `RunTurn` states what is left open, a suffix of the last batch, and `PlayOpensExactlyWhen` exactly
  which turns leave it: those that reach a valid batch of which a call before the last is aborted.
  `AbortLeavesCallOpen` is such a turn. `HistoryAcceptedExactlyWhen` says which later requests the provider still
  accepts, and `AbandonedBatchIsRefused` that none is while the history fits.
- `civil_from_days` shifts a negative count as for a truncating division and then floors
  (`crates/localpilot-harness/src/decisions.rs:171-176`), so most dates before 0000-03-01 come out one day late.
  `CivilRoundTrip` gives the exact set, `LateBeforeTheEpoch` some of its members.
- Clipping a tool output can make it longer, because the ellipsis and the marker may outweigh what was cut
  (`crates/localpilot-harness/src/compaction.rs:382-400`); `ClipGrowsExactlyWhen` gives the exact set,
  `ClippedOutputGrows` one of its members.
- The smart cutover finds the digest by its first words, whatever the role
  (`crates/localpilot-harness/src/compaction.rs:320-339`); `CandidateKeepsPairingExactlyWhen` says
  when what the session adopts keeps its pairing, `InjectedIsSafe` that it does wherever the plan carries a digest of
  its own, and `MimicryLosesPairing` gives histories that lose it, for every
  limit and digest.
- A file that changes and changes back keeps the mark that it was superseded
  (`crates/localpilot-localmind/src/ingest.rs:398-406`); see `RevivedKeepsMark` and `RefreshIsRebuildExactlyWhen`.
- The `[DONE]` line flushes tool calls even after the output limit was hit
  (`crates/localpilot-llm/src/openai.rs:544-547`); `LimitedCallsExactlyWhen` says which streams emit a
  call after the limit, `OutputLimitSilencesTools` that none does unless a fragment follows it, and
  `LateFragmentEscapesLimit` is a stream that does.
- A digest is meant to be carried into the next compaction (`crates/localpilot-harness/src/compaction.rs:126-158`), but it
  is read back line by line, so an entry of several lines comes back as several; `DigestLaws.CarriedExactlyWhen` says
  which digests return word for word.
- A refresh that runs out of time marks the chunks of every file it did not reach stale, as superseded by the very
  content they hold (`crates/localpilot-localmind/src/ingest.rs:387-439`); see `UnreachedIsSetAside`.
- The manifest's over-budget flags can never be set, because only files that fit are added up
  (`crates/localpilot-localmind/src/ingest.rs:309-327`); see `JudgeWalk` and `TakenFits`.
- The gate is always told that one attempt was made (`crates/localpilot-harness/src/resume.rs:206-212`), so with a
  cap of one attempt an enforced `attempt_limit` blocks every step (`CommittableExactlyWhen`), and a committed step is
  always recorded with one attempt (`CommitTicksPlan`).
- `PROGRESS.md` is described as rendered losslessly (`crates/localpilot-harness/src/progress.rs:5`); metadata on open
  steps is dropped. `ProgressLaws.RoundTripExactlyWhen` gives the exact set, `OpenCommitIsLost` one document.
  `DecisionsLaws.RoundTripExactlyWhen` does the same for `DECISIONS.md`, with `UntitledIsLost`, and `ReplanIsRecorded`
  for a log a replan is added to.
- A fork re-records the retrieval block that is otherwise kept out of the durable log
  (`crates/localpilot-harness/src/session.rs:399-416`); `ForkSession` leaves as many in the log as the live
  history holds, `RunTurn` and `SetRetrievalContext` add none, and `ForkLeaksRetrieval` is a session that
  ends up with one.

## Model

| member | source | states |
|---|---|---|
| Compactor.RetainSystem | crates/localpilot-harness/src/compaction.rs:126-147 | the leading system messages without earlier digests, and the entries those digests carried |
| Compactor.GroupExchanges | crates/localpilot-harness/src/compaction.rs:160-170 | the loop computes the grouping that `GroupPartitions` characterises |
| Compactor.DropUntilBareFits | crates/localpilot-harness/src/compaction.rs:172-185 | the first drop loop splits the exchanges and never passes the least drop point of the two loops together |
| Compactor.DropOldestExchanges | crates/localpilot-harness/src/compaction.rs:172-197 | both drop loops stop at the least drop point, with the digest of what was dropped |
| Compactor.SplitOversizedExchange | crates/localpilot-harness/src/compaction.rs:348-378 | the first legal cut whose suffix fits, or none |
| Compactor.SplitIfOversized | crates/localpilot-harness/src/compaction.rs:199-214 | the split moves the cut prefix to the dropped part and refreshes the digest |
| Compactor.ShrinkToFit | crates/localpilot-harness/src/compaction.rs:217-232 | the first of the ever smaller digests that fits, or no digest |
| Compactor.ClipOutputs | crates/localpilot-harness/src/compaction.rs:382-404 | every long tool output of a message is clipped and counted |
| Compactor.TruncateOldestToolResults | crates/localpilot-harness/src/compaction.rs:382-404 | in place, oldest first, exactly up to the first point where the conversation fits |
| Compactor.CompactHistory | crates/localpilot-harness/src/compaction.rs:108-276 | the whole plan, loop by loop, is the specification `CompactPlan` |
| Compactor.MergeConsecutiveSystem | crates/localpilot-harness/src/compaction.rs:411-422 | the in-place fold of adjacent system messages is `MergeSystem` |
| CompactionLaws.GroupPartitions | crates/localpilot-harness/src/compaction.rs:160-170 | grouping partitions the body at its user messages, losing and reordering nothing |
| CompactionLaws.DropPointIsLeast | crates/localpilot-harness/src/compaction.rs:172-197 | the two drop loops find the least number of exchanges to drop such that the rest with its digest fits, or keep only the last |
| CompactionLaws.SplitKeepsLongest | crates/localpilot-harness/src/compaction.rs:348-378 | a split keeps the longest fitting suffix that starts at a sub-turn boundary; it fails only if none fits |
| CompactionLaws.CompactionConserves | crates/localpilot-harness/src/compaction.rs:160-214 | dropped and kept messages are exactly the body messages, each once, in order in each part |
| CompactionLaws.CompactionKeepsPairing | crates/localpilot-harness/src/compaction.rs:108-276 | for every history and limit, whichever reading accepts the input accepts the output, with the same calls open at the end |
| CompactionLaws.SplitForcesFit | crates/localpilot-harness/src/compaction.rs:199-232 | a successful split always ends in a projection within budget, whatever the digest then costs |
| CompactionLaws.ShrinkDigestFits | crates/localpilot-harness/src/compaction.rs:217-232 | a retried digest is injected only if it fits |
| CompactionLaws.OverBudgetMeansExhausted | crates/localpilot-harness/src/compaction.rs:174-242 | the output is over budget only when at most one exchange is left, no digest is injected if anything was dropped, and every tool output is at its floor |
| CompactionLaws.TruncationIsMinimal | crates/localpilot-harness/src/compaction.rs:234-242 | no output is clipped after the conversation fits |
| CompactionLaws.ClipOutputIsIdempotent | crates/localpilot-harness/src/compaction.rs:386-396 | clipping an already clipped output changes nothing |
| CompactionLaws.ClipGrowsExactlyWhen | crates/localpilot-harness/src/compaction.rs:386-396 | clipping lengthens an output exactly when the part cut off is shorter than the ellipsis and marker put in its place |
| CompactionLaws.ClippedOutputGrows | crates/localpilot-harness/src/compaction.rs:386-396 | an output one character over the threshold gets longer |
| CompactionLaws.NewestTurnIsKept | crates/localpilot-harness/src/compaction.rs:174-214 | the opening message of the newest exchange is always kept and opens the last kept exchange |
| CompactionLaws.CutoverKeepsPairing | crates/localpilot-harness/src/compaction.rs:283-335 | swapping in a smart digest for a message that called no tools leaves both readings as they were, in any history without orphans |
| CompactionLaws.CutoverKeepsPairingExactlyWhen | crates/localpilot-harness/src/compaction.rs:320-339 | on exactly paired histories the swap keeps exact pairing if and only if the message replaced called no tools |
| CompactionLaws.CutoverReplacesInjectedDigest | crates/localpilot-harness/src/compaction.rs:320-335 | when a digest was injected the cutover replaces exactly it and nothing else |
| CompactionLaws.SmartNeverWorsens | crates/localpilot-harness/src/compaction.rs:278-318 | a smart digest is adopted only within budget, changes one digest message, and otherwise leaves the plan as it was |
| CompactionLaws.CandidateKeepsPairing | crates/localpilot-harness/src/compaction.rs:108-335 | the candidate the session adopts, smart or not, keeps the pairing of its input, unless the message a smart digest replaces called tools |
| CompactionLaws.CandidateKeepsPairingExactlyWhen | crates/localpilot-harness/src/compaction.rs:108-335 | an exactly paired history stays exactly paired if and only if no smart digest is adopted or the message it replaces called no tools |
| CompactionLaws.InjectedIsSafe | crates/localpilot-harness/src/compaction.rs:217-335 | where the history fits or the plan carries a digest of its own, a smart digest never replaces a message that called tools |
| CompactionLaws.NoMimicryIsSafe | crates/localpilot-harness/src/compaction.rs:320-339 | nor does it where no message that begins with the digest title calls tools |
| CompactionLaws.MimicryLosesPairing | crates/localpilot-harness/src/compaction.rs:320-339 | for every limit and every smart digest with room under it, exactly paired histories whose candidate is not: a reply that begins with the title calls a tool with an oversized input, and only the smart digest fits in its place |
| CompactionLaws.MergeFolds | crates/localpilot-harness/src/compaction.rs:406-422 | no two system messages stay adjacent, no block is lost, added or moved, every other message stays |
| CompactionLaws.MergeFoldsRuns | crates/localpilot-harness/src/compaction.rs:406-422 | each message sent stands for one maximal run of adjacent system messages or one other message, with the blocks of its run in order and everything else of the run's first message |
| CompactionLaws.MergeIsIdempotent | crates/localpilot-harness/src/compaction.rs:406-422 | folding twice is folding once |
| CompactionLaws.MergeKeepsPairing | crates/localpilot-harness/src/compaction.rs:406-422 | folding is invisible to the pairing automaton in either reading, in any history without orphans |
| AnsweredLaws.PairedExactlyWhen | crates/localpilot-harness/src/session.rs:1126-1129 | a history without orphans that leaves nothing open is exactly paired if and only if every batch of calls in it is answered at once and in order |
| AnsweredLaws.OpenStaysUnanswered | crates/localpilot-harness/src/session.rs:1253-1273 | calls a turn left open stay unanswered whatever is said next |
| AnsweredLaws.RequestPairedExactlyWhen | crates/localpilot-harness/src/session.rs:935-958 | the request made of such a history is exactly paired if and only if every batch the compaction keeps was answered |
| DigestLaws.SummaryDescribes | crates/localpilot-harness/src/compaction.rs:801-829 | an exchange's entry says what its first user message asked, shortened, and names every tool called, in order; it has none when there is neither |
| DigestLaws.DigestTells | crates/localpilot-harness/src/compaction.rs:438-473 | a digest lists what earlier digests carried and then one entry for each of the most recent dropped exchanges that has one, in order; only the oldest lines are lost to the cap of eight |
| DigestLaws.DropsAsNeeded | crates/localpilot-harness/src/compaction.rs:172-197 | exchanges are dropped, oldest first, only as long as more than one is left and the rest does not fit with the full digest of what was dropped |
| DigestLaws.SplitsAsNeeded | crates/localpilot-harness/src/compaction.rs:199-214 | an exchange is split only when it is the last, opened by the user, and does not fit as it is, and then at the first sub-turn boundary from which its rest fits |
| DigestLaws.ChosenIsLargest | crates/localpilot-harness/src/compaction.rs:187-232 | the digest sent is the largest of the five sizes that fits |
| DigestLaws.PlanTells | crates/localpilot-harness/src/compaction.rs:108-276 | over every history that is compacted, the message behind the setup is that digest of exactly the exchanges dropped, or there is none because none fits or nothing was dropped or carried |
| DigestLaws.NewestIsLast | crates/localpilot-harness/src/compaction.rs:449-455 | the last entry is that of the newest dropped exchange that has one |
| DigestLaws.CarriedExactlyWhen | crates/localpilot-harness/src/compaction.rs:126-158 | a digest returns entry by entry, word for word, exactly when no entry holds a line break, begins like a bullet or ends, before another, in a carriage return |
| EstimateLaws.EstimateCounts | crates/localpilot-harness/src/compaction.rs:24-41 | the estimate is a quarter of the UTF-8 length of all texts, reasoning, call names and inputs, and results put together |
| EstimateLaws.PlanReports | crates/localpilot-harness/src/compaction.rs:234-276 | the plan counts the messages it keeps, the digest aside, and as truncated exactly the outputs longer than 240 characters before the point where the conversation first fits |
| History.CandidateKeepsLive | crates/localpilot-harness/src/session.rs:849-885 | adopting any compaction of a live history keeps it live: same setup prompt, at most one retrieval block, no orphan, the same calls open |
| History.CandidateRetrievals | crates/localpilot-harness/src/session.rs:668-701 | compaction never multiplies retrieval blocks |
| History.EvictKeepsPairing | crates/localpilot-harness/src/session.rs:680-701 | evicting the previous retrieval block keeps what the automaton accepted |
| History.TailIsSound | crates/localpilot-harness/src/session.rs:394-420 | the history re-recorded by a fork is a sound transcript |
| History.PromptedIsLive | crates/localpilot-harness/src/session.rs:366-385 | a sound transcript behind the setup prompt is a live history |
| Session.ReadStream | crates/localpilot-harness/src/session.rs:974-1063 | the event loop collects text, reasoning and calls in order and knows how the stream ended |
| Session.AssistantMessageAsks | crates/localpilot-harness/src/session.rs:1141-1164 | the persisted assistant message asks for exactly the validated calls, in order, and answers none |
| Runtime.SessionRuntime.constructor | crates/localpilot-harness/src/session.rs:279-322 | a new session holds the prompt and the seed and has an empty transcript; with a sound seed it satisfies the invariant |
| Runtime.SessionRuntime.Append | crates/localpilot-harness/src/session.rs:809-821 | persisted and kept alike, a new generation; the invariant is kept for every message that answers no call but the next open one |
| Runtime.SessionRuntime.AppendNote | crates/localpilot-harness/src/session.rs:665-667 | a system note is always welcome: persisted, kept, the invariant kept |
| Runtime.SessionRuntime.SetRetrievalContext | crates/localpilot-harness/src/session.rs:668-701 | in any session the old block is replaced by the new one and the durable transcript stays as it is; the generation stays exactly if nothing changed and no block was there; validity is kept |
| Runtime.SessionRuntime.CompactCandidate | crates/localpilot-harness/src/session.rs:849-885 | the deterministic plan, or its smart cutover |
| Runtime.SessionRuntime.CompactedHistory | crates/localpilot-harness/src/session.rs:825-843 | the plan returned is a compaction of the current messages and is cached under the current generation; an unchanged history is not recompacted |
| Runtime.SessionRuntime.CachedPlanIsCurrent | crates/localpilot-harness/src/session.rs:823-843 | in deterministic mode, after any public operations, a cache entry of the current generation equals recompacting the current messages |
| Runtime.SessionRuntime.CompactConversation | crates/localpilot-harness/src/session.rs:568-589 | the live history becomes a compaction of itself; the durable log is untouched |
| Runtime.SessionRuntime.CompactConversationForce | crates/localpilot-harness/src/session.rs:592-619 | the same against half the limit, never below the floor |
| Runtime.SessionRuntime.ClearConversation | crates/localpilot-harness/src/session.rs:526-542 | only the leading setup messages stay; the log keeps the conversation |
| Runtime.SessionRuntime.StartNewSession | crates/localpilot-harness/src/session.rs:347-356 | a fresh id and an empty transcript behind the setup messages |
| Runtime.SessionRuntime.LoadSession | crates/localpilot-harness/src/session.rs:358-385 | the live history is the prompt and the stored transcript, of the running session as of any other, and logging goes on there |
| Runtime.SessionRuntime.ForkSession | crates/localpilot-harness/src/session.rs:387-420 | the new session's log alone rebuilds the live history, and holds as many retrieval blocks as it does |
| Runtime.ForkLeaksRetrieval | crates/localpilot-harness/src/session.rs:399-416 | a session whose retrieval block reaches the durable log by a fork |
| Runtime.SessionRuntime.SendRequest | crates/localpilot-harness/src/session.rs:935-958 | the one request sent is the folded compaction of the current history, cached for it; it is exactly paired if and only if every batch the compaction keeps was answered |
| Runtime.SessionRuntime.TryOverflowRetry | crates/localpilot-harness/src/session.rs:759-796 | the first overflow of a turn replaces the history by its compaction to about half, never below the floor, and retries; a second does neither |
| Runtime.OverflowHalves | crates/localpilot-harness/src/session.rs:780-783 | the target of that retry is half of what the history holds or the floor, so there is something to shed exactly when the history holds more than the floor |
| Runtime.SessionRuntime.AdmitSteering | crates/localpilot-harness/src/session.rs:929-933 | every queued text is appended as a user message, in order, where no call is open |
| Runtime.SessionRuntime.AnswerRejected | crates/localpilot-harness/src/session.rs:1166-1188 | every persisted call of a rejected batch is answered with the rejection, in order |
| Runtime.SessionRuntime.ExecuteCalls | crates/localpilot-harness/src/session.rs:1206-1325 | each call is answered in order with what the registry says; an abort answers the running call and leaves exactly the later ones open |
| Runtime.SessionRuntime.ActOnReply | crates/localpilot-harness/src/session.rs:1126-1204 | validation before persistence makes the second validation unreachable; what stays open is a suffix of the batch just persisted |
| Runtime.SessionRuntime.RunRound | crates/localpilot-harness/src/session.rs:924-1326 | one pass of the loop says, stops, retries and leaves open exactly what `RoundAct` says, sends at most one request, and keeps what `RunTurn` promises |
| Runtime.SessionRuntime.RunTurn | crates/localpilot-harness/src/session.rs:904-1327 | over every run, whatever the model replies: the log grows by the user's input and exactly what `Play` says, no retrieval block among it, and never holds an orphaned result; each batch is followed at once by its results in order; nothing is left open unless the turn ends cancelled, and then a suffix of the last batch, exactly when some round reached runs a valid batch of which a call before the last is aborted; at most one overflow retry. Unless a smart digest could take the place of a reply, the session stays valid, the live history has the same calls open, and every request sent is paired |
| Runtime.SessionRuntime.RunRounds | crates/localpilot-harness/src/session.rs:922-1327 | the turn loop plays the script as `Play` does, with at most one overflow retry |
| TurnLaws.ResultsClose | crates/localpilot-harness/src/session.rs:1206-1325 | the results appended for a batch close its calls one by one, in order |
| TurnLaws.RoundIsPaired | crates/localpilot-harness/src/session.rs:924-1326 | whatever happens in a round, what it says is paired but for the calls it leaves open, and it leaves calls open only when it ends the turn cancelled |
| TurnLaws.ActOnOpensExactlyWhen | crates/localpilot-harness/src/session.rs:1126-1325 | acting on a reply leaves calls open exactly when the batch is valid and a call before its last is aborted, and leads to another round exactly when the batch is rejected or runs through |
| TurnLaws.RoundOpensExactlyWhen | crates/localpilot-harness/src/session.rs:924-1326 | a round leaves calls open exactly when it reads such a batch whole, and leads to another exactly for a first overflow, a repair, a rejected batch or one that ran through |
| TurnLaws.PlayIsPaired | crates/localpilot-harness/src/session.rs:922-1327 | over every script a turn's messages are paired but for what a cancelled tool run left open; at most one overflow is retried |
| TurnLaws.PlayOpensExactlyWhen | crates/localpilot-harness/src/session.rs:922-1327 | a turn leaves calls open exactly when some round does and every round before it leads to the next |
| TurnLaws.AbortLeavesCallOpen | crates/localpilot-harness/src/session.rs:1126-1129 | a turn of two calls, the first aborted, that persists the second and never answers it |
| ReplyLaws.ReplyIs | crates/localpilot-harness/src/session.rs:974-1063 | for every stream, up to its first ending event: the reply's text is all text deltas joined in order, its reasoning all reasoning deltas, its calls all calls, limited exactly if a limit was told, and its end is what that event means |
| ReplyLaws.TrimsBreaks | crates/localpilot-harness/src/session.rs:1141-1155 | what is persisted of a text is it without the line breaks at its two ends; there is one such text |
| ReplyLaws.ValidationSays | crates/localpilot-harness/src/session.rs:1126-1140 | a batch passes validation exactly when every call has an id, a name and an object for input; otherwise the reason is that of its first bad call |
| ReplyLaws.RoundSays | crates/localpilot-harness/src/session.rs:924-1325 | a round whose stream arrives whole persists, behind what was steered in, the joined reasoning and text of the stream and its calls in order, and answers each call with what its tool gave, up to the first aborted; it ends the turn exactly when there is no call or one is aborted |
| ReplyLaws.RoundRefuses | crates/localpilot-harness/src/session.rs:1126-1188 | a batch with a bad call is refused as a whole: every call with an id is persisted and answered with the reason, and the turn goes on |
| ReplyLaws.RoundOtherwise | crates/localpilot-harness/src/session.rs:924-1125 | every other round persists nothing of its stream, and asks for a repair, retries or ends the turn as its end demands |
| ReplyLaws.RoundGivesUp | crates/localpilot-harness/src/session.rs:924-1098 | a round cancelled before it starts says nothing; one that hits the output limit persists nothing of its stream and ends the turn |
| ReplyLaws.PlaySays | crates/localpilot-harness/src/session.rs:922-1327 | a turn says what its rounds say, in order, up to and including the first that ends it, and ends as that one does |
| AnthropicWire.TranslateMessages | crates/localpilot-llm/src/anthropic.rs:219-254 | the loop, extending the last turn in place, builds the specified system string and turns |
| AnthropicWire.WireFormIsPaired | crates/localpilot-llm/src/anthropic.rs:219-254 | exactly paired histories become strictly alternating turns; calls t1..tk of an assistant turn are answered by a user turn whose first k blocks are the results of t1..tk |
| AnthropicWire.WireKeepsOrder | crates/localpilot-llm/src/anthropic.rs:219-304 | every translatable block is sent exactly once and in order |
| AnthropicWire.ToolTurnsStayBlocks | crates/localpilot-llm/src/anthropic.rs:256-270 | collapsing text to a string never touches a turn with a call or a result |
| WireLaws.WireComesThrough | crates/localpilot-llm/src/anthropic.rs:219-304 | read back, the turns say every block that may be sent, unchanged, once, in order, and on the side of whoever said it |
| WireLaws.PromptSays | crates/localpilot-llm/src/anthropic.rs:219-231 | the system prompt is the texts of the leading system messages, a line each, from the first that says anything |
| WireLaws.TextTurnsJoin | crates/localpilot-llm/src/anthropic.rs:256-270 | a turn is sent as one string exactly when all of it is text, and the string is its texts, a line each |
| WireSafety.SentRequestIsWireValid | crates/localpilot-harness/src/session.rs:935-958 | what `RunTurn` promises of each request makes it valid on the wire |
| WireSafety.HistoryReachesTheWire | crates/localpilot-harness/src/compaction.rs:411-422 | an exactly paired history, compacted to any limit, cut over where that replaces no call, folded and translated, keeps the provider's contract and block order |
| WireSafety.WireValidExactlyWhen | crates/localpilot-llm/src/anthropic.rs:219-254 | a request without orphans that leaves nothing open keeps the provider's contract on the wire if and only if every batch of calls in it is answered |
| WireSafety.HistoryAcceptedExactlyWhen | crates/localpilot-harness/src/session.rs:935-958 | what the loop sends of such a history keeps it if and only if every batch the compaction keeps was answered |
| WireSafety.AbandonedBatchIsRefused | crates/localpilot-harness/src/session.rs:1253-1273 | after a turn that left calls open, the next request breaks the contract as long as the history fits |
| ThinkFilter.InlineThinkingFilter.PushDelta | crates/localpilot-llm/src/event.rs:61-91 | the buffer loop is the specified drain |
| ThinkFilter.InlineThinkingFilter.FinishStream | crates/localpilot-llm/src/event.rs:93-104 | held-back text is flushed on the side it belongs to |
| ThinkFilter.FilterIsChunkInvariant | crates/localpilot-llm/src/event.rs:61-113 | for every cut of a text into deltas, every character comes out once, in order, and as reasoning exactly when a one-pass reference splitter says so |
| ThinkFilter.HeldIsLongestPartial | crates/localpilot-llm/src/event.rs:61-113 | between deltas the filter is in the mode the one-pass reference is in after the text so far, and holds back exactly the longest beginning of the awaited tag that this text ends in |
| ThinkFilter.PushShows | crates/localpilot-llm/src/event.rs:61-91 | after any text, one more delta emits exactly what the one-pass reference shows of the longer text beyond what it shows of the shorter |
| ThinkFilter.ShownAndHeld | crates/localpilot-llm/src/event.rs:61-104 | what is shown of a text and what is held back of it are together its one-pass split |
| ThinkFilter.DrainComposes | crates/localpilot-llm/src/event.rs:61-91 | two deltas are worth their concatenation |
| ThinkFilter.DrainSplits | crates/localpilot-llm/src/event.rs:61-104 | one drain and a flush split a text as the reference does |
| SseLines.CutComposes | crates/localpilot-llm/src/openai.rs:484-494 | cutting a byte stream in two and carrying the rest over yields the same lines |
| SseLines.CutIsLines | crates/localpilot-llm/src/openai.rs:484-494 | the lines handed on and what is left over are the buffer, cut behind every newline and nowhere else |
| SseLines.StreamIsChunkInvariant | crates/localpilot-llm/src/openai.rs:484-494 | for any line decoder, any chunking of the bytes gives the same state and the same events as one chunk, and the buffer never holds a newline |
| OpenAiDecoder.SseDecoder.PushBytes | crates/localpilot-llm/src/openai.rs:484-494 | the in-place decoder is the specified one, line by line |
| OpenAiDecoder.SseDecoder.FinishStream | crates/localpilot-llm/src/openai.rs:496-520 | the same for the end of the stream |
| OpenAiDecoder.SseDecoder.ApplyLine | crates/localpilot-llm/src/openai.rs:536-553 | the same for one line, `[DONE]` included |
| OpenAiDecoder.SseDecoder.ApplyChoice | crates/localpilot-llm/src/openai.rs:555-614 | the same for one chunk's choice |
| OpenAiDecoder.SseDecoder.FlushAccumulated | crates/localpilot-llm/src/openai.rs:633-657 | calls leave in key order and are forgotten |
| OpenAiLaws.StreamTerminatesOnce | crates/localpilot-llm/src/openai.rs:496-534 | every stream ends in exactly one of `Done` and the completion-marker error, at most one `Done`; finishing again adds nothing |
| OpenAiTools.GatherDemultiplexes | crates/localpilot-llm/src/openai.rs:573-631 | for any interleaving, a key's accumulator is the in-order concatenation of exactly its fragments, with their last id and name |
| OpenAiTools.StreamDemultiplexes | crates/localpilot-llm/src/openai.rs:536-662 | the same at every point of every stream, counted from the last flush or discard |
| OpenAiCalls.StreamFlushes | crates/localpilot-llm/src/openai.rs:536-657 | at every point of every stream, the calls and input errors the next line emits are, in key order, what each key's fragments since the last flush or discard come to, if the line flushes, and none otherwise |
| OpenAiCalls.EndFlushes | crates/localpilot-llm/src/openai.rs:496-520 | the end of a stream emits the same for what is still pending, unless the stream was limited |
| OpenAiCalls.KeysAreUnique | crates/localpilot-llm/src/openai.rs:633-657 | the pending fragments admit one such list of keys |
| OpenAiCalls.StreamCallsExactlyWhen | crates/localpilot-llm/src/openai.rs:496-657 | a whole stream emits a call exactly when some flush finds the fragments of one key naming a tool with blank or parseable input; the end of a stream flushes exactly if no choice finished with `length` |
| OpenAiCalls.LimitDiscards | crates/localpilot-llm/src/openai.rs:591-596 | in any stream, a `length` finish limits the decoder, discards everything assembled and emits no call |
| OpenAiCalls.LimitedCallsExactlyWhen | crates/localpilot-llm/src/openai.rs:496-602 | after it a call is emitted exactly when a later line flushes fragments that arrived after it and make up a whole call |
| OpenAiCalls.OutputLimitSilencesTools | crates/localpilot-llm/src/openai.rs:591-602 | so none is as long as no further fragment arrives |
| OpenAiCalls.LateFragmentEscapesLimit | crates/localpilot-llm/src/openai.rs:544-547 | that proviso is needed: under every decoding that reads three lines of bytes as a `length` finish, a fragment that makes up a call, and `[DONE]`, pushing them emits the call although the decoder knows of the limit |
| OpenAiText.StreamLineEmits | crates/localpilot-llm/src/openai.rs:536-614 | at every point of every stream, all that the next line emits and in which order: visible text and reasoning, the usage told, the calls that flush, the notice of why it finished |
| OpenAiText.StreamShows | crates/localpilot-llm/src/openai.rs:496-614 | over a whole stream the labelled characters shown are those a one-pass splitter gives for the contents of the chunks, with the chunks' reasoning in its place; the usage is that of the chunks in order, and each finish reason is warned of once |
| OpenAiText.StreamShowsContent | crates/localpilot-llm/src/openai.rs:555-564 | a stream of content alone shows every character once, in order, labelled as the one-pass splitter labels the whole text, whatever the cut into chunks |
| AnthropicStream.SseDecoder.PushBytes | crates/localpilot-llm/src/anthropic.rs:453-463 | the in-place decoder is the specified one, line by line |
| AnthropicStream.SseDecoder.FinishStream | crates/localpilot-llm/src/anthropic.rs:465-484 | the same for the end of the stream |
| AnthropicStream.SseDecoder.ApplyEvent | crates/localpilot-llm/src/anthropic.rs:520-585 | the same for one event, with the block lifecycle errors |
| AnthropicStream.SseDecoder.ApplyBlockStop | crates/localpilot-llm/src/anthropic.rs:546-552 | a block that stops is closed and its call flushed |
| AnthropicLaws.StreamTerminates | crates/localpilot-llm/src/anthropic.rs:453-502 | every stream ends in a terminal event, at most one `Done`, never after a lifecycle error; finishing again adds nothing |
| AnthropicLaws.BlocksAreDemultiplexed | crates/localpilot-llm/src/anthropic.rs:527-643 | what is assembled for a block is exactly its own fragments since its last stop, in order |
| AnthropicLaws.StreamAssemblesTools | crates/localpilot-llm/src/anthropic.rs:504-643 | the call emitted when a block stops is made of exactly those fragments, over any stream of lines |
| AnthropicCalls.StreamFlushes | crates/localpilot-llm/src/anthropic.rs:504-643 | at every point of every stream, the calls and input errors the next line emits are what the block it stops, if it stops one, has assembled since its last stop |
| AnthropicCalls.StreamEmitsBlocks | crates/localpilot-llm/src/anthropic.rs:465-643 | over a whole stream they are exactly those of the blocks that stop, in that order; the end of the stream adds none, whatever is left open |
| AnthropicCalls.StreamCallsExactlyWhen | crates/localpilot-llm/src/anthropic.rs:465-643 | a whole stream emits a call exactly when some block stops whose events since its last stop name a tool and hold an input that is blank or parses |
| AnthropicText.StreamEventEmits | crates/localpilot-llm/src/anthropic.rs:504-643 | at every point of every stream, all that the next event emits and in which order, the calls of a stopping block aside |
| AnthropicText.StreamConcludes | crates/localpilot-llm/src/anthropic.rs:465-502 | the end of a stream emits what its unterminated line does, the text held back, and `Done` or an error by whether the message was complete |
| AnthropicText.StreamShows | crates/localpilot-llm/src/anthropic.rs:465-661 | over a whole stream the labelled characters shown are those a one-pass splitter gives for the text deltas, with the thinking deltas in their place; each usage pairs the output count with the latest input count, and the first stop reason worth a word is warned of, once |
| Pack.RankAll | crates/localpilot-localmind/src/pack.rs:301-331 | the counting loop gives each candidate its base signals, demoted once for every better-ranked candidate of its path |
| Pack.FillReserves | crates/localpilot-localmind/src/pack.rs:232-261 | the reserve loop is the specified phase |
| Pack.FillShared | crates/localpilot-localmind/src/pack.rs:263-292 | the shared-pool loop is the specified phase |
| Pack.Allocate | crates/localpilot-localmind/src/pack.rs:209-297 | ranking, both phases and their sorts together are the specified allocation |
| Pack.RankOrderSorts | crates/localpilot-localmind/src/pack.rs:303-315 | the stable sort lists every position once, each before the ones it precedes |
| Pack.CounterIsRepeats | crates/localpilot-localmind/src/pack.rs:316-329 | the running counter is the number of better-ranked candidates of the same path |
| Sorting.SortIgnoresOrder | crates/localpilot-localmind/src/pack.rs:213-221 | sorting by a strict order forgets the order of its input |
| PackLaws.AllocationIgnoresOrder | crates/localpilot-localmind/src/pack.rs:203-297 | with distinct (source, id) pairs every permutation of the candidates gives the same entries, order and signals |
| PackLaws.AllocationPartitions | crates/localpilot-localmind/src/pack.rs:16-18 | selected and skipped together are exactly the ranked candidates, each once |
| PackLaws.TotalsAreExact | crates/localpilot-localmind/src/pack.rs:224-296 | the reported total is the cost of the selected, the sum over the sources, and at most the budget; it saturates only for the largest budget there is |
| PackLaws.SkippedDoNotFit | crates/localpilot-localmind/src/pack.rs:275-292 | nothing skipped for the budget would fit even at the end |
| PackLaws.ReserveTestDecides | crates/localpilot-localmind/src/pack.rs:249-251 | whoever fits its source's reserve fits the budget: the second test never decides |
| PackLaws.ReserveIsGuaranteed | crates/localpilot-localmind/src/pack.rs:9-12 | a source's best candidate that repeats nothing and fits the reserve is selected, whatever the other sources bring |
| PackLaws.ContentCompetesOnce | crates/localpilot-localmind/src/pack.rs:239-248 | of equal contents exactly one competes; every other copy is skipped as its duplicate |
| PackScores.RankIsScore | crates/localpilot-localmind/src/pack.rs:213-221 | the two orders, told in scores: the pool goes by score, then trust, then id; the reserves by trust, then score, then id, ids as in a dictionary |
| PackScores.PackInOrder | crates/localpilot-localmind/src/pack.rs:224-292 | what the reserves took comes first, in their order; then what the pool took, by falling score, ties by trust and id; so does what was skipped for the budget |
| PackScores.PackIsFair | crates/localpilot-localmind/src/pack.rs:232-292 | whoever is skipped for the budget lost it to nobody with a lower score that costs as much; of one source, nor did whoever the reserve left out lose it to one it took |
| PackScores.ScoreAddsUp | crates/localpilot-localmind/src/pack.rs:335-373 | each signal counts on its own and within its bounds; confidence is worth up to 15 points, rounded down |
| PackScores.TrustPays | crates/localpilot-localmind/src/pack.rs:41-62 | of two sources the more trusted is worth more |
| PackScores.PoolIsLeft | crates/localpilot-localmind/src/pack.rs:186-200 | the reserves together leave at least 15 percent of the budget to the shared pool |
| PackScores.PathsCost | crates/localpilot-localmind/src/pack.rs:301-331 | a candidate loses 15 points for each candidate ahead of it on the same path |
| PackScores.RepeatsLowerTheLower | crates/localpilot-localmind/src/pack.rs:301-331 | of two candidates on one path only the one with the lower score pays for the other |
| PackScores.ContentIsLeadingText | crates/localpilot-localmind/src/pack.rs:164-180 | two candidates of one path are the same content exactly when their folded snippets agree on their first 80 characters |
| PackScores.SpacingIsIrrelevant | crates/localpilot-localmind/src/pack.rs:162-175 | snippets of one path that differ only in spacing and ASCII case are the same content |
| TextLines.WordsMeet | crates/localpilot-localmind/src/pack.rs:165-169 | splitting a snippet at any whitespace splits its words there and changes none of them |
| Calendar.YearOfEraBrackets | crates/localpilot-harness/src/decisions.rs:178-181 | the year formula finds the year the day lies in |
| Calendar.YearOfEraSlips | crates/localpilot-harness/src/decisions.rs:171-181 | past the era's last day it has slipped into the next era |
| Calendar.CivilRoundTrip | crates/localpilot-harness/src/decisions.rs:168-191 | a day count converted to a date and back is itself exactly when it is in range, and one more otherwise; in range the date is real |
| Calendar.CivilSteps | crates/localpilot-harness/src/decisions.rs:168-191 | from 0000-03-01 on, one day more is the next day of the Gregorian calendar |
| Calendar.CivilStarts | crates/localpilot-harness/src/decisions.rs:168-191 | day zero is 1970-01-01, and the range starts on 0000-03-01 |
| Calendar.LateBeforeTheEpoch | crates/localpilot-harness/src/decisions.rs:171-176 | counts outside the range that share a date with their successor or give a date that does not exist |
| Calendar.NextDayCounts | crates/localpilot-llm/src/headers.rs:179-190 | the next calendar day of any real date has the next day count |
| Calendar.DaysInjective | crates/localpilot-llm/src/headers.rs:179-190 | two real dates with one day count are one date |
| Calendar.DateRoundTrip | crates/localpilot-llm/src/headers.rs:179-190 | a date converted to a count in range and back is itself exactly when it is real |
| Chunking.ChunkFile | crates/localpilot-localmind/src/ingest.rs:1163-1215 | the one-pass loop cuts as specified |
| Chunking.ChunksPartition | crates/localpilot-localmind/src/ingest.rs:1163-1215 | chunks are runs of whole lines, end to end in lines and bytes, each at most 8192 bytes or a single line, none with room for the next line |
| Chunking.ChunksAreText | crates/localpilot-localmind/src/ingest.rs:1171-1215 | the chunks concatenate to the file exactly when it is LF-terminated and has no CRLF |
| Chunking.EmptyFile | crates/localpilot-localmind/src/ingest.rs:1201-1214 | the empty file is one empty chunk |
| Preview.JudgeWalk | crates/localpilot-localmind/src/ingest.rs:282-327 | each file is judged by the running totals over all candidates; the over-budget flags stay false |
| Preview.TakenIsPrefix | crates/localpilot-localmind/src/ingest.rs:297-308 | the files taken are the candidates up to one point of the walk; after it every candidate is refused |
| Preview.TakenFits | crates/localpilot-localmind/src/ingest.rs:309-327 | what is taken fits every budget |
| Preview.RunningCounts | crates/localpilot-localmind/src/ingest.rs:285-308 | the totals a file is judged by are the number, the bytes and the tokens of the candidates up to and including it, as far as 64 bits reach |
| Preview.EstimatesCount | crates/localpilot-localmind/src/ingest.rs:309-327 | the accepted totals count exactly the files taken, and everything else is counted as skipped |
| Ingest.Run | crates/localpilot-localmind/src/ingest.rs:341-461 | reuse, chunking and staleness over a manifest, with the job's counts and status |
| IngestLaws.RunKeepsSound | crates/localpilot-localmind/src/ingest.rs:352-439 | any run, finished, paused or failed, leaves each content of each file stored once, in order and marked alike, or not at all |
| IngestLaws.NeverLiveAndStale | crates/localpilot-localmind/src/ingest.rs:417-439 | over any history no key is stored twice and none is both live and stale |
| IngestLaws.RefreshAgreesWithRebuild | crates/localpilot-localmind/src/ingest.rs:337-439 | after any history of edits and of finished, paused or failed runs, the live chunks of a refresh that gets through are a full run's, in order, up to what superseded them |
| IngestLaws.RefreshIsRebuildExactlyWhen | crates/localpilot-localmind/src/ingest.rs:398-406 | they are exactly a full run's unless the store holds a superseded chunk of a file as it now is |
| IngestLaws.RevivedKeepsMark | crates/localpilot-localmind/src/ingest.rs:398-406 | a file changed and changed back: its live chunks say they were superseded |
| IngestLaws.OutdatedIsStale | crates/localpilot-localmind/src/ingest.rs:431-439 | everything outdated is stale and names the hash its path has now |
| IngestRuns.ReachedIsLive | crates/localpilot-localmind/src/ingest.rs:382-416 | a run leaves the chunks of every candidate it reaches live, once and in order, if the file can be read or a refresh finds the content stored, and none of them otherwise |
| IngestRuns.UnreachedIsSetAside | crates/localpilot-localmind/src/ingest.rs:382-439 | of any other content a refresh leaves all that was stored, stale under the hash the manifest has for its path, and a full run leaves nothing |
| IngestRuns.LatestHashIsListed | crates/localpilot-localmind/src/ingest.rs:422-433 | that hash is the one the path's own entry has |
| IngestRuns.FailuresCount | crates/localpilot-localmind/src/ingest.rs:391-416 | the job's failures are exactly the candidates of which nothing is stored |
| Markup.LinesRoundTrip | crates/localpilot-harness/src/progress.rs:41-54 | joining plain lines and splitting the text gives the lines back, CRLF replacement or not |
| Markup.TitleSays | crates/localpilot-harness/src/brief.rs:83-93 | the first line that begins with the prefix is the title line, whatever stands below it, and without a value there is no title |
| Markup.NumberRoundTrip | crates/localpilot-harness/src/progress.rs:174-181 | a number in decimal parses to itself within its type's range |
| ProgressFile.ParseText | crates/localpilot-harness/src/progress.rs:40-84 | the reading loop, with its errors in order |
| ProgressFile.RenderText | crates/localpilot-harness/src/progress.rs:86-109 | the writing loop |
| ProgressFile.Plan.AppendStep | crates/localpilot-harness/src/progress.rs:122-134 | a new open step after the highest number, all else untouched |
| ProgressFile.Plan.MarkComplete | crates/localpilot-harness/src/progress.rs:136-146 | the first step of that number is ticked with its metadata; found exactly if there is one |
| ProgressReads.StepLineSays | crates/localpilot-harness/src/progress.rs:148-186 | a line is a step exactly when it is a checkbox, a number, and a description behind the first period followed by a space; without a box it is none, and every other line with one is the error that names what is missing |
| ProgressReads.MetaSays | crates/localpilot-harness/src/progress.rs:63-77 | a line that is no step speaks of the step above it only, and only of its commit or its attempts |
| ProgressReads.ParsesExactlyWhen | crates/localpilot-harness/src/progress.rs:40-84 | a text is a plan exactly when it has a title and a branch, every step line can be read, no number comes twice and every count of attempts below a step is a number; its steps are then those of its step lines, in order |
| ProgressLaws.RenderReads | crates/localpilot-harness/src/progress.rs:86-109 | what the text can carry is read back, but for metadata of open steps |
| ProgressLaws.ParseIsPrintable | crates/localpilot-harness/src/progress.rs:54-65 | reading only gives one-line fields and every number once |
| ProgressLaws.RoundTripExactlyWhen | crates/localpilot-harness/src/progress.rs:40-109 | writing and reading give the plan back if and only if it is well formed |
| ProgressLaws.OpenCommitIsLost | crates/localpilot-harness/src/progress.rs:86-109 | an open step with a commit is read back without it |
| ProgressLaws.HighestIsThere | crates/localpilot-harness/src/progress.rs:122-134 | an appended step's number skips none: the one before it is some step's, or no step is numbered above zero |
| ProgressLaws.EditsKeepPlan | crates/localpilot-harness/src/progress.rs:122-146 | over any sequence of appends and ticks the plan still reads back; no step is renumbered, reworded, moved or unticked |
| DecisionsFile.ParseText | crates/localpilot-harness/src/decisions.rs:57-98 | the reading loop |
| DecisionsFile.RenderText | crates/localpilot-harness/src/decisions.rs:131-143 | the writing loop |
| DecisionsFile.DecisionLog.Append | crates/localpilot-harness/src/decisions.rs:100-128 | one new entry under the next id, all else untouched |
| DecisionsReads.HeaderSays | crates/localpilot-harness/src/decisions.rs:63-84 | a line opens an entry exactly when it is a bullet that begins with a `D` and holds a separator; its first two separators part id, date and title |
| DecisionsReads.LinesRead | crates/localpilot-harness/src/decisions.rs:57-98 | the entries are those of the header lines, in order; no other line adds one or changes an id, a date or a title |
| DecisionsReads.FieldSays | crates/localpilot-harness/src/decisions.rs:85-98 | any other line fills in the field it names of the newest entry, and nothing else |
| DecisionsLaws.HeaderReads | crates/localpilot-harness/src/decisions.rs:69-73 | a header's id, date and title are read back exactly when the separators can be told from them and there is a title |
| DecisionsLaws.RoundTripExactlyWhen | crates/localpilot-harness/src/decisions.rs:57-143 | writing and reading give the log back if and only if it is well formed |
| DecisionsLaws.UntitledIsLost | crates/localpilot-harness/src/decisions.rs:57-143 | a log with an untitled entry is not read back as written |
| DecisionsLaws.HighestIsThere | crates/localpilot-harness/src/decisions.rs:120-128 | the next id skips no number: the one before it is that of some entry, or there is no numbered one |
| DecisionsLaws.NextIdIsFresh | crates/localpilot-harness/src/decisions.rs:120-128 | the next id is none of the ids there |
| DecisionsLaws.PaddedIsThree | crates/localpilot-harness/src/decisions.rs:120-128 | ids up to 999 have three digits, later ones as many as they need |
| DecisionsLaws.AppendReadsExactlyWhen | crates/localpilot-harness/src/decisions.rs:100-143 | an entry appended to a log of one-line values reads back with it exactly when its own values fit their lines and all headers, old and new, can be told apart and have titles |
| DecisionsLaws.AppendKeepsLog | crates/localpilot-harness/src/decisions.rs:100-143 | after an append the log reads back with the earlier entries first and the new one last under an id of its own |
| Rules.ReduceOutcomes | crates/localpilot-harness/src/rules.rs:304-316 | the reduction loop under the rule's ceiling |
| Rules.EvaluateRules | crates/localpilot-harness/src/rules.rs:426-439 | the non-allow verdicts of the rules of a trigger, in order |
| Rules.CriticalStaysOn | crates/localpilot-harness/src/rules.rs:406-422 | a rule is off exactly when configured off and not critical |
| RuleLaws.EvaluationReports | crates/localpilot-harness/src/rules.rs:406-439 | on every trigger the rules reported are those it consults that are violated and not off, in their order; a rule set to warn warns, an enforced one blocks, and the quality gate says what its worst check says |
| RuleLaws.UncleanSays | crates/localpilot-harness/src/rules.rs:194-280 | a commit message is unclean exactly when it holds a secret or one of three terms, anywhere and in letters of any case |
| Worker.StepLoop.Record | crates/localpilot-harness/src/worker.rs:73-101 | one attempt changes the tally and decides as specified |
| Worker.BudgetSchedule | crates/localpilot-harness/src/worker.rs:73-101 | in each round of failures all but the last go back to the step; the last replans with exactly the round's reasons in order, or gives up once replans are spent |
| Worker.GivesUpExactlyWhen | crates/localpilot-harness/src/worker.rs:84-92 | the loop gives up exactly from failure max(1, max_attempts) * (max_replans + 1) on |
| Worker.DecideStepByRules | crates/localpilot-harness/src/worker.rs:141-170 | the reduction over the three triggers is `DecideStep` |
| GateLaws.WorstIsWorst | crates/localpilot-harness/src/rules.rs:304-316 | the reduced verdict is one of the outcomes' verdicts and at least as severe as all |
| GateLaws.GateIsWorst | crates/localpilot-harness/src/worker.rs:157-169 | the gate's action is as severe as the most severe thing any rule asks for on any of its triggers |
| GateLaws.GateDecides | crates/localpilot-harness/src/worker.rs:133-170 | a step is stopped exactly for the conditions of its enforced rules, sent back exactly for a failing check without an override when nothing stops it, committed otherwise |
| GateLaws.ReworkReason | crates/localpilot-harness/src/worker.rs:141-170 | a step that is sent back is told of the first check that failed without a severity of its own, whatever else was found |
| GateLaws.OutcomeOrderIsIrrelevant | crates/localpilot-harness/src/rules.rs:304-316 | the order the checks ran in does not change what is decided |
| ResumeLaws.ActionSays | crates/localpilot-harness/src/resume.rs:190-225 | whether a turn commits, is sent back or stops the step, told from the checks it ran, the configured rules, the step's description and the cap alone |
| ResumeLaws.TestsMustPass | crates/localpilot-harness/src/resume.rs:196-212 | with `suite_green` enforced no step is committed at a turn whose first check named "test" did not pass |
| ResumeLaws.AllPassedCommits | crates/localpilot-harness/src/resume.rs:196-225 | a turn whose checks all passed commits exactly unless the message is unclean under an enforced rule or the cap is one attempt under an enforced limit |
| StopLaws.EnforcedExactlyWhen | crates/localpilot-harness/src/rules.rs:406-422 | what a setting under a rule's key comes to: four rules stay enforced unless set to warn, even turned off, three unless set to warn or off, two only when set to block |
| StopLaws.StopSays | crates/localpilot-harness/src/worker.rs:141-170 | a stopped step is told why: of its tests before its message, of its message before its cap, of its cap before the first check that blocks |
| StopLaws.WorkEnds | crates/localpilot-harness/src/resume.rs:147-281 | the work takes the turns that are sent back and one more; that one alone says how it ends, for what reason, and which checks are reported |
| StopLaws.ResumeStarts | crates/localpilot-harness/src/resume.rs:108-133 | a resume works the first open step unless unrelated changes lie uncommitted under the enforced rule; it fails only without an open step, or when a replan meets an unreadable log |
| Resume.WorkStep | crates/localpilot-harness/src/resume.rs:147-281 | the attempt loop ends as specified within max(1, max_attempts) turns; giving up, discarding and a commit from the retry budget are unreachable |
| Resume.WriteReplan | crates/localpilot-harness/src/resume.rs:332-357 | the decision log with the replan appended, started when there is none |
| Resume.ResumeOneStep | crates/localpilot-harness/src/resume.rs:98-319 | from the documents read to the documents written |
| ResumeLaws.CommitsExactlyWhen | crates/localpilot-harness/src/resume.rs:147-281 | a step is committed exactly when some turn within the budget passes the gate and every turn before was sent back; no verdict asks for a retry, discard or block at the turn that commits |
| ResumeLaws.ReplansExactlyWhen | crates/localpilot-harness/src/resume.rs:243-262 | a replan is recorded exactly when every turn of the budget is sent back; it carries one reason a turn, naming the first check of that turn that asked for rework |
| ResumeLaws.CommittableExactlyWhen | crates/localpilot-harness/src/resume.rs:201-212 | some turns can commit a step exactly unless its message is unclean under an enforced rule or the cap is one attempt under an enforced attempt limit |
| ResumeLaws.CommitTicksPlan | crates/localpilot-harness/src/resume.rs:283-319 | a commit ticks exactly the first open step of the plan as written, always as one attempt |
| ResumeLaws.OtherwiseUntouched | crates/localpilot-harness/src/resume.rs:147-281 | any other ending leaves the plan's text alone; only a replan touches the decision log |
| ResumeLaws.ReplanIsRecorded | crates/localpilot-harness/src/resume.rs:332-357 | a replan is added behind the entries already logged; the log then reads back as written exactly when the headers already there can be told apart and have titles, the date fits a header, and no check that asked for rework has a line break in its name |

## Left out

- Runtime.SessionRuntime.RunTurn: in smart mode, for a script in which some reply both begins with the digest title and persists calls, it promises the durable log, what was said and what is left open, but not the live history and the requests; such a reply can be taken for a digest (`CandidateKeepsPairingExactlyWhen` and `MimicryLosesPairing` say when and what then breaks). Provider retries inside the opening of a stream, the repeated-failure warning and the recovery engine are choices of the round.
- Runtime.SessionRuntime.Append: a message that would orphan a result is appended but the invariant is not promised then. Failures of the durable store are not modelled; an event is either written or the process is gone.
- Runtime.SessionRuntime.constructor: a seed that holds an orphaned result is kept but nothing is promised of the session then; the setup prompt is one system message.
- Compactor.CompactHistory: the digest stored beside the result (semantic sections, files touched) is left out; it never reaches the conversation. Message ids, timestamps and provider metadata are left out.
- Pack.Allocate: scores and token sums are unbounded integers, so an overflow of the signed rank sum or of a source's unsaturated counter is not modelled; reserves use integer percentages in place of rounded floating point, confidences are real numbers.
- Calendar.CivilRoundTrip: day counts are unbounded, so an overflow near the ends of 64-bit integers is not modelled; the clock is not part of this model.
- Chunking.ChunksPartition: chunk texts are the texts before redaction, which happens after the spans are fixed; spans count each line with one terminator, as the source does.
- Ingest.Run: classification of files, redaction, summaries and review items are left out; a manifest entry says whether a file is a candidate, what it hashes to and whether it can be read. `upTo` stands for the elapsed-time limit.
- IngestLaws.RefreshAgreesWithRebuild: contents are taken to be determined by path and hash, which excludes hash collisions and edits during a run.
- Preview.JudgeWalk: the walk's order and each file's own classification are inputs.
- ProgressLaws.EditsKeepPlan: asks that the numbers stay within 64 bits; the source's addition would overflow.
- DecisionsLaws.NextIdIsFresh: asks that the highest id is below the largest 32-bit number; the source's addition would overflow.
- ResumeLaws.ReplanIsRecorded: asks, as `DecisionsLaws.NextIdIsFresh` does, that the highest id is below the largest 32-bit number.
- Resume.ResumeOneStep: git and file-system effects are inputs (whether the tree is dirty, the commit made); errors of those calls, the audit events and the pause record of a quota stop are left out.
- Rules.EvaluateRules: whether a commit message holds a secret is an input.
- OpenAiDecoder.SseDecoder.PushBytes: JSON and UTF-8 decoding are arbitrary functions; the reading of headers and error bodies is left out.
- AnthropicStream.SseDecoder.ApplyEvent: the same.
- SseLines.StreamIsChunkInvariant: transport errors between chunks are left out.
- Parsing of the date headers around the calendar conversions (`crates/localpilot-llm/src/headers.rs:67-176`): digit and separator checks that would only add easy members.
- The generation counter is unbounded; the source's 64-bit counter would have to wrap between two requests to matter.
- The translation of requests for OpenAI-style providers: one message to one object, no reordering to reason about.
- The terminal interface, command line, configuration loading, trust and update code, HTTP clients, the sandbox and the tools themselves.
