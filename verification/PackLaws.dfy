/** What the allocator guarantees about every pack. */
module PackLaws {
  import opened Numbers
  import opened Pack
  import Sorting

  // ---------------------------------------------------------------------------
  // The order of the input does not matter

  function Key(c: Candidate): (Source, string) {
    (c.source, c.id)
  }

  ghost predicate DistinctKeys(cs: seq<Candidate>) {
    forall i, j :: 0 <= i < j < |cs| ==> Key(cs[i]) != Key(cs[j])
  }

  predicate AheadOnPath(d: Candidate, c: Candidate) {
    RankLess(Base(d), Base(c)) && PathOf(d) == PathOf(c)
  }

  /** A candidate's signals among `cs`, told without positions. */
  function SignalsOf(cs: seq<Candidate>, c: Candidate): Signals {
    Penalize(BaseSignals(c), Sorting.CountIf(cs, d => AheadOnPath(d, c)), PathOf(c))
  }

  function RankedIn(cs: seq<Candidate>, c: Candidate): Ranked {
    Ranked(c, SignalsOf(cs, c))
  }

  lemma {:induction false} CountByPosition(cs: seq<Candidate>, n: nat, c: Candidate, p: nat -> bool)
    requires n <= |cs| && forall j :: 0 <= j < n ==> p(j) == AheadOnPath(cs[j], c)
    ensures Sorting.CountIf(Indices(n), p) == Sorting.CountIf(cs[..n], d => AheadOnPath(d, c))
  {
    hide AheadOnPath;
    if n > 0 {
      CountByPosition(cs, n - 1, c, p);
      assert Indices(n) == Indices(n - 1) + [n - 1];
      assert cs[..n] == cs[..n - 1] + [cs[n - 1]];
      Sorting.CountIfConcat<nat>(Indices(n - 1), [n - 1], p);
      Sorting.CountIfConcat(cs[..n - 1], [cs[n - 1]], d => AheadOnPath(d, c));
      assert [n - 1][1..] == [] && [cs[n - 1]][1..] == [];
    }
  }

  lemma {:induction false} PrecedesIsRank(cs: seq<Candidate>, j: nat, i: nat)
    requires DistinctKeys(cs) && i < |cs| && j < |cs|
    ensures RepeatsPath(cs, j, i) == AheadOnPath(cs[j], cs[i])
  {
    hide RankLess;
    RankLessIsStrict(Base(cs[j]), Base(cs[i]), Base(cs[j]));
    if i != j {
      assert Key(cs[i]) != Key(cs[j]);
      RankLessIsStrict(Base(cs[i]), Base(cs[j]), Base(cs[i]));
    }
  }

  lemma {:induction false} RankedIsMap(cs: seq<Candidate>)
    requires DistinctKeys(cs)
    ensures RankedAll(cs) == Sorting.Map(cs, c => RankedIn(cs, c))
  {
    hide RepeatsPath, AheadOnPath, DistinctKeys, Penalize, BaseSignals;
    forall i | 0 <= i < |cs| ensures SignalsAt(cs, i) == SignalsOf(cs, cs[i]) {
      forall j | 0 <= j < |cs| ensures RepeatsPath(cs, j, i) == AheadOnPath(cs[j], cs[i]) {
        PrecedesIsRank(cs, j, i);
      }
      CountByPosition(cs, |cs|, cs[i], (j: nat) => RepeatsPath(cs, j, i));
      assert cs[..|cs|] == cs;
    }
  }

  lemma {:induction false} DistinctKeysPermute(a: seq<Candidate>, b: seq<Candidate>)
    requires multiset(a) == multiset(b) && DistinctKeys(a)
    ensures DistinctKeys(b)
  {
    forall i, j | 0 <= i < j < |b| ensures Key(b[i]) != Key(b[j]) {
      Distinct(a, b, i, j);
      assert b[i] in multiset(a) && b[j] in multiset(a);
      var p :| 0 <= p < |a| && a[p] == b[i];
      var q :| 0 <= q < |a| && a[q] == b[j];
      assert p != q;
      assert p < q ==> Key(a[p]) != Key(a[q]);
      assert q < p ==> Key(a[q]) != Key(a[p]);
    }
  }

  lemma {:induction false} RankedPermutes(a: seq<Candidate>, b: seq<Candidate>)
    requires multiset(a) == multiset(b) && DistinctKeys(a)
    ensures multiset(RankedAll(a)) == multiset(RankedAll(b))
  {
    hide DistinctKeys, AheadOnPath, RankedAll, Penalize, BaseSignals;
    DistinctKeysPermute(a, b);
    RankedIsMap(a);
    RankedIsMap(b);
    forall c ensures RankedIn(a, c) == RankedIn(b, c) {
      Sorting.CountIfPermutes(a, b, d => AheadOnPath(d, c));
    }
    Sorting.MapPermutes(a, b, c => RankedIn(a, c));
    assert Sorting.Map(b, c => RankedIn(a, c)) == Sorting.Map(b, c => RankedIn(b, c));
  }

  lemma {:induction false} RankedKeysDiffer(cs: seq<Candidate>, a: Ranked, b: Ranked)
    requires DistinctKeys(cs) && a in RankedAll(cs) && b in RankedAll(cs) && a != b
    ensures Key(a.candidate) != Key(b.candidate)
  {
    hide SignalsAt;
    var i :| 0 <= i < |cs| && RankedAll(cs)[i] == a;
    var j :| 0 <= j < |cs| && RankedAll(cs)[j] == b;
    if i < j {
      assert Key(cs[i]) != Key(cs[j]);
    } else if j < i {
      assert Key(cs[j]) != Key(cs[i]);
    }
  }

  lemma {:induction false} RankedIsStrict(cs: seq<Candidate>)
    requires DistinctKeys(cs)
    ensures Sorting.StrictOn(multiset(RankedAll(cs)), ReserveLess)
  {
    hide ReserveLess, RankedAll, DistinctKeys;
    var all := multiset(RankedAll(cs));
    forall a, b | a in all && b in all
      ensures ReserveLess(a, b) ==> !ReserveLess(b, a)
      ensures a != b ==> ReserveLess(a, b) || ReserveLess(b, a)
    {
      ReserveLessIsStrict(a, b, a);
      if a != b {
        assert a in RankedAll(cs) && b in RankedAll(cs);
        RankedKeysDiffer(cs, a, b);
      }
    }
    forall a, b, c | a in all && b in all && c in all && ReserveLess(a, b) && ReserveLess(b, c)
      ensures ReserveLess(a, c)
    {
      ReserveLessIsStrict(a, b, c);
    }
  }

  /** Any rearrangement of the candidates gives the same pack: same entries, same order, same signals. */
  lemma {:induction false} AllocationIgnoresOrder(a: seq<Candidate>, b: seq<Candidate>, budget: nat)
    requires multiset(a) == multiset(b) && DistinctKeys(a)
    ensures Allocation(a, budget) == Allocation(b, budget)
  {
    hide DistinctKeys, RankedAll, ReserveLess, RankLess, ReservePhase, SharedPhase;
    RankedPermutes(a, b);
    RankedIsStrict(a);
    Sorting.SortIgnoresOrder(RankedAll(a), RankedAll(b), ReserveLess);
  }

  // ---------------------------------------------------------------------------
  // Every candidate ends up selected or skipped, once

  function Items(entries: seq<Entry>): seq<Ranked> {
    Sorting.Map(entries, (e: Entry) => e.item)
  }

  lemma {:induction false} ItemsPush(entries: seq<Entry>, e: Entry)
    ensures multiset(Items(entries + [e])) == multiset(Items(entries)) + multiset{e.item}
  {
    assert Items(entries + [e]) == Items(entries) + [e.item];
  }

  ghost function Settled(a: Alloc): multiset<Ranked> {
    multiset(Items(a.selected)) + multiset(Items(a.skipped))
  }

  lemma {:induction false} ReserveStepPartitions(a: Alloc, r: Ranked, budget: nat, b: Alloc)
    requires b == ReserveStep(a, r, budget)
    ensures Settled(b) + multiset(b.leftovers) == Settled(a) + multiset(a.leftovers) + multiset{r}
  {
    hide Items, DedupKey, Reserve, SatAdd;
    ItemsPush(a.skipped, Entry(r, DuplicateContent));
    ItemsPush(a.selected, Entry(r, WithinReserve));
    assert multiset(a.leftovers + [r]) == multiset(a.leftovers) + multiset{r};
  }

  lemma {:induction false} ReservePartitions(rs: seq<Ranked>, budget: nat)
    ensures Settled(ReservePhase(rs, budget)) + multiset(ReservePhase(rs, budget).leftovers) == multiset(rs)
  {
    hide ReserveStep;
    if rs != [] {
      var init, r := rs[..|rs| - 1], rs[|rs| - 1];
      assert rs == init + [r];
      ReservePartitions(init, budget);
      ReserveStepPartitions(ReservePhase(init, budget), r, budget, ReservePhase(rs, budget));
    }
  }

  lemma {:induction false} SharedStepPartitions(a: Alloc, r: Ranked, budget: nat)
    ensures Settled(SharedStep(a, r, budget)) == Settled(a) + multiset{r}
  {
    hide Items, SatAdd;
    ItemsPush(a.selected, Entry(r, WithinShared));
    ItemsPush(a.skipped, Entry(r, BudgetExhausted));
  }

  lemma {:induction false} SharedPartitions(a: Alloc, rs: seq<Ranked>, budget: nat)
    ensures Settled(SharedPhase(a, rs, budget)) == Settled(a) + multiset(rs)
  {
    hide SharedStep, Settled;
    if rs != [] {
      var init, r := rs[..|rs| - 1], rs[|rs| - 1];
      assert rs == init + [r];
      SharedPartitions(a, init, budget);
      SharedStepPartitions(SharedPhase(a, init, budget), r, budget);
    }
  }

  /** Selected and skipped together are exactly the ranked candidates, each once. */
  lemma {:induction false} AllocationPartitions(cs: seq<Candidate>, budget: nat)
    ensures Settled(Allocation(cs, budget)) == multiset(RankedAll(cs))
  {
    hide Settled, RankedAll, ReservePhase, SharedPhase, RankLess, ReserveLess;
    var first := ReservePhase(ReserveOrder(cs), budget);
    ReservePartitions(ReserveOrder(cs), budget);
    Sorting.SortPermutes(RankedAll(cs), ReserveLess);
    Sorting.SortPermutes(first.leftovers, RankLess);
    SharedPartitions(first, Sorting.Sort(first.leftovers, RankLess), budget);
  }

  // ---------------------------------------------------------------------------
  // Totals

  function TokenSum(entries: seq<Entry>): nat {
    if entries == [] then 0
    else TokenSum(entries[..|entries| - 1]) + entries[|entries| - 1].item.candidate.tokens
  }

  function TokensFrom(entries: seq<Entry>, s: Source): nat {
    if entries == [] then 0
    else
      var c := entries[|entries| - 1].item.candidate;
      TokensFrom(entries[..|entries| - 1], s) + if c.source == s then c.tokens else 0
  }

  function TotalUsage(u: Usage): nat {
    UsedBy(u, ManualPin) + UsedBy(u, AcceptedMemory) + UsedBy(u, RecentSession) + UsedBy(u, Ingest) + UsedBy(u, CodeGraph)
  }

  /** What the running totals say about the entries selected so far. */
  ghost predicate Accounted(a: Alloc, budget: nat) {
    && a.used <= budget
    && a.used == Min(TokenSum(a.selected), U64_MAX)
    && TotalUsage(a.bySource) == TokenSum(a.selected)
    && forall s :: UsedBy(a.bySource, s) == TokensFrom(a.selected, s)
  }

  lemma {:induction false} UsedBySelect(a: Alloc, r: Ranked, reason: Reason, s: Source)
    ensures UsedBy(Select(a, r, reason).bySource, s)
         == UsedBy(a.bySource, s) + if r.candidate.source == s then r.candidate.tokens else 0
  {
  }

  lemma {:induction false} SumsPush(entries: seq<Entry>, e: Entry, s: Source)
    ensures TokenSum(entries + [e]) == TokenSum(entries) + e.item.candidate.tokens
    ensures TokensFrom(entries + [e], s)
         == TokensFrom(entries, s) + if e.item.candidate.source == s then e.item.candidate.tokens else 0
  {
    assert (entries + [e])[..|entries|] == entries;
  }

  lemma {:induction false} TotalSelect(a: Alloc, r: Ranked, reason: Reason)
    ensures TotalUsage(Select(a, r, reason).bySource) == TotalUsage(a.bySource) + r.candidate.tokens
  {
    hide UsedBy, Select;
    UsedBySelect(a, r, reason, ManualPin);
    UsedBySelect(a, r, reason, AcceptedMemory);
    UsedBySelect(a, r, reason, RecentSession);
    UsedBySelect(a, r, reason, Ingest);
    UsedBySelect(a, r, reason, CodeGraph);
  }

  lemma {:induction false} SelectAccounts(a: Alloc, r: Ranked, reason: Reason, budget: nat)
    requires Accounted(a, budget) && SatAdd(a.used, r.candidate.tokens) <= budget
    ensures Accounted(Select(a, r, reason), budget)
  {
    hide UsedBy, TokenSum, TokensFrom, TotalUsage;
    TotalSelect(a, r, reason);
    var b := Select(a, r, reason);
    SumsPush(a.selected, Entry(r, reason), r.candidate.source);
    forall s ensures UsedBy(b.bySource, s) == TokensFrom(b.selected, s) {
      SumsPush(a.selected, Entry(r, reason), s);
      UsedBySelect(a, r, reason, s);
      assert UsedBy(a.bySource, s) == TokensFrom(a.selected, s);
    }
  }

  lemma {:induction false} ReserveStepAccounts(a: Alloc, r: Ranked, budget: nat)
    requires Accounted(a, budget)
    ensures Accounted(ReserveStep(a, r, budget), budget)
  {
    hide DedupKey, Reserve, SatAdd, Select, UsedBy, TokenSum, TokensFrom, TotalUsage;
    var a1 := a.(seen := a.seen + {DedupKey(r.candidate)});
    if SatAdd(a.used, r.candidate.tokens) <= budget {
      SelectAccounts(a1, r, WithinReserve, budget);
    }
  }

  lemma {:induction false} SharedStepAccounts(a: Alloc, r: Ranked, budget: nat)
    requires Accounted(a, budget)
    ensures Accounted(SharedStep(a, r, budget), budget)
  {
    hide SatAdd, Select, UsedBy, TokenSum, TokensFrom, TotalUsage;
    if SatAdd(a.used, r.candidate.tokens) <= budget {
      SelectAccounts(a, r, WithinShared, budget);
    }
  }

  lemma {:induction false} ReserveAccounts(rs: seq<Ranked>, budget: nat)
    ensures Accounted(ReservePhase(rs, budget), budget)
  {
    hide ReserveStep;
    if rs != [] {
      hide Accounted;
      ReserveAccounts(rs[..|rs| - 1], budget);
      ReserveStepAccounts(ReservePhase(rs[..|rs| - 1], budget), rs[|rs| - 1], budget);
    }
  }

  lemma {:induction false} SharedAccounts(a: Alloc, rs: seq<Ranked>, budget: nat)
    requires Accounted(a, budget)
    ensures Accounted(SharedPhase(a, rs, budget), budget)
  {
    hide SharedStep, Accounted;
    if rs != [] {
      SharedAccounts(a, rs[..|rs| - 1], budget);
      SharedStepAccounts(SharedPhase(a, rs[..|rs| - 1], budget), rs[|rs| - 1], budget);
    }
  }

  /** The reported total is the cost of what was selected, the sum over the sources, and within budget.
      Only a budget of the largest representable number leaves room for the total to saturate. */
  lemma {:induction false} TotalsAreExact(cs: seq<Candidate>, budget: nat, a: Alloc)
    requires budget <= U64_MAX && a == Allocation(cs, budget)
    ensures a.used <= budget && a.used == Min(TokenSum(a.selected), U64_MAX)
    ensures budget < U64_MAX ==> a.used == TokenSum(a.selected) == TotalUsage(a.bySource)
    ensures forall s :: UsedBy(a.bySource, s) == TokensFrom(a.selected, s)
  {
    hide RankedAll, ReservePhase, SharedPhase, RankLess, ReserveLess, TokenSum, TokensFrom, TotalUsage, UsedBy;
    ReserveAccounts(ReserveOrder(cs), budget);
    var first := ReservePhase(ReserveOrder(cs), budget);
    SharedAccounts(first, Sorting.Sort(first.leftovers, RankLess), budget);
  }

  // ---------------------------------------------------------------------------
  // Nothing skipped for the budget would still fit

  ghost predicate NoneFits(a: Alloc, budget: nat) {
    forall e :: e in a.skipped && e.reason == BudgetExhausted ==> SatAdd(a.used, e.item.candidate.tokens) > budget
  }

  lemma {:induction false} ReserveSkipsDuplicates(rs: seq<Ranked>, budget: nat)
    ensures forall e :: e in ReservePhase(rs, budget).skipped ==> e.reason == DuplicateContent
  {
    hide DedupKey, Reserve, SatAdd, UsedBy;
    if rs != [] {
      ReserveSkipsDuplicates(rs[..|rs| - 1], budget);
    }
  }

  lemma {:induction false} SharedLeavesNoneFitting(a: Alloc, rs: seq<Ranked>, budget: nat)
    requires NoneFits(a, budget)
    ensures NoneFits(SharedPhase(a, rs, budget), budget)
  {
    hide UsedBy;
    if rs != [] {
      SharedLeavesNoneFitting(a, rs[..|rs| - 1], budget);
    }
  }

  /** An entry left out for the budget would not fit even after everything else was placed. */
  lemma {:induction false} SkippedDoNotFit(cs: seq<Candidate>, budget: nat)
    ensures NoneFits(Allocation(cs, budget), budget)
  {
    hide RankedAll, ReservePhase, SharedPhase, RankLess, ReserveLess;
    var first := ReservePhase(ReserveOrder(cs), budget);
    ReserveSkipsDuplicates(ReserveOrder(cs), budget);
    SharedLeavesNoneFitting(first, Sorting.Sort(first.leftovers, RankLess), budget);
  }

  // ---------------------------------------------------------------------------
  // Reserves are guaranteed

  /** No source has used more than its reserve. */
  ghost predicate WithinReserves(a: Alloc, budget: nat) {
    && a.used <= TotalUsage(a.bySource)
    && forall s :: UsedBy(a.bySource, s) <= Reserve(budget, s)
  }

  lemma {:induction false} ReservesLeaveRoom(budget: nat)
    ensures Reserve(budget, ManualPin) + Reserve(budget, AcceptedMemory) + Reserve(budget, RecentSession)
          + Reserve(budget, Ingest) + Reserve(budget, CodeGraph) <= budget * 85 / 100 <= budget
  {
  }

  lemma {:induction false} ReservesBoundTotal(u: Usage, budget: nat)
    requires forall s :: UsedBy(u, s) <= Reserve(budget, s)
    ensures TotalUsage(u) <= budget
  {
    ReservesLeaveRoom(budget);
    hide Reserve, UsedBy;
  }

  lemma {:induction false} SelectKeepsReserves(a: Alloc, r: Ranked, budget: nat)
    requires budget <= U64_MAX && forall s :: UsedBy(a.bySource, s) <= Reserve(budget, s)
    requires SatAdd(UsedBy(a.bySource, r.candidate.source), r.candidate.tokens) <= Reserve(budget, r.candidate.source)
    ensures forall s :: UsedBy(Select(a, r, WithinReserve).bySource, s) <= Reserve(budget, s)
  {
    FitsUnsaturated(UsedBy(a.bySource, r.candidate.source), r.candidate.tokens, r.candidate.source, budget);
    hide Reserve, UsedBy, SatAdd, Select;
    forall s ensures UsedBy(Select(a, r, WithinReserve).bySource, s) <= Reserve(budget, s) {
      UsedBySelect(a, r, WithinReserve, s);
      assert UsedBy(a.bySource, s) <= Reserve(budget, s);
    }
  }

  /** Whoever fits its reserve fits the budget: the reserve phase's second test never decides. */
  lemma {:induction false} ReserveTestDecides(a: Alloc, r: Ranked, budget: nat)
    requires budget <= U64_MAX && WithinReserves(a, budget)
    requires SatAdd(UsedBy(a.bySource, r.candidate.source), r.candidate.tokens) <= Reserve(budget, r.candidate.source)
    ensures SatAdd(a.used, r.candidate.tokens) <= budget
  {
    SelectKeepsReserves(a, r, budget);
    TotalSelect(a, r, WithinReserve);
    ReservesBoundTotal(Select(a, r, WithinReserve).bySource, budget);
  }

  lemma {:induction false} FitsUnsaturated(used: nat, cost: nat, s: Source, budget: nat)
    requires budget <= U64_MAX && SatAdd(used, cost) <= Reserve(budget, s)
    ensures used + cost <= Reserve(budget, s)
  {
    assert Reserve(budget, s) <= budget * 25 / 100;
  }

  lemma {:induction false} ReserveStepKeepsReserves(a: Alloc, r: Ranked, budget: nat)
    requires budget <= U64_MAX && Accounted(a, budget) && WithinReserves(a, budget)
    ensures WithinReserves(ReserveStep(a, r, budget), budget)
  {
    ReserveStepAccounts(a, r, budget);
    hide DedupKey, Reserve, UsedBy, TokenSum, TokensFrom, TotalUsage, SatAdd, Select;
    var source := r.candidate.source;
    if SatAdd(UsedBy(a.bySource, source), r.candidate.tokens) <= Reserve(budget, source) {
      SelectKeepsReserves(a.(seen := a.seen + {DedupKey(r.candidate)}), r, budget);
    }
    TotalIsUsed(ReserveStep(a, r, budget), budget);
  }

  lemma {:induction false} TotalIsUsed(a: Alloc, budget: nat)
    requires Accounted(a, budget)
    ensures a.used <= TotalUsage(a.bySource)
  {
    hide TokenSum, TokensFrom, TotalUsage, UsedBy;
  }

  lemma {:induction false} ReservePhaseKeepsReserves(rs: seq<Ranked>, budget: nat)
    requires budget <= U64_MAX
    ensures WithinReserves(ReservePhase(rs, budget), budget)
  {
    hide ReserveStep;
    if rs != [] {
      hide WithinReserves;
      ReservePhaseKeepsReserves(rs[..|rs| - 1], budget);
      ReserveAccounts(rs[..|rs| - 1], budget);
      ReserveStepKeepsReserves(ReservePhase(rs[..|rs| - 1], budget), rs[|rs| - 1], budget);
    }
  }

  /** The content of `rs[k]` was already met earlier in the order. */
  predicate Repeated(rs: seq<Ranked>, k: nat) {
    k < |rs| && exists j :: 0 <= j < k && DedupKey(rs[j].candidate) == DedupKey(rs[k].candidate)
  }

  lemma {:induction false} SeenIsKeys(rs: seq<Ranked>, k: nat, budget: nat)
    requires k <= |rs|
    ensures forall key :: key in ReservePhase(rs[..k], budget).seen
                     <==> exists j :: 0 <= j < k && DedupKey(rs[j].candidate) == key
  {
    hide DedupKey, Reserve, SatAdd, UsedBy;
    if k > 0 {
      SeenIsKeys(rs, k - 1, budget);
      ReservePhaseStep(rs, k - 1, budget);
      hide ReservePhase;
      var key := DedupKey(rs[k - 1].candidate);
      assert ReservePhase(rs[..k], budget).seen == ReservePhase(rs[..k - 1], budget).seen + {key};
    }
  }

  /** A source nobody spoke for yet has used nothing. */
  lemma {:induction false} UntouchedSource(rs: seq<Ranked>, k: nat, budget: nat, s: Source)
    requires k <= |rs|
    requires forall j :: 0 <= j < k && rs[j].candidate.source == s ==> Repeated(rs, j)
    ensures UsedBy(ReservePhase(rs[..k], budget).bySource, s) == 0
  {
    hide DedupKey, Reserve, SatAdd;
    if k > 0 {
      UntouchedSource(rs, k - 1, budget, s);
      ReservePhaseStep(rs, k - 1, budget);
      SeenIsKeys(rs, k - 1, budget);
      hide ReservePhase;
    }
  }

  lemma {:induction false} SharedKeepsSelected(a: Alloc, rs: seq<Ranked>, budget: nat)
    ensures a.selected <= SharedPhase(a, rs, budget).selected
  {
    hide SatAdd, UsedBy;
    if rs != [] {
      SharedKeepsSelected(a, rs[..|rs| - 1], budget);
    }
  }

  lemma {:induction false} ReserveKeepsSelected(rs: seq<Ranked>, k: nat, budget: nat)
    requires k <= |rs|
    ensures ReservePhase(rs[..k], budget).selected <= ReservePhase(rs, budget).selected
    decreases |rs| - k
  {
    if k == |rs| {
      assert rs[..k] == rs;
    } else {
      ReserveKeepsSelected(rs, k + 1, budget);
      ReservePhaseStep(rs, k, budget);
      hide DedupKey, Reserve, SatAdd, UsedBy, ReservePhase;
    }
  }

  /** A source's best candidate that repeats nothing is selected whenever it fits the source's reserve,
      whatever the other sources bring. */
  lemma {:induction false} ReserveIsGuaranteed(cs: seq<Candidate>, budget: nat, rs: seq<Ranked>, k: nat)
    requires budget <= U64_MAX && rs == ReserveOrder(cs) && k < |rs| && !Repeated(rs, k)
    requires forall j :: 0 <= j < k && rs[j].candidate.source == rs[k].candidate.source ==> Repeated(rs, j)
    requires rs[k].candidate.tokens <= Reserve(budget, rs[k].candidate.source)
    ensures Entry(rs[k], WithinReserve) in Allocation(cs, budget).selected
  {
    hide DedupKey, Reserve, RankLess, ReserveLess, RankedAll;
    var a := ReservePhase(rs[..k], budget);
    UntouchedSource(rs, k, budget, rs[k].candidate.source);
    SeenIsKeys(rs, k, budget);
    assert DedupKey(rs[k].candidate) !in a.seen;
    ReservePhaseKeepsReserves(rs[..k], budget);
    ReserveTestDecides(a, rs[k], budget);
    ReservePhaseStep(rs, k, budget);
    ReserveKeepsSelected(rs, k + 1, budget);
    hide ReservePhase, UsedBy;
    var chosen := ReservePhase(rs[..k + 1], budget).selected;
    assert chosen[|chosen| - 1] == Entry(rs[k], WithinReserve);
    var first := ReservePhase(rs, budget);
    SharedKeepsSelected(first, Sorting.Sort(first.leftovers, RankLess), budget);
    assert Allocation(cs, budget).selected[|chosen| - 1] == Entry(rs[k], WithinReserve);
  }

  // ---------------------------------------------------------------------------
  // Duplicate content competes once

  function KeyOf(r: Ranked): string {
    DedupKey(r.candidate)
  }

  function Keys(rs: seq<Ranked>): seq<string> {
    Sorting.Map(rs, KeyOf)
  }

  /** The skipped entries that were not duplicates. */
  function Competed(skipped: seq<Entry>): seq<Ranked> {
    if skipped == [] then []
    else
      var e := skipped[|skipped| - 1];
      Competed(skipped[..|skipped| - 1]) + if e.reason == DuplicateContent then [] else [e.item]
  }

  /** The content keys of everything that competed, with multiplicity. */
  ghost function Contents(a: Alloc, waiting: seq<Ranked>): multiset<string> {
    multiset(Keys(Items(a.selected))) + multiset(Keys(Competed(a.skipped))) + multiset(Keys(waiting))
  }

  /** What competed is one entry per content seen, and what was skipped as duplicate had been seen. */
  ghost predicate OneEach(a: Alloc, waiting: seq<Ranked>) {
    && (forall key :: Contents(a, waiting)[key] == if key in a.seen then 1 else 0)
    && forall e :: e in a.skipped && e.reason == DuplicateContent ==> KeyOf(e.item) in a.seen
  }

  lemma {:induction false} KeysPush(rs: seq<Ranked>, r: Ranked)
    ensures multiset(Keys(rs + [r])) == multiset(Keys(rs)) + multiset{KeyOf(r)}
  {
    hide DedupKey;
    assert Keys(rs + [r]) == Keys(rs) + [KeyOf(r)];
  }

  lemma {:induction false} NoKeys()
    ensures Keys([]) == []
  {
    assert |Keys([])| == 0;
  }

  lemma {:induction false} ItemsAppend(entries: seq<Entry>, e: Entry)
    ensures Items(entries + [e]) == Items(entries) + [e.item]
    ensures Competed(entries + [e]) == Competed(entries) + if e.reason == DuplicateContent then [] else [e.item]
  {
    assert (entries + [e])[..|entries|] == entries;
  }

  lemma {:induction false} ReserveStepOneEach(a: Alloc, r: Ranked, budget: nat, b: Alloc)
    requires OneEach(a, a.leftovers) && b == ReserveStep(a, r, budget)
    ensures OneEach(b, b.leftovers)
  {
    hide DedupKey, Reserve, SatAdd, UsedBy, Items, Competed, Keys;
    ItemsAppend(a.skipped, Entry(r, DuplicateContent));
    ItemsAppend(a.selected, Entry(r, WithinReserve));
    KeysPush(Items(a.selected), r);
    KeysPush(a.leftovers, r);
    if KeyOf(r) in a.seen {
      assert Competed(b.skipped) == Competed(a.skipped);
      assert Contents(b, b.leftovers) == Contents(a, a.leftovers);
    } else {
      assert Contents(b, b.leftovers) == Contents(a, a.leftovers) + multiset{KeyOf(r)};
    }
  }

  lemma {:induction false} ReserveOneEach(rs: seq<Ranked>, budget: nat)
    ensures OneEach(ReservePhase(rs, budget), ReservePhase(rs, budget).leftovers)
  {
    hide ReserveStep;
    if rs == [] {
      assert Contents(NOTHING, []) == multiset{};
    } else {
      hide OneEach;
      ReserveOneEach(rs[..|rs| - 1], budget);
      ReserveStepOneEach(ReservePhase(rs[..|rs| - 1], budget), rs[|rs| - 1], budget, ReservePhase(rs, budget));
    }
  }

  lemma {:induction false} SharedStepOneEach(a: Alloc, r: Ranked, budget: nat)
    ensures Contents(SharedStep(a, r, budget), []) == Contents(a, [r])
    ensures SharedStep(a, r, budget).seen == a.seen
    ensures forall e :: e in SharedStep(a, r, budget).skipped && e.reason == DuplicateContent ==> e in a.skipped
  {
    hide DedupKey, SatAdd, UsedBy, Items, Competed, Keys;
    ItemsAppend(a.skipped, Entry(r, BudgetExhausted));
    ItemsAppend(a.selected, Entry(r, WithinShared));
    KeysPush(Items(a.selected), r);
    KeysPush(Competed(a.skipped), r);
    KeysPush([], r);
    assert [] + [r] == [r];
    NoKeys();
  }

  lemma {:induction false} ContentsPush(a: Alloc, waiting: seq<Ranked>, r: Ranked)
    ensures Contents(a, waiting + [r]) == Contents(a, waiting) + multiset{KeyOf(r)}
  {
    hide DedupKey, Items, Competed, Keys;
    KeysPush(waiting, r);
  }

  lemma {:induction false} SharedOneEach(a: Alloc, rs: seq<Ranked>, budget: nat)
    ensures Contents(SharedPhase(a, rs, budget), []) == Contents(a, rs)
    ensures SharedPhase(a, rs, budget).seen == a.seen
    ensures forall e :: e in SharedPhase(a, rs, budget).skipped && e.reason == DuplicateContent ==> e in a.skipped
  {
    hide SharedStep, DedupKey, Items, Competed, Keys, Contents;
    if rs != [] {
      var init, r := rs[..|rs| - 1], rs[|rs| - 1];
      assert rs == init + [r];
      SharedOneEach(a, init, budget);
      SharedStepOneEach(SharedPhase(a, init, budget), r, budget);
      ContentsPush(a, init, r);
      ContentsPush(SharedPhase(a, init, budget), [], r);
      assert [] + [r] == [r];
    }
  }

  /** Each content is selected or skipped for the budget exactly once; every other copy is skipped as a
      duplicate of it. */
  lemma {:induction false} ContentCompetesOnce(cs: seq<Candidate>, budget: nat, a: Alloc)
    requires a == Allocation(cs, budget)
    ensures forall key :: Contents(a, [])[key] <= 1
    ensures forall e :: e in a.skipped && e.reason == DuplicateContent ==> KeyOf(e.item) in Contents(a, [])
  {
    hide RankedAll, ReservePhase, SharedPhase, RankLess, ReserveLess, DedupKey, Keys, Items, Competed;
    var first := ReservePhase(ReserveOrder(cs), budget);
    var order := Sorting.Sort(first.leftovers, RankLess);
    ReserveOneEach(ReserveOrder(cs), budget);
    SharedOneEach(first, order, budget);
    Sorting.SortPermutes(first.leftovers, RankLess);
    KeysPermute(order, first.leftovers);
    assert Contents(first, order) == Contents(first, first.leftovers);
  }

  lemma {:induction false} KeysPermute(a: seq<Ranked>, b: seq<Ranked>)
    requires multiset(a) == multiset(b)
    ensures multiset(Keys(a)) == multiset(Keys(b))
  {
    hide DedupKey;
    Sorting.MapPermutes(a, b, KeyOf);
  }
}
