/** What the allocator's order means in scores: who comes first, who is left out for whom, and what a repeated path
    costs. */
module PackScores {
  import opened Numbers
  import opened Pack
  import opened PackLaws
  import Sorting
  import T = Text
  import TextLines

  // ---------------------------------------------------------------------------
  // Orders, told in scores

  /** The sources, most trusted first. */
  const TRUST: seq<Source> := [ManualPin, AcceptedMemory, RecentSession, Ingest, CodeGraph]

  ghost predicate MoreTrusted(a: Source, b: Source) {
    exists i, j :: 0 <= i < j < |TRUST| && TRUST[i] == a && TRUST[j] == b
  }

  /** `a` and `b` agree up to position `n`, where `a` ends or has the smaller character. */
  predicate EarlierAt(a: string, b: string, n: nat) {
    n <= |a| && n < |b| && (forall i :: 0 <= i < n ==> a[i] == b[i]) && (n == |a| || a[n] < b[n])
  }

  /** `a` comes before `b` in a dictionary. */
  ghost predicate Earlier(a: string, b: string) {
    exists n: nat :: EarlierAt(a, b, n)
  }

  function Score(r: Ranked): int {
    r.signals.finalScore
  }

  /** In the shared pool nothing stands before what has a higher score, at equal scores before what comes from a more
      trusted source, and at the same source before what has an earlier id. */
  ghost predicate MayPrecede(a: Ranked, b: Ranked) {
    || Score(a) > Score(b)
    || (Score(a) == Score(b) &&
        (|| MoreTrusted(a.candidate.source, b.candidate.source)
         || (a.candidate.source == b.candidate.source && !Earlier(b.candidate.id, a.candidate.id))))
  }

  /** In the reserves trust comes first, then the score, then the id. */
  ghost predicate MayPrecedeInReserve(a: Ranked, b: Ranked) {
    || MoreTrusted(a.candidate.source, b.candidate.source)
    || (a.candidate.source == b.candidate.source &&
        (Score(a) > Score(b) || (Score(a) == Score(b) && !Earlier(b.candidate.id, a.candidate.id))))
  }

  lemma {:induction false} PriorityIsTrust(a: Source, b: Source)
    ensures Priority(a) < Priority(b) <==> MoreTrusted(a, b)
    ensures Priority(a) == Priority(b) <==> a == b
  {
    assert TRUST[Priority(a)] == a && TRUST[Priority(b)] == b;
    forall i | 0 <= i < |TRUST| ensures Priority(TRUST[i]) == i {
    }
  }

  lemma {:induction false} EarlierShifts(a: string, b: string, n: nat)
    requires a != "" && b != "" && a[0] == b[0]
    ensures EarlierAt(a, b, n + 1) <==> EarlierAt(a[1..], b[1..], n)
    ensures !EarlierAt(a, b, 0)
  {
    if EarlierAt(a[1..], b[1..], n) {
      forall i | 0 <= i < n + 1 ensures a[i] == b[i] {
        assert i > 0 ==> a[i] == a[1..][i - 1] && b[i] == b[1..][i - 1];
      }
    }
  }

  lemma {:induction false} LessIsEarlier(a: string, b: string)
    ensures T.StringLess(a, b) <==> Earlier(a, b)
  {
    if b != "" && a != "" && a[0] == b[0] {
      hide EarlierAt;
      LessIsEarlier(a[1..], b[1..]);
      if Earlier(a[1..], b[1..]) {
        var n: nat :| EarlierAt(a[1..], b[1..], n);
        EarlierShifts(a, b, n);
      }
      if Earlier(a, b) {
        var n: nat :| EarlierAt(a, b, n);
        EarlierShifts(a, b, if n == 0 then 0 else n - 1);
      }
    } else {
      if T.StringLess(a, b) {
        assert EarlierAt(a, b, 0);
      }
      if Earlier(a, b) {
        var n: nat :| EarlierAt(a, b, n);
        EarlierAtOnce(a, b, n);
      }
    }
  }

  lemma {:induction false} EarlierAtOnce(a: string, b: string, n: nat)
    requires EarlierAt(a, b, n) && !(a != "" && b != "" && a[0] == b[0])
    ensures n == 0
  {
  }

  lemma {:induction false} RankIsScore(a: Ranked, b: Ranked)
    ensures !RankLess(b, a) <==> MayPrecede(a, b)
    ensures !ReserveLess(b, a) <==> MayPrecedeInReserve(a, b)
  {
    hide MoreTrusted, Earlier, T.StringLess, Priority;
    PriorityIsTrust(a.candidate.source, b.candidate.source);
    PriorityIsTrust(b.candidate.source, a.candidate.source);
    LessIsEarlier(b.candidate.id, a.candidate.id);
  }

  lemma {:induction false} ScoresRank()
    ensures Sorting.Ranks(RankLess) && Sorting.Ranks(ReserveLess)
  {
    forall a, b, c
      ensures RankLess(a, b) ==> !RankLess(b, a)
      ensures ReserveLess(a, b) ==> !ReserveLess(b, a)
      ensures !RankLess(a, b) && !RankLess(b, c) ==> !RankLess(a, c)
      ensures !ReserveLess(a, b) && !ReserveLess(b, c) ==> !ReserveLess(a, c)
    {
      RanksBy(a, b, c);
    }
  }

  lemma {:induction false} RanksBy(a: Ranked, b: Ranked, c: Ranked)
    ensures RankLess(a, b) ==> !RankLess(b, a)
    ensures ReserveLess(a, b) ==> !ReserveLess(b, a)
    ensures !RankLess(a, b) && !RankLess(b, c) ==> !RankLess(a, c)
    ensures !ReserveLess(a, b) && !ReserveLess(b, c) ==> !ReserveLess(a, c)
  {
    hide T.StringLess, Priority;
    IdsRank(a.candidate.id, b.candidate.id, c.candidate.id);
  }

  lemma {:induction false} IdsRank(a: string, b: string, c: string)
    ensures T.StringLess(a, b) ==> !T.StringLess(b, a)
    ensures !T.StringLess(a, b) && !T.StringLess(b, c) ==> !T.StringLess(a, c)
  {
    IdsAreStrict(a, b, a);
    IdsAreStrict(b, c, b);
    IdsAreStrict(a, c, b);
    IdsAreStrict(b, a, c);
    IdsAreStrict(c, b, a);
  }

  // ---------------------------------------------------------------------------
  // The order of a pack

  /** Both are selected in the shared pool, the first before the second. */
  ghost predicate SharedPair(entries: seq<Entry>, i: nat, j: nat) {
    i < j < |entries| && entries[i].reason == WithinShared && entries[j].reason == WithinShared
  }

  /** What competed in the shared pool stands by score, among the selected and among the skipped. */
  ghost predicate SharedInOrder(a: Alloc) {
    && (forall i: nat, j: nat :: SharedPair(a.selected, i, j) ==> MayPrecede(a.selected[i].item, a.selected[j].item))
    && (forall i, j :: 0 <= i < j < |a.skipped| && a.skipped[i].reason == BudgetExhausted
                       && a.skipped[j].reason == BudgetExhausted
                       ==> MayPrecede(a.skipped[i].item, a.skipped[j].item))
  }

  /** What competed in the shared pool so far comes from `rs`. */
  ghost predicate SharedFrom(a: Alloc, rs: seq<Ranked>) {
    && (forall e :: e in a.selected && e.reason == WithinShared ==> e.item in rs)
    && (forall e :: e in a.skipped && e.reason == BudgetExhausted ==> e.item in rs)
  }

  /** Who was skipped for the budget lost it to nobody with a lower score that costs as much. */
  ghost predicate SharedIsFair(a: Alloc) {
    forall s, t :: s in a.skipped && s.reason == BudgetExhausted && t in a.selected && t.reason == WithinShared
                   && t.item.candidate.tokens >= s.item.candidate.tokens
      ==> MayPrecede(t.item, s.item)
  }

  /** Nothing has competed in the shared pool yet. */
  ghost predicate NothingShared(a: Alloc) {
    && (forall e :: e in a.selected ==> e.reason != WithinShared)
    && (forall e :: e in a.skipped ==> e.reason != BudgetExhausted)
  }

  /** Everything in `rs` may stand before `r`. */
  ghost predicate AllPrecede(rs: seq<Ranked>, r: Ranked) {
    forall x :: x in rs ==> MayPrecede(x, r)
  }

  lemma {:induction false} InSnoc(entries: seq<Entry>, e: Entry, x: Entry)
    ensures x in entries + [e] <==> x in entries || x == e
  {
  }

  lemma {:induction false} SharedStepInOrder(a: Alloc, rs: seq<Ranked>, r: Ranked, budget: nat)
    requires SharedInOrder(a) && SharedFrom(a, rs) && AllPrecede(rs, r)
    ensures SharedInOrder(SharedStep(a, r, budget)) && SharedFrom(SharedStep(a, r, budget), rs + [r])
  {
    hide MayPrecede, SatAdd, UsedBy;
    var b := SharedStep(a, r, budget);
    assert forall x :: x in rs + [r] <==> x in rs || x == r;
    if b.selected != a.selected {
      var e := Entry(r, WithinShared);
      assert b.selected == a.selected + [e] && b.skipped == a.skipped;
      forall i: nat, j: nat | SharedPair(b.selected, i, j) ensures MayPrecede(b.selected[i].item, b.selected[j].item) {
        if j < |a.selected| {
          assert SharedPair(a.selected, i, j);
        } else {
          assert a.selected[i] in a.selected;
        }
      }
    } else {
      var e := Entry(r, BudgetExhausted);
      assert b.skipped == a.skipped + [e] && b.selected == a.selected;
      forall i, j | 0 <= i < j < |b.skipped| && b.skipped[i].reason == BudgetExhausted && b.skipped[j].reason == BudgetExhausted
        ensures MayPrecede(b.skipped[i].item, b.skipped[j].item)
      {
        if j == |a.skipped| {
          assert a.skipped[i] in a.skipped;
        }
      }
    }
  }

  lemma {:induction false} SharedStepIsFair(a: Alloc, rs: seq<Ranked>, r: Ranked, budget: nat)
    requires SharedIsFair(a) && SharedFrom(a, rs) && AllPrecede(rs, r) && NoneFits(a, budget)
    ensures SharedIsFair(SharedStep(a, r, budget))
  {
    hide MayPrecede, UsedBy;
    var b := SharedStep(a, r, budget);
    if SatAdd(a.used, r.candidate.tokens) <= budget {
      forall s | s in a.skipped && s.reason == BudgetExhausted
        ensures r.candidate.tokens < s.item.candidate.tokens
      {
        assert SatAdd(a.used, s.item.candidate.tokens) > budget;
      }
    }
    forall s, t | s in b.skipped && s.reason == BudgetExhausted && t in b.selected && t.reason == WithinShared
                  && t.item.candidate.tokens >= s.item.candidate.tokens
      ensures MayPrecede(t.item, s.item)
    {
      if SatAdd(a.used, r.candidate.tokens) <= budget {
        InSnoc(a.selected, Entry(r, WithinShared), t);
      } else {
        InSnoc(a.skipped, Entry(r, BudgetExhausted), s);
      }
    }
  }

  lemma {:induction false} PrefixPrecedes(rs: seq<Ranked>)
    requires rs != [] && Sorting.Ascending(rs, RankLess)
    ensures AllPrecede(rs[..|rs| - 1], rs[|rs| - 1]) && Sorting.Ascending(rs[..|rs| - 1], RankLess)
  {
    hide RankLess, MayPrecede;
    var init, r := rs[..|rs| - 1], rs[|rs| - 1];
    forall x | x in init ensures MayPrecede(x, r) {
      var i :| 0 <= i < |init| && init[i] == x;
      assert !RankLess(rs[|rs| - 1], rs[i]);
      RankIsScore(x, r);
    }
  }

  lemma {:induction false} SharedPhaseOrders(a: Alloc, rs: seq<Ranked>, budget: nat)
    requires NothingShared(a) && NoneFits(a, budget) && Sorting.Ascending(rs, RankLess)
    ensures var b := SharedPhase(a, rs, budget);
            SharedInOrder(b) && SharedFrom(b, rs) && SharedIsFair(b)
  {
    if rs == [] {
      assert a.selected == SharedPhase(a, rs, budget).selected;
      forall i | 0 <= i < |a.selected| ensures a.selected[i].reason != WithinShared {
        assert a.selected[i] in a.selected;
      }
      forall i | 0 <= i < |a.skipped| ensures a.skipped[i].reason != BudgetExhausted {
        assert a.skipped[i] in a.skipped;
      }
    } else {
      hide NothingShared, SharedInOrder, SharedFrom, SharedIsFair, SharedStep, AllPrecede, NoneFits, RankLess, Sorting.Ascending;
      var init, r := rs[..|rs| - 1], rs[|rs| - 1];
      assert rs == init + [r];
      PrefixPrecedes(rs);
      SharedPhaseOrders(a, init, budget);
      SharedLeavesNoneFitting(a, init, budget);
      SharedStepInOrder(SharedPhase(a, init, budget), init, r, budget);
      SharedStepIsFair(SharedPhase(a, init, budget), init, r, budget);
    }
  }

  // ---------------------------------------------------------------------------
  // The order of the reserves

  /** What was selected within the reserves stands by trust, score and id. */
  ghost predicate ReservesInOrder(selected: seq<Entry>) {
    forall i, j :: 0 <= i < j < |selected| && selected[i].reason == WithinReserve && selected[j].reason == WithinReserve
      ==> MayPrecedeInReserve(selected[i].item, selected[j].item)
  }

  /** Everything placed or left waiting so far comes from `rs`. */
  ghost predicate ReserveFrom(a: Alloc, rs: seq<Ranked>) {
    && (forall e :: e in a.selected ==> e.item in rs && e.reason == WithinReserve)
    && (forall r :: r in a.leftovers ==> r in rs)
  }

  /** Whoever is left waiting does not fit its source's reserve, or the budget, any more. */
  ghost predicate WaitersDoNotFit(a: Alloc, budget: nat) {
    forall r :: r in a.leftovers ==>
      || SatAdd(UsedBy(a.bySource, r.candidate.source), r.candidate.tokens) > Reserve(budget, r.candidate.source)
      || SatAdd(a.used, r.candidate.tokens) > budget
  }

  /** Of one source nobody waits for a reserved place that went to a lower score of the same cost. */
  ghost predicate ReserveIsFair(a: Alloc) {
    forall r, e :: r in a.leftovers && e in a.selected && e.item.candidate.source == r.candidate.source
                   && e.item.candidate.tokens >= r.candidate.tokens
      ==> MayPrecedeInReserve(e.item, r)
  }

  ghost predicate AllPrecedeInReserve(rs: seq<Ranked>, r: Ranked) {
    forall x :: x in rs ==> MayPrecedeInReserve(x, r)
  }

  lemma {:induction false} UsageGrows(a: Alloc, r: Ranked, reason: Reason, s: Source, cost: nat)
    ensures SatAdd(UsedBy(Select(a, r, reason).bySource, s), cost) >= SatAdd(UsedBy(a.bySource, s), cost)
    ensures SatAdd(Select(a, r, reason).used, cost) >= SatAdd(a.used, cost) || a.used > U64_MAX
  {
    UsedBySelect(a, r, reason, s);
  }

  lemma {:induction false} ReserveStepWaits(a: Alloc, r: Ranked, budget: nat)
    requires WaitersDoNotFit(a, budget) && a.used <= U64_MAX
    ensures WaitersDoNotFit(ReserveStep(a, r, budget), budget)
  {
    hide DedupKey, Reserve, UsedBy, SatAdd, Select;
    var b := ReserveStep(a, r, budget);
    var a1 := a.(seen := a.seen + {DedupKey(r.candidate)});
    SelectLeaves(a1, r);
    forall w | w in b.leftovers
      ensures SatAdd(UsedBy(b.bySource, w.candidate.source), w.candidate.tokens) > Reserve(budget, w.candidate.source)
           || SatAdd(b.used, w.candidate.tokens) > budget
    {
      UsageGrows(a1, r, WithinReserve, w.candidate.source, w.candidate.tokens);
    }
  }

  lemma {:induction false} SelectLeaves(a: Alloc, r: Ranked)
    ensures var b := Select(a, r, WithinReserve);
            b.leftovers == a.leftovers && b.skipped == a.skipped && b.selected == a.selected + [Entry(r, WithinReserve)]
  {
  }

  lemma {:induction false} ReserveStepOrders(a: Alloc, rs: seq<Ranked>, r: Ranked, budget: nat)
    requires ReservesInOrder(a.selected) && ReserveFrom(a, rs) && AllPrecedeInReserve(rs, r)
    ensures ReservesInOrder(ReserveStep(a, r, budget).selected) && ReserveFrom(ReserveStep(a, r, budget), rs + [r])
  {
    hide DedupKey, Reserve, UsedBy, SatAdd, Select, MayPrecedeInReserve;
    var b := ReserveStep(a, r, budget);
    SelectLeaves(a.(seen := a.seen + {DedupKey(r.candidate)}), r);
    forall i, j | 0 <= i < j < |b.selected| && b.selected[i].reason == WithinReserve && b.selected[j].reason == WithinReserve
      ensures MayPrecedeInReserve(b.selected[i].item, b.selected[j].item)
    {
      if j == |a.selected| {
        assert a.selected[i] in a.selected;
      }
    }
  }

  lemma {:induction false} ReserveStepIsFair(a: Alloc, rs: seq<Ranked>, r: Ranked, budget: nat)
    requires ReserveIsFair(a) && ReserveFrom(a, rs) && AllPrecedeInReserve(rs, r) && WaitersDoNotFit(a, budget)
    ensures ReserveIsFair(ReserveStep(a, r, budget))
  {
    hide DedupKey, Reserve, UsedBy, Select, MayPrecedeInReserve;
    var b := ReserveStep(a, r, budget);
    var source := r.candidate.source;
    SelectLeaves(a.(seen := a.seen + {DedupKey(r.candidate)}), r);
    if SatAdd(UsedBy(a.bySource, source), r.candidate.tokens) <= Reserve(budget, source)
       && SatAdd(a.used, r.candidate.tokens) <= budget
    {
      forall w | w in a.leftovers && w.candidate.source == source ensures r.candidate.tokens < w.candidate.tokens {
      }
    }
    forall w, e | w in b.leftovers && e in b.selected && e.item.candidate.source == w.candidate.source
                  && e.item.candidate.tokens >= w.candidate.tokens
      ensures MayPrecedeInReserve(e.item, w)
    {
      if b.selected != a.selected {
        InSnoc(a.selected, Entry(r, WithinReserve), e);
      }
    }
  }

  lemma {:induction false} PrefixPrecedesInReserve(rs: seq<Ranked>)
    requires rs != [] && Sorting.Ascending(rs, ReserveLess)
    ensures AllPrecedeInReserve(rs[..|rs| - 1], rs[|rs| - 1]) && Sorting.Ascending(rs[..|rs| - 1], ReserveLess)
  {
    hide ReserveLess, MayPrecedeInReserve;
    var init, r := rs[..|rs| - 1], rs[|rs| - 1];
    forall x | x in init ensures MayPrecedeInReserve(x, r) {
      var i :| 0 <= i < |init| && init[i] == x;
      assert !ReserveLess(rs[|rs| - 1], rs[i]);
      RankIsScore(x, r);
    }
  }

  lemma {:induction false} ReservePhaseOrders(rs: seq<Ranked>, budget: nat)
    requires budget <= U64_MAX && Sorting.Ascending(rs, ReserveLess)
    ensures var a := ReservePhase(rs, budget);
            ReservesInOrder(a.selected) && ReserveFrom(a, rs) && ReserveIsFair(a) && WaitersDoNotFit(a, budget)
  {
    if rs != [] {
      hide ReservesInOrder, ReserveFrom, ReserveIsFair, WaitersDoNotFit, ReserveStep, AllPrecedeInReserve, ReserveLess,
           Sorting.Ascending, TokenSum, TokensFrom, TotalUsage, UsedBy;
      var init, r := rs[..|rs| - 1], rs[|rs| - 1];
      var a := ReservePhase(init, budget);
      assert rs == init + [r];
      PrefixPrecedesInReserve(rs);
      ReservePhaseOrders(init, budget);
      ReserveAccounts(init, budget);
      ReserveStepOrders(a, init, r, budget);
      ReserveStepIsFair(a, init, r, budget);
      ReserveStepWaits(a, r, budget);
    }
  }

  lemma {:induction false} SharedAppends(a: Alloc, rs: seq<Ranked>, budget: nat) returns (more: seq<Entry>, left: seq<Entry>)
    ensures SharedPhase(a, rs, budget).selected == a.selected + more
    ensures SharedPhase(a, rs, budget).skipped == a.skipped + left
    ensures forall e :: e in more ==> e.reason == WithinShared
    ensures forall e :: e in left ==> e.reason == BudgetExhausted
  {
    hide SatAdd, UsedBy;
    more, left := [], [];
    if rs != [] {
      var r := rs[|rs| - 1];
      more, left := SharedAppends(a, rs[..|rs| - 1], budget);
      var b := SharedPhase(a, rs[..|rs| - 1], budget);
      if SatAdd(b.used, r.candidate.tokens) <= budget {
        assert b.selected + [Entry(r, WithinShared)] == a.selected + (more + [Entry(r, WithinShared)]);
        more := more + [Entry(r, WithinShared)];
      } else {
        assert b.skipped + [Entry(r, BudgetExhausted)] == a.skipped + (left + [Entry(r, BudgetExhausted)]);
        left := left + [Entry(r, BudgetExhausted)];
      }
    }
  }

  /** A pack stands in order: first what the reserves took, by trust, score and id, then what the shared pool took, by
      score, trust and id; what was skipped for the budget stands by score too, behind the duplicates. */
  lemma {:induction false} PackInOrder(cs: seq<Candidate>, budget: nat, a: Alloc)
    requires budget <= U64_MAX && a == Allocation(cs, budget)
    ensures ReservesInOrder(a.selected) && SharedInOrder(a)
    ensures forall i, j :: 0 <= i < j < |a.selected| && a.selected[i].reason == WithinShared
              ==> a.selected[j].reason == WithinShared
    ensures forall i, j :: 0 <= i < j < |a.skipped| && a.skipped[i].reason == BudgetExhausted
              ==> a.skipped[j].reason == BudgetExhausted
  {
    hide RankedAll, ReservePhase, SharedPhase, RankLess, ReserveLess, MayPrecede, MayPrecedeInReserve, Sorting.Sort;
    var order := ReserveOrder(cs);
    var first := ReservePhase(order, budget);
    var shared := Sorting.Sort(first.leftovers, RankLess);
    ScoresRank();
    Sorting.SortAscendsByRank(RankedAll(cs), ReserveLess);
    Sorting.SortAscendsByRank(first.leftovers, RankLess);
    ReservePhaseOrders(order, budget);
    ReserveSkipsDuplicates(order, budget);
    SharedPhaseOrders(first, shared, budget);
    var more, left := SharedAppends(first, shared, budget);
    forall i | 0 <= i < |a.selected|
      ensures a.selected[i].reason == if i < |first.selected| then WithinReserve else WithinShared
      ensures i < |first.selected| ==> a.selected[i] == first.selected[i]
    {
      if i < |first.selected| {
        assert first.selected[i] in first.selected;
      } else {
        assert more[i - |first.selected|] in more;
      }
    }
    forall i | 0 <= i < |a.skipped|
      ensures a.skipped[i].reason == if i < |first.skipped| then DuplicateContent else BudgetExhausted
    {
      if i < |first.skipped| {
        assert first.skipped[i] in first.skipped;
      } else {
        assert left[i - |first.skipped|] in left;
      }
    }
  }

  /** Whoever is skipped for the budget lost it to nobody with a lower score that costs as much; and of one source,
      whoever is not taken within the reserve lost it to nobody of the kind either. */
  lemma {:induction false} PackIsFair(cs: seq<Candidate>, budget: nat, a: Alloc, s: Entry, t: Entry)
    requires budget <= U64_MAX && a == Allocation(cs, budget)
    requires t in a.selected && t.item.candidate.tokens >= s.item.candidate.tokens
    ensures s in a.skipped && s.reason == BudgetExhausted && t.reason == WithinShared ==> Score(t.item) >= Score(s.item)
    ensures ((s in a.skipped && s.reason == BudgetExhausted) || (s in a.selected && s.reason == WithinShared))
            && t.reason == WithinReserve && t.item.candidate.source == s.item.candidate.source
            ==> Score(t.item) >= Score(s.item)
  {
    hide RankedAll, ReservePhase, SharedPhase, RankLess, ReserveLess, MayPrecede, MayPrecedeInReserve, Sorting.Sort;
    var order := ReserveOrder(cs);
    var first := ReservePhase(order, budget);
    var shared := Sorting.Sort(first.leftovers, RankLess);
    ScoresRank();
    Sorting.SortAscendsByRank(RankedAll(cs), ReserveLess);
    Sorting.SortAscendsByRank(first.leftovers, RankLess);
    ReservePhaseOrders(order, budget);
    ReserveSkipsDuplicates(order, budget);
    SharedPhaseOrders(first, shared, budget);
    var more, left := SharedAppends(first, shared, budget);
    Sorting.SortPermutes(first.leftovers, RankLess);
    if s.item in shared {
      assert s.item in multiset(shared);
      assert s.item in first.leftovers;
    }
    if t.reason == WithinReserve {
      assert t in first.selected;
    }
    PrecedingScores(t.item, s.item);
  }

  lemma {:induction false} PrecedingScores(a: Ranked, b: Ranked)
    ensures MayPrecede(a, b) ==> Score(a) >= Score(b)
    ensures MayPrecedeInReserve(a, b) && a.candidate.source == b.candidate.source ==> Score(a) >= Score(b)
  {
    PriorityIsTrust(a.candidate.source, b.candidate.source);
  }

  // ---------------------------------------------------------------------------
  // Scores

  /** The signals but for repeated paths add up, each on its own: a trusted source is worth more, recency counts up to
      50, a named file 20, confidence up to 15, a near neighbour in the code graph 3 a step, and being stale costs 25. */
  lemma {:induction false} ScoreAddsUp(c: Candidate)
    ensures var s := BaseSignals(c);
            && s.finalScore == s.relevance + s.sourceQuality + s.recency + s.fileMatch + s.confidence + s.graphProximity
                             + s.stalePenalty
            && s.redundancyPenalty == 0
            && s.relevance == (if c.score <= I64_MAX then c.score else I64_MAX)
            && s.recency == (if c.recency <= 50 then c.recency else 50)
            && s.fileMatch == (if c.fileMatch then 20 else 0)
            && s.stalePenalty == (if c.stale then -25 else 0)
            && 0 <= s.confidence <= 15
            && (0.0 <= c.confidence <= 1.0 ==> s.confidence as real <= c.confidence * 15.0 < s.confidence as real + 1.0)
            && (c.confidence <= 0.0 ==> s.confidence == 0) && (c.confidence >= 1.0 ==> s.confidence == 15)
            && s.graphProximity == (if c.source == CodeGraph && c.graphProximity <= 3 then 9 - 3 * c.graphProximity else 0)
  {
  }

  lemma {:induction false} TrustIsWorthMore(i: nat)
    requires i < 5
    ensures QualityWeight(TRUST[i]) == [40, 30, 20, 10, 5][i]
    ensures ReservePercent(TRUST[i]) == [15, 20, 15, 25, 10][i]
  {
  }

  /** Trust pays: of two sources the more trusted is worth more. */
  lemma {:induction false} TrustPays(a: Source, b: Source)
    requires MoreTrusted(a, b)
    ensures QualityWeight(a) > QualityWeight(b)
  {
    var i, j :| 0 <= i < j < |TRUST| && TRUST[i] == a && TRUST[j] == b;
    TrustIsWorthMore(i);
    TrustIsWorthMore(j);
  }

  /** The reserves of the first `n` sources together. */
  function ReservesOf(budget: nat, n: nat): nat
    requires n <= |TRUST|
  {
    if n == 0 then 0 else ReservesOf(budget, n - 1) + Reserve(budget, TRUST[n - 1])
  }

  /** The reserves never take the whole budget: at least 15 percent of it is shared. */
  lemma {:induction false} PoolIsLeft(budget: nat)
    ensures 100 * ReservesOf(budget, |TRUST|) <= 85 * budget
    ensures budget > 0 ==> ReservesOf(budget, |TRUST|) < budget
  {
    hide Reserve;
    forall i | 0 <= i < 5 ensures 100 * Reserve(budget, TRUST[i]) <= budget * [15, 20, 15, 25, 10][i] {
      ReserveIsShare(budget, TRUST[i]);
      TrustIsWorthMore(i);
    }
    assert ReservesOf(budget, 2) == ReservesOf(budget, 0) + Reserve(budget, TRUST[0]) + Reserve(budget, TRUST[1]);
    assert ReservesOf(budget, 4) == ReservesOf(budget, 2) + Reserve(budget, TRUST[2]) + Reserve(budget, TRUST[3]);
    assert ReservesOf(budget, 5) == ReservesOf(budget, 4) + Reserve(budget, TRUST[4]);
  }

  /** Position `j` is ahead of position `i` on the same path: it has the higher score but for repeats, at equal scores
      the more trusted source, at the same source the earlier id, at the same id the earlier place. */
  ghost predicate AheadOf(cs: seq<Candidate>, j: nat, i: nat)
    requires i < |cs| && j < |cs|
  {
    var a, b := Base(cs[j]), Base(cs[i]);
    PathOf(cs[j]) == PathOf(cs[i]) && MayPrecede(a, b) && (MayPrecede(b, a) ==> j < i)
  }

  ghost function Ahead(cs: seq<Candidate>, i: nat, n: nat): set<nat>
    requires i < |cs| && n <= |cs|
  {
    set j | 0 <= j < n && AheadOf(cs, j, i)
  }

  lemma {:induction false} AheadGrows(cs: seq<Candidate>, i: nat, n: nat)
    requires i < |cs| && n < |cs|
    ensures |Ahead(cs, i, n + 1)| == |Ahead(cs, i, n)| + if AheadOf(cs, n, i) then 1 else 0
  {
    hide AheadOf;
    assert Ahead(cs, i, n + 1) == Ahead(cs, i, n) + if AheadOf(cs, n, i) then {n} else {};
  }

  lemma {:induction false} AheadIsRepeats(cs: seq<Candidate>, j: nat, i: nat)
    requires i < |cs| && j < |cs|
    ensures RepeatsPath(cs, j, i) <==> AheadOf(cs, j, i)
  {
    hide RankLess, MayPrecede, Base;
    RankIsScore(Base(cs[j]), Base(cs[i]));
    RankIsScore(Base(cs[i]), Base(cs[j]));
    RanksBy(Base(cs[i]), Base(cs[j]), Base(cs[i]));
  }

  lemma {:induction false} CountIsAhead(cs: seq<Candidate>, i: nat, n: nat, p: nat -> bool)
    requires i < |cs| && n <= |cs| && forall j: nat :: j < n ==> p(j) == AheadOf(cs, j, i)
    ensures Sorting.CountIf(Indices(n), p) == |Ahead(cs, i, n)|
  {
    hide AheadOf;
    if n == 0 {
      assert Ahead(cs, i, 0) == {};
    } else {
      CountIsAhead(cs, i, n - 1, p);
      AheadGrows(cs, i, n - 1);
      assert Indices(n) == Indices(n - 1) + [n - 1];
      Sorting.CountIfConcat<nat>(Indices(n - 1), [n - 1], p);
      assert [n - 1][1..] == [];
    }
  }

  /** A candidate loses 15 points for every candidate ahead of it on the same path, and nothing without a path. */
  lemma {:induction false} PathsCost(cs: seq<Candidate>, i: nat)
    requires i < |cs|
    ensures RankedAll(cs)[i].candidate == cs[i]
    ensures RankedAll(cs)[i].signals.finalScore
         == BaseSignals(cs[i]).finalScore - if PathOf(cs[i]) == "" then 0 else 15 * |Ahead(cs, i, |cs|)|
  {
    hide BaseSignals, AheadOf, RepeatsPath;
    forall j: nat | j < |cs| ensures RepeatsPath(cs, j, i) == AheadOf(cs, j, i) {
      AheadIsRepeats(cs, j, i);
    }
    CountIsAhead(cs, i, |cs|, (j: nat) => RepeatsPath(cs, j, i));
  }

  /** Of two candidates on one path the one with the higher score pays nothing for the other, which pays for it and
      for whatever the first pays for. */
  lemma {:induction false} RepeatsLowerTheLower(cs: seq<Candidate>, i: nat, j: nat)
    requires i < |cs| && j < |cs| && PathOf(cs[i]) == PathOf(cs[j])
    requires BaseSignals(cs[i]).finalScore > BaseSignals(cs[j]).finalScore
    ensures j !in Ahead(cs, i, |cs|) && i in Ahead(cs, j, |cs|) && Ahead(cs, i, |cs|) < Ahead(cs, j, |cs|)
  {
    hide BaseSignals, RankLess, RepeatsPath;
    forall k | k in Ahead(cs, i, |cs|) ensures AheadOf(cs, k, j) {
      AheadIsRepeats(cs, k, i);
      AheadIsRepeats(cs, i, j);
      AheadIsRepeats(cs, k, j);
      RepeatsChain(cs, k, i, j);
    }
  }

  lemma {:induction false} RepeatsChain(cs: seq<Candidate>, k: nat, i: nat, j: nat)
    requires RepeatsPath(cs, k, i) && RepeatsPath(cs, i, j)
    ensures RepeatsPath(cs, k, j)
  {
    PrecedesIsStrict(cs, k, i, j);
    hide Precedes;
  }

  // ---------------------------------------------------------------------------
  // Reserves and contents

  /** A source's reserve is its percentage of the budget, rounded down. */
  lemma {:induction false} ReserveIsShare(budget: nat, s: Source)
    ensures 100 * Reserve(budget, s) <= budget * ReservePercent(s) < 100 * (Reserve(budget, s) + 1)
  {
  }

  /** The words of a snippet, one space apart, in small letters. */
  function Folded(snippet: string): string {
    T.Lower(TextLines.Glued(T.Words(snippet), " "))
  }

  /** Two candidates with the same path count as one content exactly when their folded snippets agree, as far as their
      first 80 characters go. */
  lemma {:induction false} ContentIsLeadingText(a: Candidate, b: Candidate)
    requires PathOf(a) == PathOf(b)
    ensures DedupKey(a) == DedupKey(b) <==> Leading(Folded(a.snippet)) == Leading(Folded(b.snippet))
  {
    hide T.Words, TextLines.Glued;
    KeyIs(a);
    KeyIs(b);
    var p := PathOf(a) + "|";
    assert (p + Leading(Folded(a.snippet)))[|p|..] == Leading(Folded(a.snippet));
    assert (p + Leading(Folded(b.snippet)))[|p|..] == Leading(Folded(b.snippet));
  }

  function Leading(s: string): string {
    if |s| > 80 then s[..80] else s
  }

  lemma {:induction false} KeyIs(c: Candidate)
    ensures DedupKey(c) == PathOf(c) + "|" + Leading(Folded(c.snippet))
  {
    hide T.Words;
    TextLines.JoinGlues(T.Words(c.snippet), " ");
    hide T.Join, TextLines.Glued;
    var words := TextLines.Glued(T.Words(c.snippet), " ");
    assert |words| > 80 ==> T.Lower(words[..80]) == T.Lower(words)[..80];
  }

  function InSmall(words: seq<string>): seq<string> {
    seq(|words|, i requires 0 <= i < |words| => T.Lower(words[i]))
  }

  lemma {:induction false} LowerGlues(words: seq<string>)
    ensures T.Lower(TextLines.Glued(words, " ")) == TextLines.Glued(InSmall(words), " ")
  {
    if words != [] {
      var init, last := words[..|words| - 1], words[|words| - 1];
      LowerGlues(init);
      assert InSmall(words)[..|words| - 1] == InSmall(init);
      LowerJoins(TextLines.Glued(init, " "), last);
    }
  }

  lemma {:induction false} LowerJoins(a: string, b: string)
    ensures T.Lower(a + b) == T.Lower(a) + T.Lower(b)
    ensures T.Lower(a + " " + b) == T.Lower(a) + " " + T.Lower(b)
  {
    assert T.LowerChar(' ') == ' ';
  }

  /** Snippets of one path that differ only in spacing and in the case of ASCII letters are the same content. */
  lemma {:induction false} SpacingIsIrrelevant(a: Candidate, b: Candidate)
    requires PathOf(a) == PathOf(b) && InSmall(T.Words(a.snippet)) == InSmall(T.Words(b.snippet))
    ensures DedupKey(a) == DedupKey(b)
  {
    hide T.Words, TextLines.Glued;
    LowerGlues(T.Words(a.snippet));
    LowerGlues(T.Words(b.snippet));
    ContentIsLeadingText(a, b);
  }
}
