/** The context-pack allocator: candidates from several sources compete for one token budget,
    first within per-source reserves, then in a shared pool. */
module Pack {
  import opened Wrappers
  import opened Numbers
  import T = Text
  import Sorting

  const I64_MAX := 0x7FFF_FFFF_FFFF_FFFF

  datatype Source = ManualPin | AcceptedMemory | RecentSession | Ingest | CodeGraph

  datatype Candidate = Candidate(
    source: Source,
    id: string,
    path: Option<string>,
    score: nat,
    tokens: nat,
    snippet: string,
    stale: bool,
    recency: nat,
    fileMatch: bool,
    confidence: real,
    graphProximity: nat)

  datatype Signals = Signals(
    relevance: int,
    sourceQuality: int,
    recency: int,
    fileMatch: int,
    confidence: int,
    graphProximity: int,
    stalePenalty: int,
    redundancyPenalty: int,
    finalScore: int)

  /** A candidate with the signals it competes with. */
  datatype Ranked = Ranked(candidate: Candidate, signals: Signals)

  datatype Reason = WithinReserve | WithinShared | DuplicateContent | BudgetExhausted

  datatype Entry = Entry(item: Ranked, reason: Reason)

  function Priority(s: Source): nat {
    match s
    case ManualPin => 0
    case AcceptedMemory => 1
    case RecentSession => 2
    case Ingest => 3
    case CodeGraph => 4
  }

  function QualityWeight(s: Source): int {
    match s
    case ManualPin => 40
    case AcceptedMemory => 30
    case RecentSession => 20
    case Ingest => 10
    case CodeGraph => 5
  }

  /** Percent of the budget set aside for a source. */
  function ReservePercent(s: Source): nat {
    match s
    case ManualPin => 15
    case AcceptedMemory => 20
    case RecentSession => 15
    case Ingest => 25
    case CodeGraph => 10
  }

  function Reserve(budget: nat, s: Source): nat {
    budget * ReservePercent(s) / 100
  }

  function Min(a: int, b: int): int {
    if a < b then a else b
  }

  function Confidence(c: real): int {
    var clamped := if c < 0.0 then 0.0 else if c > 1.0 then 1.0 else c;
    (clamped * 15.0).Floor
  }

  /** The order-independent part of a candidate's rank. */
  function BaseSignals(c: Candidate): Signals {
    var relevance := Min(c.score, I64_MAX);
    var recency := Min(c.recency, 50);
    var fileMatch := if c.fileMatch then 20 else 0;
    var proximity := if c.source == CodeGraph && c.graphProximity < 3 then (3 - c.graphProximity) * 3 else 0;
    var stale := if c.stale then -25 else 0;
    Signals(relevance, QualityWeight(c.source), recency, fileMatch, Confidence(c.confidence), proximity, stale, 0,
            relevance + QualityWeight(c.source) + recency + fileMatch + Confidence(c.confidence) + proximity + stale)
  }

  function PathOf(c: Candidate): string {
    if c.path.Some? then c.path.value else ""
  }

  /** Same path and same leading snippet text is the same content. */
  function DedupKey(c: Candidate): string {
    var words := T.Join(T.Words(c.snippet), " ");
    PathOf(c) + "|" + T.Lower(if |words| > 80 then words[..80] else words)
  }

  /** Higher score first, then source precedence, then id. */
  predicate RankLess(a: Ranked, b: Ranked) {
    if a.signals.finalScore != b.signals.finalScore then a.signals.finalScore > b.signals.finalScore
    else if Priority(a.candidate.source) != Priority(b.candidate.source) then
      Priority(a.candidate.source) < Priority(b.candidate.source)
    else T.StringLess(a.candidate.id, b.candidate.id)
  }

  /** Source precedence first, then higher score, then id. */
  predicate ReserveLess(a: Ranked, b: Ranked) {
    if Priority(a.candidate.source) != Priority(b.candidate.source) then
      Priority(a.candidate.source) < Priority(b.candidate.source)
    else if a.signals.finalScore != b.signals.finalScore then a.signals.finalScore > b.signals.finalScore
    else T.StringLess(a.candidate.id, b.candidate.id)
  }

  function Base(c: Candidate): Ranked {
    Ranked(c, BaseSignals(c))
  }

  // ---------------------------------------------------------------------------
  // Redundancy

  /** Position `a` comes before position `b` in the canonical rank order; ties keep their place. */
  predicate Precedes(cs: seq<Candidate>, a: nat, b: nat) {
    && a < |cs| && b < |cs|
    && (RankLess(Base(cs[a]), Base(cs[b])) || (!RankLess(Base(cs[b]), Base(cs[a])) && a < b))
  }

  function Indices(n: nat): (r: seq<nat>)
    ensures |r| == n && forall i :: 0 <= i < n ==> r[i] == i
  {
    seq(n, i => i)
  }

  predicate RepeatsPath(cs: seq<Candidate>, a: nat, b: nat) {
    Precedes(cs, a, b) && PathOf(cs[a]) == PathOf(cs[b])
  }

  /** How many candidates ahead in the rank order share this one's path. */
  function Repeats(cs: seq<Candidate>, i: nat): nat {
    Sorting.CountIf(Indices(|cs|), j => RepeatsPath(cs, j, i))
  }

  const REDUNDANCY_PENALTY := 15

  function Penalize(s: Signals, repeats: nat, path: string): Signals {
    var penalty := if path == "" then 0 else repeats * REDUNDANCY_PENALTY;
    s.(redundancyPenalty := -penalty, finalScore := s.finalScore - penalty)
  }

  function SignalsAt(cs: seq<Candidate>, i: nat): Signals
    requires i < |cs|
  {
    Penalize(BaseSignals(cs[i]), Repeats(cs, i), PathOf(cs[i]))
  }

  function RankedAll(cs: seq<Candidate>): (r: seq<Ranked>)
    ensures |r| == |cs| && forall i :: 0 <= i < |cs| ==> r[i] == Ranked(cs[i], SignalsAt(cs, i))
  {
    seq(|cs|, i requires 0 <= i < |cs| => Ranked(cs[i], SignalsAt(cs, i)))
  }

  // ---------------------------------------------------------------------------
  // Allocation

  type Usage = map<Source, nat>

  function UsedBy(u: Usage, s: Source): nat {
    if s in u then u[s] else 0
  }

  /** The running state of an allocation. */
  datatype Alloc = Alloc(
    selected: seq<Entry>, skipped: seq<Entry>, used: nat, bySource: Usage, seen: set<string>, leftovers: seq<Ranked>)

  const NOTHING := Alloc([], [], 0, map[], {}, [])

  function Select(a: Alloc, r: Ranked, reason: Reason): Alloc {
    var s, cost := r.candidate.source, r.candidate.tokens;
    a.(selected := a.selected + [Entry(r, reason)],
       used := SatAdd(a.used, cost),
       bySource := a.bySource[s := UsedBy(a.bySource, s) + cost])
  }

  /** One step of the reserve phase. */
  function ReserveStep(a: Alloc, r: Ranked, budget: nat): Alloc {
    var c := r.candidate;
    if DedupKey(c) in a.seen then a.(skipped := a.skipped + [Entry(r, DuplicateContent)])
    else
      var a1 := a.(seen := a.seen + {DedupKey(c)});
      if SatAdd(UsedBy(a.bySource, c.source), c.tokens) <= Reserve(budget, c.source)
         && SatAdd(a.used, c.tokens) <= budget
      then Select(a1, r, WithinReserve)
      else a1.(leftovers := a1.leftovers + [r])
  }

  function ReservePhase(rs: seq<Ranked>, budget: nat): Alloc {
    if rs == [] then NOTHING
    else ReserveStep(ReservePhase(rs[..|rs| - 1], budget), rs[|rs| - 1], budget)
  }

  /** One step of the shared-pool phase. */
  function SharedStep(a: Alloc, r: Ranked, budget: nat): Alloc {
    if SatAdd(a.used, r.candidate.tokens) <= budget then Select(a, r, WithinShared)
    else a.(skipped := a.skipped + [Entry(r, BudgetExhausted)])
  }

  function SharedPhase(a: Alloc, rs: seq<Ranked>, budget: nat): Alloc {
    if rs == [] then a
    else SharedStep(SharedPhase(a, rs[..|rs| - 1], budget), rs[|rs| - 1], budget)
  }

  function ReserveOrder(cs: seq<Candidate>): seq<Ranked> {
    Sorting.Sort(RankedAll(cs), ReserveLess)
  }

  /** Both phases. What the first leaves over is sorted anew; candidates the second sort cannot tell apart
      were tied in the first too, so they keep the order of the input. */
  function Allocation(cs: seq<Candidate>, budget: nat): Alloc {
    var first := ReservePhase(ReserveOrder(cs), budget);
    SharedPhase(first, Sorting.Sort(first.leftovers, RankLess), budget)
  }

  // ---------------------------------------------------------------------------
  // The algorithm

  predicate SharesPath(cs: seq<Candidate>, j: nat, path: string) {
    j < |cs| && PathOf(cs[j]) == path
  }

  /** How often each path was seen in a prefix of the rank order. */
  ghost predicate CountsPaths(cs: seq<Candidate>, pathSeen: map<string, nat>, prefix: seq<nat>) {
    forall path: string ::
      (if path in pathSeen then pathSeen[path] else 0) == Sorting.CountIf(prefix, j => SharesPath(cs, j, path))
  }

  lemma {:induction false} PrecedesIsStrict(cs: seq<Candidate>, a: nat, b: nat, c: nat)
    ensures Precedes(cs, a, b) ==> !Precedes(cs, b, a)
    ensures a < |cs| && b < |cs| && a != b ==> Precedes(cs, a, b) || Precedes(cs, b, a)
    ensures Precedes(cs, a, b) && Precedes(cs, b, c) ==> Precedes(cs, a, c)
  {
    hide BaseSignals;
    if a < |cs| && b < |cs| && c < |cs| {
      RankLessIsStrict(Base(cs[a]), Base(cs[b]), Base(cs[c]));
      RankLessIsStrict(Base(cs[b]), Base(cs[a]), Base(cs[c]));
      RankLessIsStrict(Base(cs[a]), Base(cs[c]), Base(cs[b]));
      RankLessIsStrict(Base(cs[c]), Base(cs[a]), Base(cs[b]));
      RankLessIsStrict(Base(cs[c]), Base(cs[b]), Base(cs[a]));
      RankLessIsStrict(Base(cs[b]), Base(cs[c]), Base(cs[a]));
    } else if a < |cs| && b < |cs| {
      RankLessIsStrict(Base(cs[a]), Base(cs[b]), Base(cs[a]));
    }
  }

  lemma {:induction false} RankLessIsStrict(a: Ranked, b: Ranked, c: Ranked)
    ensures RankLess(a, b) ==> !RankLess(b, a)
    ensures RankLess(a, b) && RankLess(b, c) ==> RankLess(a, c)
    ensures (a.candidate.source, a.candidate.id) != (b.candidate.source, b.candidate.id) ==>
              RankLess(a, b) || RankLess(b, a)
  {
    IdsAreStrict(a.candidate.id, b.candidate.id, c.candidate.id);
  }

  lemma {:induction false} ReserveLessIsStrict(a: Ranked, b: Ranked, c: Ranked)
    ensures ReserveLess(a, b) ==> !ReserveLess(b, a)
    ensures ReserveLess(a, b) && ReserveLess(b, c) ==> ReserveLess(a, c)
    ensures (a.candidate.source, a.candidate.id) != (b.candidate.source, b.candidate.id) ==>
              ReserveLess(a, b) || ReserveLess(b, a)
  {
    IdsAreStrict(a.candidate.id, b.candidate.id, c.candidate.id);
  }

  lemma {:induction false} IdsAreStrict(a: string, b: string, c: string)
    ensures T.StringLess(a, b) ==> !T.StringLess(b, a)
    ensures T.StringLess(a, b) && T.StringLess(b, c) ==> T.StringLess(a, c)
    ensures a != b ==> T.StringLess(a, b) || T.StringLess(b, a)
  {
    if T.StringLess(a, b) && T.StringLess(b, c) {
      T.StringLessTransitive(a, b, c);
    }
    if T.StringLess(a, b) && T.StringLess(b, a) {
      T.StringLessTransitive(a, b, a);
      T.StringLessIrreflexive(a);
    }
    if a != b {
      T.StringLessTotal(a, b);
    }
  }

  /** The stable sort of the positions by rank alone, as the source sorts them. */
  function RankOrder(cs: seq<Candidate>): (r: seq<nat>) {
    Sorting.Sort(Indices(|cs|), (a, b) => RankAhead(cs, a, b))
  }

  predicate RankAhead(cs: seq<Candidate>, a: nat, b: nat) {
    a < |cs| && b < |cs| && RankLess(Base(cs[a]), Base(cs[b]))
  }

  /** A stable sort of ascending positions breaks ties by position. */
  lemma {:induction false} InsertIsStable(cs: seq<Candidate>, s: seq<nat>, x: nat)
    requires x < |cs| && forall i :: 0 <= i < |s| ==> s[i] < x
    ensures Sorting.Insert(s, x, (a, b) => RankAhead(cs, a, b)) == Sorting.Insert(s, x, (a, b) => Precedes(cs, a, b))
  {
    hide RankLess, Base;
    if s != [] {
      InsertIsStable(cs, s[1..], x);
      assert s[0] < x;
    }
  }

  lemma {:induction false} SortIsStable(cs: seq<Candidate>, n: nat)
    requires n <= |cs|
    ensures Sorting.Sort(Indices(n), (a, b) => RankAhead(cs, a, b)) == Sorting.Sort(Indices(n), (a, b) => Precedes(cs, a, b))
  {
    hide RankLess, Base, Precedes, RankAhead;
    if n > 0 {
      SortIsStable(cs, n - 1);
      assert Indices(n)[..n - 1] == Indices(n - 1);
      var s := Sorting.Sort(Indices(n - 1), (a, b) => Precedes(cs, a, b));
      Sorting.SortPermutes(Indices(n - 1), (a, b) => Precedes(cs, a, b));
      forall i | 0 <= i < |s| ensures s[i] < n - 1 {
        assert s[i] in multiset(s);
        assert s[i] in Indices(n - 1);
      }
      InsertIsStable(cs, s, n - 1);
    }
  }

  lemma {:induction false} Twice<X>(s: seq<X>, i: nat, j: nat)
    requires i < j < |s| && s[i] == s[j]
    ensures multiset(s)[s[i]] >= 2
  {
    assert s == s[..j] + s[j..];
    assert s[i] == s[..j][i] && s[j] == s[j..][0];
    assert s[i] in multiset(s[..j]) && s[i] in multiset(s[j..]);
  }

  lemma {:induction false} Once<X>(s: seq<X>, x: X)
    requires forall i, j :: 0 <= i < j < |s| ==> s[i] != s[j]
    ensures multiset(s)[x] <= 1
    decreases |s|
  {
    if s != [] {
      assert s == [s[0]] + s[1..];
      Once(s[1..], x);
      if x == s[0] {
        assert x !in s[1..];
      }
    }
  }

  /** A rearrangement of different elements has different elements. */
  lemma {:induction false} Distinct<X>(a: seq<X>, b: seq<X>, i: nat, j: nat)
    requires multiset(a) == multiset(b) && i < j < |b|
    requires forall p, q :: 0 <= p < q < |a| ==> a[p] != a[q]
    ensures b[i] != b[j]
  {
    if b[i] == b[j] {
      Twice(b, i, j);
      Once(a, b[i]);
    }
  }

  lemma {:induction false} RankOrderPermutes(cs: seq<Candidate>)
    ensures multiset(RankOrder(cs)) == multiset(Indices(|cs|)) && |RankOrder(cs)| == |cs|
    ensures forall i :: 0 <= i < |cs| ==> RankOrder(cs)[i] < |cs|
  {
    hide Precedes, RankAhead;
    var order := RankOrder(cs);
    Sorting.SortPermutes(Indices(|cs|), (a: nat, b: nat) => RankAhead(cs, a, b));
    Sorting.EmptyMultiset(order, Indices(|cs|));
    forall i | 0 <= i < |order| ensures order[i] < |cs| {
      assert order[i] in multiset(order);
      assert order[i] in Indices(|cs|);
    }
  }

  /** The rank order lists every position once, each before the ones it precedes. */
  lemma {:induction false} RankOrderSorts(cs: seq<Candidate>)
    ensures multiset(RankOrder(cs)) == multiset(Indices(|cs|)) && |RankOrder(cs)| == |cs|
    ensures forall i :: 0 <= i < |cs| ==> RankOrder(cs)[i] < |cs|
    ensures forall i, j :: 0 <= i < j < |cs| ==> Precedes(cs, RankOrder(cs)[i], RankOrder(cs)[j])
  {
    hide Precedes, RankAhead;
    var order := RankOrder(cs);
    RankOrderPermutes(cs);
    SortIsStable(cs, |cs|);
    PrecedesIsStrictOn(cs);
    Sorting.SortAscends(Indices(|cs|), (a: nat, b: nat) => Precedes(cs, a, b));
    assert Sorting.Ascending(order, (a: nat, b: nat) => Precedes(cs, a, b));
    forall i, j | 0 <= i < j < |cs| ensures Precedes(cs, order[i], order[j]) {
      Distinct(Indices(|cs|), order, i, j);
      PrecedesIsStrict(cs, order[i], order[j], order[i]);
    }
  }

  lemma {:induction false} PrecedesIsStrictOn(cs: seq<Candidate>)
    ensures Sorting.StrictOn(multiset(Indices(|cs|)), (a, b) => Precedes(cs, a, b))
  {
    hide Precedes;
    var all := multiset(Indices(|cs|));
    forall a | a in all ensures a < |cs| {
      assert a in Indices(|cs|);
    }
    forall a, b, c | a in all && b in all && c in all
      ensures Precedes(cs, a, b) ==> !Precedes(cs, b, a)
      ensures a != b ==> Precedes(cs, a, b) || Precedes(cs, b, a)
      ensures Precedes(cs, a, b) && Precedes(cs, b, c) ==> Precedes(cs, a, c)
    {
      PrecedesIsStrict(cs, a, b, c);
    }
    forall a, b | a in all && b in all
      ensures Precedes(cs, a, b) ==> !Precedes(cs, b, a)
      ensures a != b ==> Precedes(cs, a, b) || Precedes(cs, b, a)
    {
      PrecedesIsStrict(cs, a, b, a);
    }
  }

  /** What the loop's counter holds is how often the path was repeated above in rank. */
  lemma {:induction false} CounterIsRepeats(cs: seq<Candidate>, order: seq<nat>, k: nat)
    requires order == RankOrder(cs) && k < |cs| == |order| && order[k] < |cs|
    ensures Sorting.CountIf(order[..k], j => SharesPath(cs, j, PathOf(cs[order[k]]))) == Repeats(cs, order[k])
  {
    hide RankOrder, Precedes;
    RankOrderSorts(cs);
    var x := order[k];
    var repeatsPath := j => RepeatsPath(cs, j, x);
    Sorting.CountIfPermutes(order, Indices(|cs|), repeatsPath);
    assert order == order[..k] + order[k..];
    Sorting.CountIfConcat(order[..k], order[k..], repeatsPath);
    forall i | 0 <= i < |order[k..]| ensures !repeatsPath(order[k..][i]) {
      assert order[k..][i] == order[k + i];
      PrecedesIsStrict(cs, x, order[k + i], x);
    }
    Sorting.CountIfNone(order[k..], repeatsPath);
    Sorting.CountIfAgree(order[..k], repeatsPath, j => SharesPath(cs, j, PathOf(cs[x])));
  }

  lemma {:induction false} CountsPathsStep(cs: seq<Candidate>, pathSeen: map<string, nat>, prefix: seq<nat>, x: nat)
    requires CountsPaths(cs, pathSeen, prefix) && x < |cs|
    ensures var path := PathOf(cs[x]);
            CountsPaths(cs, pathSeen[path := (if path in pathSeen then pathSeen[path] else 0) + 1], prefix + [x])
  {
    var p := PathOf(cs[x]);
    var seen := pathSeen[p := (if p in pathSeen then pathSeen[p] else 0) + 1];
    forall path: string
      ensures (if path in seen then seen[path] else 0) == Sorting.CountIf(prefix + [x], j => SharesPath(cs, j, path))
    {
      var shares := j => SharesPath(cs, j, path);
      Sorting.CountIfConcat(prefix, [x], shares);
      assert [x][1..] == [];
      assert (if path in pathSeen then pathSeen[path] else 0) == Sorting.CountIf(prefix, shares);
    }
  }

  lemma {:induction false} CountsNothing(cs: seq<Candidate>)
    ensures CountsPaths(cs, map[], [])
  {
  }

  lemma {:induction false} CountsAt(cs: seq<Candidate>, pathSeen: map<string, nat>, prefix: seq<nat>, path: string)
    requires CountsPaths(cs, pathSeen, prefix)
    ensures (if path in pathSeen then pathSeen[path] else 0) == Sorting.CountIf(prefix, j => SharesPath(cs, j, path))
  {
  }

  lemma {:induction false} AllDistinct(cs: seq<Candidate>, i: nat, j: nat)
    requires i < |cs| && j < |cs| && i != j && |RankOrder(cs)| == |cs|
    ensures RankOrder(cs)[i] != RankOrder(cs)[j]
  {
    hide RankOrder, Precedes;
    RankOrderSorts(cs);
    if i < j {
      Distinct(Indices(|cs|), RankOrder(cs), i, j);
    } else {
      Distinct(Indices(|cs|), RankOrder(cs), j, i);
    }
  }

  /** Scores every candidate; a repeated path is demoted on its second and later appearances. */
  method RankAll(cs: seq<Candidate>) returns (signals: seq<Signals>)
    ensures |signals| == |cs| && forall i :: 0 <= i < |cs| ==> signals[i] == SignalsAt(cs, i)
  {
    hide RankOrder, CountsPaths, Precedes, BaseSignals, Repeats;
    signals := Sorting.Map(cs, c => BaseSignals(c));
    var order := RankOrder(cs);
    RankOrderSorts(cs);
    var pathSeen: map<string, nat> := map[];
    assert CountsPaths(cs, pathSeen, order[..0]) by { CountsNothing(cs); assert order[..0] == []; }
    for k := 0 to |order|
      invariant |signals| == |cs| && CountsPaths(cs, pathSeen, order[..k])
      invariant forall j :: 0 <= j < k ==> signals[order[j]] == SignalsAt(cs, order[j])
      invariant forall j :: k <= j < |order| ==> signals[order[j]] == BaseSignals(cs[order[j]])
    {
      var idx := order[k];
      var path := PathOf(cs[idx]);
      var repeats := if path in pathSeen then pathSeen[path] else 0;
      CounterIsRepeats(cs, order, k);
      CountsAt(cs, pathSeen, order[..k], path);
      CountsPathsStep(cs, pathSeen, order[..k], idx);
      pathSeen := pathSeen[path := repeats + 1];
      forall j | 0 <= j < |order| && j != k ensures order[j] != idx {
        AllDistinct(cs, j, k);
      }
      signals := signals[idx := Penalize(signals[idx], repeats, path)];
      assert order[..k + 1] == order[..k] + [idx];
    }
    forall i | 0 <= i < |cs| ensures signals[i] == SignalsAt(cs, i) {
      assert Indices(|cs|)[i] in multiset(order);
    }
  }

  lemma {:induction false} ReservePhaseStep(rs: seq<Ranked>, k: nat, budget: nat)
    requires k < |rs|
    ensures ReservePhase(rs[..k + 1], budget) == ReserveStep(ReservePhase(rs[..k], budget), rs[k], budget)
  {
    hide ReserveStep;
    assert rs[..k + 1][..k] == rs[..k];
  }

  lemma {:induction false} SharedPhaseStep(a: Alloc, rs: seq<Ranked>, k: nat, budget: nat)
    requires k < |rs|
    ensures SharedPhase(a, rs[..k + 1], budget) == SharedStep(SharedPhase(a, rs[..k], budget), rs[k], budget)
  {
    hide SharedStep;
    assert rs[..k + 1][..k] == rs[..k];
  }

  /** Fills each source up to its guaranteed share, in reserve order. */
  method FillReserves(byReserve: seq<Ranked>, budget: nat) returns (result: Alloc)
    ensures result == ReservePhase(byReserve, budget)
  {
    hide DedupKey, Reserve, SatAdd, UsedBy, ReservePhase;
    var selected: seq<Entry>, skipped: seq<Entry>, used: nat := [], [], 0;
    var bySource: Usage, seen: set<string>, leftovers: seq<Ranked> := map[], {}, [];
    EmptyPhases(NOTHING, budget);
    assert byReserve[..0] == [];
    for k := 0 to |byReserve|
      invariant ReservePhase(byReserve[..k], budget) == Alloc(selected, skipped, used, bySource, seen, leftovers)
    {
      var r := byReserve[k];
      ReservePhaseStep(byReserve, k, budget);
      var source, cost := r.candidate.source, r.candidate.tokens;
      if DedupKey(r.candidate) in seen {
        skipped := skipped + [Entry(r, DuplicateContent)];
      } else {
        seen := seen + {DedupKey(r.candidate)};
        if SatAdd(UsedBy(bySource, source), cost) <= Reserve(budget, source) && SatAdd(used, cost) <= budget {
          used := SatAdd(used, cost);
          bySource := bySource[source := UsedBy(bySource, source) + cost];
          selected := selected + [Entry(r, WithinReserve)];
        } else {
          leftovers := leftovers + [r];
        }
      }
    }
    assert byReserve[..|byReserve|] == byReserve;
    result := Alloc(selected, skipped, used, bySource, seen, leftovers);
  }

  /** Competes what is left for the rest of the budget, best rank first. */
  method FillShared(first: Alloc, order: seq<Ranked>, budget: nat) returns (result: Alloc)
    ensures result == SharedPhase(first, order, budget)
  {
    hide SatAdd, UsedBy, SharedPhase;
    var selected, skipped, used := first.selected, first.skipped, first.used;
    var bySource: Usage := first.bySource;
    EmptyPhases(first, budget);
    assert order[..0] == [];
    for k := 0 to |order|
      invariant SharedPhase(first, order[..k], budget)
             == Alloc(selected, skipped, used, bySource, first.seen, first.leftovers)
    {
      var r := order[k];
      SharedPhaseStep(first, order, k, budget);
      var source, cost := r.candidate.source, r.candidate.tokens;
      if SatAdd(used, cost) <= budget {
        used := SatAdd(used, cost);
        bySource := bySource[source := UsedBy(bySource, source) + cost];
        selected := selected + [Entry(r, WithinShared)];
      } else {
        skipped := skipped + [Entry(r, BudgetExhausted)];
      }
    }
    assert order[..|order|] == order;
    result := Alloc(selected, skipped, used, bySource, first.seen, first.leftovers);
  }

  lemma {:induction false} EmptyPhases(a: Alloc, budget: nat)
    ensures ReservePhase([], budget) == NOTHING && SharedPhase(a, [], budget) == a
  {
  }

  /** Competes the candidates for `budget` tokens. */
  method Allocate(cs: seq<Candidate>, budget: nat) returns (result: Alloc)
    ensures result == Allocation(cs, budget)
  {
    hide SignalsAt, RankLess, ReserveLess, ReservePhase, SharedPhase;
    var signals := RankAll(cs);
    var ranked := seq(|cs|, i requires 0 <= i < |cs| => Ranked(cs[i], signals[i]));
    assert ranked == RankedAll(cs);
    var byReserve := Sorting.Sort(ranked, ReserveLess);
    var first := FillReserves(byReserve, budget);
    result := FillShared(first, Sorting.Sort(first.leftovers, RankLess), budget);
  }
}
