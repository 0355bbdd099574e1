/** A refresh agrees with a rebuild, whatever the history of edits, pauses and failures before it. */
module IngestLaws {
  import opened Wrappers
  import opened Ingest
  import Chunking
  import T = Text

  /** What a hash stands for at a path. */
  type Contents = (string, string) -> string

  ghost predicate PlainHash(hash: string) {
    ':' !in hash
  }

  /** Every path is listed once, and `contents` says what each of its hashes stands for. */
  ghost predicate Faithful(es: seq<Entry>, contents: Contents) {
    && (forall i, j :: 0 <= i < j < |es| ==> es[i].path != es[j].path)
    && forall i :: 0 <= i < |es| && es[i].hash.Some? ==>
         PlainHash(es[i].hash.value) && es[i].content == contents(es[i].path, es[i].hash.value)
  }

  function Marked(rs: seq<Record>, stale: bool, heir: Option<string>): seq<Record> {
    seq(|rs|, i requires 0 <= i < |rs| => rs[i].(stale := stale, supersededBy := heir))
  }

  function Original(path: string, hash: string, contents: Contents): seq<Record> {
    FreshRecords(path, hash, contents(path, hash))
  }

  /** Nothing, or the chunks of one content once and in order, all marked alike. */
  ghost predicate IsCopy(rs: seq<Record>, path: string, hash: string, contents: Contents) {
    rs == [] || exists stale, heir :: rs == Marked(Original(path, hash, contents), stale, heir)
  }

  /** What is stored for one content of one file. */
  ghost predicate StoredOnce(rs: seq<Record>, path: string, hash: string, contents: Contents) {
    IsCopy(Matching(rs, path, hash), path, hash, contents)
  }

  ghost predicate Sound(rs: seq<Record>, contents: Contents) {
    && (forall r :: r in rs ==> PlainHash(r.hash))
    && forall path, hash :: StoredOnce(rs, path, hash, contents)
  }

  // ---------------------------------------------------------------------------
  // Keys

  lemma {:induction false} LastColon(p: string, h: string)
    requires PlainHash(h)
    ensures Key(p, h)[|p|] == ':' && forall i :: |p| < i < |Key(p, h)| ==> Key(p, h)[i] != ':'
    ensures Key(p, h)[..|p|] == p && Key(p, h)[|p| + 1..] == h
  {
  }

  lemma {:induction false} KeyInjective(p: string, h: string, q: string, g: string)
    requires PlainHash(h) && PlainHash(g) && Key(p, h) == Key(q, g)
    ensures p == q && h == g
  {
    LastColon(p, h);
    LastColon(q, g);
    assert |p| < |Key(p, h)| && |q| < |Key(q, g)|;
  }

  lemma {:induction false} MatchingPush(rs: seq<Record>, r: Record, path: string, hash: string)
    ensures Matching(rs + [r], path, hash)
         == Matching(rs, path, hash) + if r.path == path && r.hash == hash then [r] else []
  {
    assert (rs + [r])[..|rs|] == rs;
  }

  lemma {:induction false} MatchingConcat(a: seq<Record>, b: seq<Record>, path: string, hash: string)
    ensures Matching(a + b, path, hash) == Matching(a, path, hash) + Matching(b, path, hash)
  {
    hide Matching;
    if b == [] {
      MatchingNone(path, hash);
      assert a + b == a;
    } else {
      var init, last := b[..|b| - 1], b[|b| - 1];
      assert b == init + [last] && a + b == (a + init) + [last];
      MatchingConcat(a, init, path, hash);
      MatchingPush(a + init, last, path, hash);
      MatchingPush(init, last, path, hash);
    }
  }

  lemma {:induction false} MatchingNone(path: string, hash: string)
    ensures Matching([], path, hash) == []
  {
  }

  /** Records of one content all match it, and nothing else. */
  lemma {:induction false} MatchingOwn(rs: seq<Record>, p: string, h: string, path: string, hash: string)
    requires forall r :: r in rs ==> r.path == p && r.hash == h
    ensures Matching(rs, path, hash) == if p == path && h == hash then rs else []
  {
    hide Matching;
    if rs == [] {
      MatchingNone(path, hash);
    } else {
      var init, last := rs[..|rs| - 1], rs[|rs| - 1];
      assert rs == init + [last];
      MatchingOwn(init, p, h, path, hash);
      MatchingPush(init, last, path, hash);
    }
  }

  lemma {:induction false} MatchingAll(rs: seq<Record>, path: string, hash: string)
    ensures forall r :: r in Matching(rs, path, hash) <==> r in rs && r.path == path && r.hash == hash
  {
    if rs != [] {
      assert rs == rs[..|rs| - 1] + [rs[|rs| - 1]];
      MatchingAll(rs[..|rs| - 1], path, hash);
    }
  }

  lemma {:induction false} KeyIsStored(rs: seq<Record>, path: string, hash: string)
    requires PlainHash(hash) && forall r :: r in rs ==> PlainHash(r.hash)
    ensures Key(path, hash) in Keys(rs) <==> Matching(rs, path, hash) != []
  {
    hide Matching, Key, PlainHash;
    MatchingAll(rs, path, hash);
    forall r | r in rs ensures Key(r.path, r.hash) == Key(path, hash) <==> r.path == path && r.hash == hash {
      if Key(r.path, r.hash) == Key(path, hash) {
        KeyInjective(r.path, r.hash, path, hash);
      }
    }
    if Matching(rs, path, hash) != [] {
      var r := Matching(rs, path, hash)[0];
      assert r in Matching(rs, path, hash);
    }
  }

  // ---------------------------------------------------------------------------
  // What one file contributes

  lemma {:induction false} ReviveMarks(path: string, hash: string, contents: Contents, stale: bool, heir: Option<string>)
    ensures Revive(Marked(Original(path, hash, contents), stale, heir)) == Marked(Original(path, hash, contents), false, heir)
  {
    hide Original;
  }

  lemma {:induction false} FreshIsMarked(path: string, hash: string, contents: Contents)
    ensures Original(path, hash, contents) == Marked(Original(path, hash, contents), false, None)
    ensures forall stale, heir :: forall r :: r in Marked(Original(path, hash, contents), stale, heir) ==>
              r.path == path && r.hash == hash && r.stale == stale && r.supersededBy == heir
  {
    hide Chunking.ChunksOf;
  }

  lemma {:induction false} MarkedTwice(rs: seq<Record>, s: bool, h: Option<string>, stale: bool, heir: Option<string>)
    ensures Marked(Marked(rs, s, h), stale, heir) == Marked(rs, stale, heir)
  {
  }

  lemma {:induction false} RecordsForIsCopy(prev: seq<Record>, e: Entry, contents: Contents)
    requires Sound(prev, contents) && e.hash.Some? && PlainHash(e.hash.value)
    requires e.content == contents(e.path, e.hash.value)
    ensures RecordsFor(prev, e) == []
         || exists heir :: RecordsFor(prev, e) == Marked(Original(e.path, e.hash.value, contents), false, heir)
    ensures e.readable ==> exists heir :: RecordsFor(prev, e) == Marked(Original(e.path, e.hash.value, contents), false, heir)
  {
    hide Matching, Keys, Key, Revive, Marked, PlainHash, FreshRecords;
    var path, hash := e.path, e.hash.value;
    KeyIsStored(prev, path, hash);
    FreshIsMarked(path, hash, contents);
    if Key(path, hash) in Keys(prev) {
      assert StoredOnce(prev, path, hash, contents);
      var stale, heir :| Matching(prev, path, hash) == Marked(Original(path, hash, contents), stale, heir);
      ReviveMarks(path, hash, contents, stale, heir);
    }
  }

  lemma {:induction false} RecordsForOwn(prev: seq<Record>, e: Entry, contents: Contents, path: string, hash: string)
    requires Sound(prev, contents) && (e.hash.Some? ==> PlainHash(e.hash.value) && e.content == contents(e.path, e.hash.value))
    ensures Matching(RecordsFor(prev, e), path, hash)
         == if e.path == path && e.hash == Some(hash) then RecordsFor(prev, e) else []
    ensures forall r :: r in RecordsFor(prev, e) ==> !r.stale && PlainHash(r.hash)
  {
    hide Sound, Matching, Keys, Key, Revive, Marked, FreshRecords, PlainHash;
    if e.hash.None? || RecordsFor(prev, e) == [] {
      MatchingNone(path, hash);
    } else {
      RecordsForIsCopy(prev, e, contents);
      FreshIsMarked(e.path, e.hash.value, contents);
      hide RecordsFor;
      MatchingOwn(RecordsFor(prev, e), e.path, e.hash.value, path, hash);
    }
  }

  // ---------------------------------------------------------------------------
  // What a run stores

  lemma {:induction false} FaithfulPrefix(es: seq<Entry>, contents: Contents, n: nat)
    requires Faithful(es, contents) && n <= |es|
    ensures Faithful(es[..n], contents)
  {
  }

  lemma {:induction false} CandidatesAreEntries(es: seq<Entry>)
    ensures forall e :: e in Candidates(es) <==> e in es && e.candidate
  {
    if es != [] {
      CandidatesAreEntries(es[..|es| - 1]);
      assert es == es[..|es| - 1] + [es[|es| - 1]];
    }
  }

  lemma {:induction false} CandidatesFaithful(es: seq<Entry>, contents: Contents)
    requires Faithful(es, contents)
    ensures Faithful(Candidates(es), contents)
  {
    hide PlainHash;
    if es != [] {
      var init, last := es[..|es| - 1], es[|es| - 1];
      CandidatesFaithful(init, contents);
      CandidatesAreEntries(init);
      var kept := Candidates(init);
      forall i | 0 <= i < |kept| ensures kept[i].path != last.path {
        assert kept[i] in init;
        var j :| 0 <= j < |init| && init[j] == kept[i];
      }
    }
  }

  /** A run stores for each content what its entry contributes. */
  lemma {:induction false} LiveGroup(prev: seq<Record>, es: seq<Entry>, contents: Contents, path: string, hash: string)
    requires Sound(prev, contents) && Faithful(es, contents)
    ensures (forall i :: 0 <= i < |es| ==> es[i].path != path || es[i].hash != Some(hash))
              ==> Matching(LiveRecords(prev, es), path, hash) == []
    ensures forall i :: 0 <= i < |es| && es[i].path == path && es[i].hash == Some(hash)
              ==> Matching(LiveRecords(prev, es), path, hash) == RecordsFor(prev, es[i])
  {
    hide Sound, RecordsFor, PlainHash, Matching;
    if es == [] {
      MatchingNone(path, hash);
    } else {
      var init, last := es[..|es| - 1], es[|es| - 1];
      FaithfulPrefix(es, contents, |es| - 1);
      LiveGroup(prev, init, contents, path, hash);
      RecordsForOwn(prev, last, contents, path, hash);
      LiveStep(prev, es);
      assert forall i :: 0 <= i < |init| ==> es[i].path != last.path;
      hide LiveRecords, Faithful;
      MatchingConcat(LiveRecords(prev, init), RecordsFor(prev, last), path, hash);
      if last.path == path && last.hash == Some(hash) {
        assert forall i :: 0 <= i < |init| ==> init[i].path != path;
        assert [] + RecordsFor(prev, last) == RecordsFor(prev, last);
      } else {
        assert Matching(LiveRecords(prev, init), path, hash) + [] == Matching(LiveRecords(prev, init), path, hash);
        assert forall i :: 0 <= i < |init| ==> init[i] == es[i];
      }
    }
  }

  lemma {:induction false} LiveIsSound(prev: seq<Record>, es: seq<Entry>, contents: Contents)
    requires Sound(prev, contents) && Faithful(es, contents)
    ensures forall r :: r in LiveRecords(prev, es) ==> !r.stale && PlainHash(r.hash)
    ensures forall path, hash :: StoredOnce(LiveRecords(prev, es), path, hash, contents)
  {
    hide Sound, Matching, RecordsFor, PlainHash, Marked, FreshRecords;
    LivePlain(prev, es, contents);
    forall path, hash ensures StoredOnce(LiveRecords(prev, es), path, hash, contents) {
      LiveGroup(prev, es, contents, path, hash);
      if i :| 0 <= i < |es| && es[i].path == path && es[i].hash == Some(hash) {
        RecordsForIsCopy(prev, es[i], contents);
      }
    }
  }

  lemma {:induction false} LivePlain(prev: seq<Record>, es: seq<Entry>, contents: Contents)
    requires Sound(prev, contents) && Faithful(es, contents)
    ensures forall r :: r in LiveRecords(prev, es) ==> !r.stale && PlainHash(r.hash)
  {
    hide Sound, RecordsFor, PlainHash;
    if es != [] {
      FaithfulPrefix(es, contents, |es| - 1);
      LivePlain(prev, es[..|es| - 1], contents);
      RecordsForOwn(prev, es[|es| - 1], contents, "", "");
    }
  }

  /** What is outdated for one content is all that was stored for it, unless it is current. */
  lemma {:induction false} OutdatedGroup(prev: seq<Record>, current: set<string>, es: seq<Entry>, path: string, hash: string)
    ensures Matching(Outdated(prev, current, es), path, hash)
         == if Key(path, hash) in current then [] else Marked(Matching(prev, path, hash), true, LatestHash(es, path))
  {
    hide Matching, Key, LatestHash, Outdated, Marked;
    if prev == [] {
      MatchingNone(path, hash);
      OutdatedNone(current, es);
      MarkedPush([], prev, true, LatestHash(es, path));
    } else {
      var init, last := prev[..|prev| - 1], prev[|prev| - 1];
      assert prev == init + [last] && prev[..|prev|] == prev;
      OutdatedGroup(init, current, es, path, hash);
      OutdatedStep(prev, |prev| - 1, current, es);
      MatchingPush(init, last, path, hash);
      var stale := last.(stale := true, supersededBy := LatestHash(es, last.path));
      MatchingPush(Outdated(init, current, es), stale, path, hash);
      MarkedPush(Matching(init, path, hash), [last], true, LatestHash(es, path));
      assert Outdated(init, current, es) + [] == Outdated(init, current, es);
      assert Matching(init, path, hash) + [] == Matching(init, path, hash);
    }
  }

  lemma {:induction false} MarkedPush(rs: seq<Record>, more: seq<Record>, stale: bool, heir: Option<string>)
    ensures Marked(rs + more, stale, heir) == Marked(rs, stale, heir) + Marked(more, stale, heir)
    ensures |more| == 1 ==> Marked(more, stale, heir) == [more[0].(stale := stale, supersededBy := heir)]
    ensures Marked([], stale, heir) == []
  {
  }

  /** Everything outdated is stale, and names the hash its path has now. */
  lemma {:induction false} OutdatedIsStale(prev: seq<Record>, current: set<string>, es: seq<Entry>)
    ensures forall r :: r in Outdated(prev, current, es) ==>
              r.stale && r.supersededBy == LatestHash(es, r.path) && exists p :: p in prev && p.hash == r.hash
  {
    hide Key, LatestHash;
    if prev != [] {
      assert prev == prev[..|prev| - 1] + [prev[|prev| - 1]];
      OutdatedIsStale(prev[..|prev| - 1], current, es);
    }
  }

  /** Any run, finished or not, leaves each content stored once or not at all. */
  lemma {:induction false} RunKeepsSound(store: seq<Record>, es: seq<Entry>, mode: Mode, upTo: nat, contents: Contents)
    requires Sound(store, contents) && Faithful(es, contents)
    ensures Sound(After(store, es, mode, upTo), contents)
  {
    var prev := if mode.Refresh? then store else [];
    NothingIsSound(contents);
    var todo := Candidates(es)[..Min(upTo, |Candidates(es)|)];
    CandidatesFaithful(es, contents);
    FaithfulPrefix(Candidates(es), contents, Min(upTo, |Candidates(es)|));
    LiveIsSound(prev, todo, contents);
    var live := LiveRecords(prev, todo);
    var past := Outdated(prev, Keys(live), es);
    hide Matching, Marked, FreshRecords, Outdated, LiveRecords, Keys, PlainHash, Faithful;
    OutdatedIsStale(prev, Keys(live), es);
    forall path, hash ensures StoredOnce(live + past, path, hash, contents) {
      JoinIsSound(prev, live, es, path, hash, contents);
    }
  }

  lemma {:induction false} NothingIsSound(contents: Contents)
    ensures Sound([], contents)
  {
  }

  lemma {:induction false} HeadIn<T>(s: seq<T>)
    ensures s != [] ==> s[0] in s
  {
  }

  lemma {:induction false} NoSuchHash(rs: seq<Record>, path: string, hash: string)
    requires !PlainHash(hash) && forall r :: r in rs ==> PlainHash(r.hash)
    ensures Matching(rs, path, hash) == []
  {
    MatchingAll(rs, path, hash);
    hide PlainHash, Matching;
    HeadIn(Matching(rs, path, hash));
  }

  lemma {:induction false} JoinIsSound(
      prev: seq<Record>, live: seq<Record>, es: seq<Entry>, path: string, hash: string, contents: Contents)
    requires StoredOnce(prev, path, hash, contents) && StoredOnce(live, path, hash, contents)
    requires (forall r :: r in live ==> PlainHash(r.hash)) && forall r :: r in prev ==> PlainHash(r.hash)
    ensures StoredOnce(live + Outdated(prev, Keys(live), es), path, hash, contents)
  {
    var past := Outdated(prev, Keys(live), es);
    MatchingConcat(live, past, path, hash);
    if PlainHash(hash) {
      OutdatedGroup(prev, Keys(live), es, path, hash);
      KeyIsStored(live, path, hash);
      CopyMarked(Matching(prev, path, hash), path, hash, contents, LatestHash(es, path));
    } else {
      OutdatedIsStale(prev, Keys(live), es);
      hide PlainHash;
      NoSuchHash(live, path, hash);
      NoSuchHash(past, path, hash);
    }
    hide *;
    assert Matching(live, path, hash) + [] == Matching(live, path, hash);
    assert [] + Matching(past, path, hash) == Matching(past, path, hash);
  }

  lemma {:induction false} CopyMarked(rs: seq<Record>, path: string, hash: string, contents: Contents, heir: Option<string>)
    requires IsCopy(rs, path, hash, contents)
    ensures IsCopy(Marked(rs, true, heir), path, hash, contents)
  {
    if rs == [] {
      assert Marked(rs, true, heir) == [];
    } else {
      var s, h :| rs == Marked(Original(path, hash, contents), s, h);
      MarkedTwice(Original(path, hash, contents), s, h, true, heir);
    }
  }

  // ---------------------------------------------------------------------------
  // Histories

  /** One run of a history: over which manifest, in which mode, and how far it got. */
  datatype RunStep = RunStep(entries: seq<Entry>, mode: Mode, upTo: nat)

  /** The store after a history of runs, with any edits between them. */
  function Store(history: seq<RunStep>): seq<Record> {
    if history == [] then []
    else
      var last := history[|history| - 1];
      After(Store(history[..|history| - 1]), last.entries, last.mode, last.upTo)
  }

  lemma {:induction false} HistoryIsSound(history: seq<RunStep>, contents: Contents)
    requires forall k :: 0 <= k < |history| ==> Faithful(history[k].entries, contents)
    ensures Sound(Store(history), contents)
  {
    hide Sound, After, Faithful;
    if history == [] {
      NothingIsSound(contents);
    } else {
      var init, last := history[..|history| - 1], history[|history| - 1];
      HistoryIsSound(init, contents);
      RunKeepsSound(Store(init), last.entries, last.mode, last.upTo, contents);
    }
  }

  /** Nothing is ever stored twice, and nothing is both live and stale. */
  lemma {:induction false} NeverLiveAndStale(history: seq<RunStep>, contents: Contents, path: string, hash: string)
    requires forall k :: 0 <= k < |history| ==> Faithful(history[k].entries, contents)
    ensures |Matching(Store(history), path, hash)| in {0, |Original(path, hash, contents)|}
    ensures forall r, q :: r in Store(history) && q in Store(history) && r.path == q.path == path && r.hash == q.hash == hash
              ==> r.stale == q.stale
  {
    HistoryIsSound(history, contents);
    var store := Store(history);
    hide Store, Faithful, Matching, FreshRecords, PlainHash;
    MatchingAll(store, path, hash);
    assert StoredOnce(store, path, hash, contents);
    if Matching(store, path, hash) != [] {
      var stale, heir :| Matching(store, path, hash) == Marked(Original(path, hash, contents), stale, heir);
      FreshIsMarked(path, hash, contents);
    }
  }

  function Live(rs: seq<Record>): seq<Record> {
    if rs == [] then []
    else Live(rs[..|rs| - 1]) + if rs[|rs| - 1].stale then [] else [rs[|rs| - 1]]
  }

  /** The records without what superseded them. */
  function Plain(rs: seq<Record>): seq<Record> {
    seq(|rs|, i requires 0 <= i < |rs| => rs[i].(supersededBy := None))
  }

  lemma {:induction false} LivePush(rs: seq<Record>, r: Record)
    ensures Live(rs + [r]) == Live(rs) + if r.stale then [] else [r]
  {
    assert (rs + [r])[..|rs|] == rs;
  }

  lemma {:induction false} LiveSplits(live: seq<Record>, past: seq<Record>)
    requires (forall r :: r in live ==> !r.stale) && forall r :: r in past ==> r.stale
    ensures Live(live + past) == live
  {
    hide Live;
    if past != [] {
      var init, last := past[..|past| - 1], past[|past| - 1];
      assert live + past == (live + init) + [last];
      LiveSplits(live, init);
      LivePush(live + init, last);
      assert live + [] == live;
    } else if live != [] {
      var init, last := live[..|live| - 1], live[|live| - 1];
      assert live + past == live == init + [last];
      LiveSplits(init, []);
      assert init + [] == init;
      LivePush(init, last);
    } else {
      NoLive();
      assert live + past == [];
    }
  }

  lemma {:induction false} NoLive()
    ensures Live([]) == []
  {
  }

  /** Every candidate can be hashed and read. */
  ghost predicate AllReadable(es: seq<Entry>) {
    forall i :: 0 <= i < |es| ==> es[i].hash.Some? && es[i].readable
  }

  lemma {:induction false} PlainLive(prev: seq<Record>, es: seq<Entry>, contents: Contents)
    requires Sound(prev, contents) && Faithful(es, contents) && AllReadable(es)
    ensures Plain(LiveRecords(prev, es)) == LiveRecords([], es)
  {
    hide Sound, RecordsFor, PlainHash;
    if es != [] {
      var init, last := es[..|es| - 1], es[|es| - 1];
      FaithfulPrefix(es, contents, |es| - 1);
      PlainLive(prev, init, contents);
      PlainRecords(prev, last, contents);
      hide LiveRecords;
      PlainConcat(LiveRecords(prev, init), RecordsFor(prev, last));
    }
  }

  lemma {:induction false} PlainConcat(a: seq<Record>, b: seq<Record>)
    ensures Plain(a + b) == Plain(a) + Plain(b)
  {
  }

  lemma {:induction false} PlainRecords(prev: seq<Record>, e: Entry, contents: Contents)
    requires Sound(prev, contents) && e.hash.Some? && PlainHash(e.hash.value) && e.readable
    requires e.content == contents(e.path, e.hash.value)
    ensures Plain(RecordsFor(prev, e)) == RecordsFor([], e)
  {
    RecordsForIsCopy(prev, e, contents);
    hide Sound, Matching, FreshRecords, Key;
    var original := Original(e.path, e.hash.value, contents);
    assert RecordsFor([], e) == original;
    hide RecordsFor;
    var heir :| RecordsFor(prev, e) == Marked(original, false, heir);
    FreshIsMarked(e.path, e.hash.value, contents);
    assert Plain(Marked(original, false, heir)) == Marked(original, false, None);
  }

  /** After any history of edits and of runs that finished, paused or failed, the live records of a refresh
      that gets through every file are those of a full run, in order, but for what superseded them. */
  lemma {:induction false} RefreshAgreesWithRebuild(
      history: seq<RunStep>, es: seq<Entry>, upTo: nat, contents: Contents)
    requires forall k :: 0 <= k < |history| ==> Faithful(history[k].entries, contents)
    requires Faithful(es, contents) && AllReadable(Candidates(es)) && upTo >= |Candidates(es)|
    ensures Plain(Live(After(Store(history), es, Refresh, upTo))) == After([], es, Full, upTo)
  {
    HistoryIsSound(history, contents);
    var store, todo := Store(history), Candidates(es);
    assert todo[..Min(upTo, |todo|)] == todo;
    CandidatesFaithful(es, contents);
    hide Store, Candidates, Sound, Faithful, AllReadable, Keys;
    LivePlain(store, todo, contents);
    var live := LiveRecords(store, todo);
    OutdatedIsStale(store, Keys(live), es);
    LiveSplits(live, Outdated(store, Keys(live), es));
    PlainLive(store, todo, contents);
    OutdatedNone(Keys(LiveRecords([], todo)), es);
    assert LiveRecords([], todo) + [] == LiveRecords([], todo);
  }

  /** A stored chunk of a file as it now is, that once was superseded. */
  ghost predicate OnceSuperseded(store: seq<Record>, es: seq<Entry>) {
    exists r, e :: r in store && e in es && r.path == e.path && e.hash == Some(r.hash) && r.supersededBy.Some?
  }

  ghost predicate AnySuperseded(rs: seq<Record>) {
    exists r :: r in rs && r.supersededBy.Some?
  }

  lemma {:induction false} ReviveSuperseded(rs: seq<Record>)
    ensures AnySuperseded(Revive(rs)) <==> AnySuperseded(rs)
  {
    if r :| r in rs && r.supersededBy.Some? {
      var i :| 0 <= i < |rs| && rs[i] == r;
      assert Revive(rs)[i] in Revive(rs);
    }
    if s :| s in Revive(rs) && s.supersededBy.Some? {
      var i :| 0 <= i < |rs| && Revive(rs)[i] == s;
      assert rs[i] in rs;
    }
  }

  lemma {:induction false} MatchingSuperseded(prev: seq<Record>, e: Entry)
    requires e.hash.Some?
    ensures OnceSuperseded(prev, [e]) <==> AnySuperseded(Matching(prev, e.path, e.hash.value))
  {
    MatchingAll(prev, e.path, e.hash.value);
    hide Matching;
    if r :| r in Matching(prev, e.path, e.hash.value) && r.supersededBy.Some? {
      assert r in prev && e in [e];
    }
  }

  lemma {:induction false} SupersededFrom(prev: seq<Record>, e: Entry, contents: Contents)
    requires Sound(prev, contents) && e.hash.Some? && PlainHash(e.hash.value)
    ensures AnySuperseded(RecordsFor(prev, e)) <==> OnceSuperseded(prev, [e])
  {
    var path, hash := e.path, e.hash.value;
    KeyIsStored(prev, path, hash);
    FreshIsMarked(path, hash, (p, h) => e.content);
    hide Sound, Matching, Key, Keys, PlainHash, Revive, FreshRecords, OnceSuperseded;
    MatchingSuperseded(prev, e);
    ReviveSuperseded(Matching(prev, path, hash));
  }

  lemma {:induction false} PlainExactlyWhen(rs: seq<Record>)
    ensures Plain(rs) == rs <==> forall r :: r in rs ==> r.supersededBy.None?
  {
    if Plain(rs) == rs {
      forall r | r in rs ensures r.supersededBy.None? {
        var i :| 0 <= i < |rs| && rs[i] == r;
        assert Plain(rs)[i] == rs[i];
      }
    }
  }

  lemma {:induction false} AnySupersededSplits(a: seq<Record>, b: seq<Record>)
    ensures AnySuperseded(a + b) <==> AnySuperseded(a) || AnySuperseded(b)
  {
    assert forall r :: r in a + b <==> r in a || r in b;
  }

  lemma {:induction false} LiveSuperseded(prev: seq<Record>, es: seq<Entry>, contents: Contents)
    requires Sound(prev, contents) && Faithful(es, contents) && AllReadable(es)
    ensures AnySuperseded(LiveRecords(prev, es)) <==> OnceSuperseded(prev, es)
  {
    hide Sound, PlainHash, RecordsFor;
    if es != [] {
      var init, last := es[..|es| - 1], es[|es| - 1];
      assert es == init + [last];
      FaithfulPrefix(es, contents, |es| - 1);
      LiveSuperseded(prev, init, contents);
      SupersededFrom(prev, last, contents);
      LiveStep(prev, es);
      hide *;
      OnceSupersededSplits(prev, init, last);
      AnySupersededSplits(LiveRecords(prev, init), RecordsFor(prev, last));
    }
  }

  lemma {:induction false} LiveStep(prev: seq<Record>, es: seq<Entry>)
    requires es != []
    ensures LiveRecords(prev, es) == LiveRecords(prev, es[..|es| - 1]) + RecordsFor(prev, es[|es| - 1])
  {
  }

  lemma {:induction false} OnceSupersededSplits(prev: seq<Record>, init: seq<Entry>, last: Entry)
    ensures OnceSuperseded(prev, init + [last]) <==> OnceSuperseded(prev, init) || OnceSuperseded(prev, [last])
  {
    if OnceSuperseded(prev, init) {
      var r, e :| r in prev && e in init && r.path == e.path && e.hash == Some(r.hash) && r.supersededBy.Some?;
      assert e in init + [last];
    }
    if OnceSuperseded(prev, [last]) {
      assert last in init + [last];
    }
  }

  /** The live records are exactly a full run's unless a file returned to a content that had been superseded:
      its chunks keep the mark. */
  lemma {:induction false} RefreshIsRebuildExactlyWhen(
      history: seq<RunStep>, es: seq<Entry>, upTo: nat, contents: Contents)
    requires forall k :: 0 <= k < |history| ==> Faithful(history[k].entries, contents)
    requires Faithful(es, contents) && AllReadable(Candidates(es)) && upTo >= |Candidates(es)|
    ensures Live(After(Store(history), es, Refresh, upTo)) == After([], es, Full, upTo)
       <==> !OnceSuperseded(Store(history), Candidates(es))
  {
    RefreshAgreesWithRebuild(history, es, upTo, contents);
    HistoryIsSound(history, contents);
    var store, todo := Store(history), Candidates(es);
    assert todo[..Min(upTo, |todo|)] == todo;
    CandidatesFaithful(es, contents);
    hide Store, Candidates, Sound, Faithful, AllReadable, Keys, OnceSuperseded;
    LivePlain(store, todo, contents);
    var live := LiveRecords(store, todo);
    OutdatedIsStale(store, Keys(live), es);
    LiveSplits(live, Outdated(store, Keys(live), es));
    LiveSuperseded(store, todo, contents);
    PlainExactlyWhen(live);
  }

  lemma {:induction false} OneCandidate(store: seq<Record>, e: Entry, mode: Mode)
    requires e.candidate && e.hash.Some?
    ensures After(store, [e], mode, 1)
         == var prev := if mode.Refresh? then store else [];
            RecordsFor(prev, e) + Outdated(prev, Keys(RecordsFor(prev, e)), [e])
  {
    var prev := if mode.Refresh? then store else [];
    hide RecordsFor, Outdated, Keys, LiveRecords, Candidates;
    OneTodo(e);
    OneLive(prev, e);
    assert [e][..1] == [e];
  }

  lemma {:induction false} OneTodo(e: Entry)
    requires e.candidate
    ensures Candidates([e]) == [e]
  {
    assert [e][..0] == [];
  }

  lemma {:induction false} OneLive(prev: seq<Record>, e: Entry)
    ensures LiveRecords(prev, [e]) == RecordsFor(prev, e)
  {
    hide RecordsFor;
    assert [e][..0] == [];
  }

  lemma {:induction false} AllOutdated(prev: seq<Record>, current: set<string>, es: seq<Entry>, path: string)
    requires forall r :: r in prev ==> r.path == path && Key(r.path, r.hash) !in current
    ensures Outdated(prev, current, es) == Marked(prev, true, LatestHash(es, path))
  {
    hide Key, LatestHash;
    if prev != [] {
      AllOutdated(prev[..|prev| - 1], current, es, path);
      assert prev == prev[..|prev| - 1] + [prev[|prev| - 1]];
    }
  }

  function Fresh(e: Entry): seq<Record>
    requires e.hash.Some?
  {
    FreshRecords(e.path, e.hash.value, e.content)
  }

  lemma {:induction false} FreshIsOwn(e: Entry)
    requires e.hash.Some? && PlainHash(e.hash.value)
    ensures forall r :: r in Fresh(e) ==> r.path == e.path && r.hash == e.hash.value && PlainHash(r.hash) && !r.stale
    ensures |Fresh(e)| > 0 && Fresh(e)[0].supersededBy == None
  {
    hide PlainHash;
    SomeChunk(e.content);
  }

  lemma {:induction false} SomeChunk(text: string)
    ensures |Chunking.ChunksOf(text)| > 0
  {
    if text == "" {
      Chunking.EmptyFile();
    } else {
      Chunking.ChunksPartition(text, T.Lines(text), Chunking.ChunksOf(text));
    }
  }

  lemma {:induction false} ForeignKey(rs: seq<Record>, path: string, held: string, hash: string)
    requires PlainHash(held) && PlainHash(hash) && held != hash
    requires forall r :: r in rs ==> r.path == path && r.hash == held
    ensures Key(path, hash) !in Keys(rs) && (Key(path, held) in Keys(rs) <==> rs != [])
  {
    hide Key;
    forall r | r in rs ensures Key(r.path, r.hash) != Key(path, hash) {
      if Key(path, held) == Key(path, hash) {
        KeyInjective(path, held, path, hash);
      }
    }
    HeadIn(rs);
  }

  /** The edit stores the new content and sets the old aside. */
  lemma {:induction false} EditSetsAside(e: Entry, edited: Entry)
    requires e.hash.Some? && PlainHash(e.hash.value)
    requires edited.candidate && edited.readable && edited.hash.Some? && PlainHash(edited.hash.value)
    requires edited.path == e.path && edited.hash != e.hash
    ensures After(Fresh(e), [edited], Refresh, 1) == Fresh(edited) + Marked(Fresh(e), true, edited.hash)
  {
    OneCandidate(Fresh(e), edited, Refresh);
    FreshIsOwn(e);
    FreshIsOwn(edited);
    hide Fresh;
    ForeignKey(Fresh(e), e.path, e.hash.value, edited.hash.value);
    ForeignKey(Fresh(edited), e.path, edited.hash.value, e.hash.value);
    assert RecordsFor(Fresh(e), edited) == Fresh(edited);
    assert LatestHash([edited], e.path) == edited.hash;
    hide *;
    AllOutdated(Fresh(e), Keys(Fresh(edited)), [edited], e.path);
  }

  lemma {:induction false} MarkedOwn(rs: seq<Record>, path: string, hash: string, stale: bool, heir: Option<string>)
    requires forall r :: r in rs ==> r.path == path && r.hash == hash
    ensures forall r :: r in Marked(rs, stale, heir) ==> r.path == path && r.hash == hash && r.stale == stale
    ensures |Marked(rs, stale, heir)| == |rs|
    ensures Revive(Marked(rs, stale, heir)) == Marked(rs, false, heir)
  {
  }

  lemma {:induction false} RevivedRecords(e: Entry, edited: Entry, stored: seq<Record>)
    requires e.hash.Some? && PlainHash(e.hash.value) && edited.hash.Some? && PlainHash(edited.hash.value)
    requires edited.path == e.path && edited.hash != e.hash
    requires stored == Fresh(edited) + Marked(Fresh(e), true, edited.hash)
    ensures RecordsFor(stored, e) == Marked(Fresh(e), false, edited.hash)
    ensures forall r :: r in RecordsFor(stored, e) ==> !r.stale
  {
    FreshIsOwn(e);
    FreshIsOwn(edited);
    hide Fresh, Key, Keys, Matching, PlainHash, Marked, Revive;
    var path, hash, aside := e.path, e.hash.value, Marked(Fresh(e), true, edited.hash);
    MarkedOwn(Fresh(e), path, hash, true, edited.hash);
    MarkedOwn(Fresh(e), path, hash, false, edited.hash);
    MatchingConcat(Fresh(edited), aside, path, hash);
    MatchingOwn(Fresh(edited), path, edited.hash.value, path, hash);
    MatchingOwn(aside, path, hash, path, hash);
    assert [] + aside == aside;
    assert forall r :: r in stored ==> r in Fresh(edited) || r in aside;
    KeyIsStored(stored, path, hash);
  }

  /** A file changed and changed back: its live chunks still say they were superseded. */
  lemma {:induction false} RevivedKeepsMark(e: Entry, edited: Entry, stored: seq<Record>)
    requires e.candidate && e.readable && e.hash.Some? && PlainHash(e.hash.value)
    requires edited.candidate && edited.readable && edited.hash.Some? && PlainHash(edited.hash.value)
    requires edited.path == e.path && edited.hash != e.hash
    requires stored == After(After([], [e], Full, 1), [edited], Refresh, 1)
    ensures Live(After(stored, [e], Refresh, 1)) == Marked(Fresh(e), false, edited.hash) != After([], [e], Full, 1)
  {
    hide PlainHash, LatestHash;
    FirstRun(e);
    EditSetsAside(e, edited);
    RevivedRecords(e, edited, stored);
    OneCandidate(stored, e, Refresh);
    FreshIsOwn(e);
    hide Fresh, Keys, Outdated, After, RecordsFor;
    OutdatedIsStale(stored, Keys(RecordsFor(stored, e)), [e]);
    LiveSplits(RecordsFor(stored, e), Outdated(stored, Keys(RecordsFor(stored, e)), [e]));
    hide Live;
    assert Marked(Fresh(e), false, edited.hash)[0].supersededBy == edited.hash;
  }

  lemma {:induction false} FirstRun(e: Entry)
    requires e.candidate && e.readable && e.hash.Some?
    ensures After([], [e], Full, 1) == Fresh(e)
  {
    OneCandidate([], e, Full);
    assert Fresh(e) + [] == Fresh(e);
  }
}
