/** What one run of ingestion leaves for each content of each file, however far it gets. */
module IngestRuns {
  import opened Wrappers
  import opened Ingest
  import opened IngestLaws

  /** A content that none of the candidates the run reaches has. */
  predicate Unreached(todo: seq<Entry>, upTo: nat, path: string, hash: string) {
    forall i :: 0 <= i < |todo| && i < upTo ==> todo[i].path != path || todo[i].hash != Some(hash)
  }

  /** Candidates are worked through in the order of the manifest. */
  lemma {:induction false} CandidatesJoin(a: seq<Entry>, b: seq<Entry>)
    ensures Candidates(a + b) == Candidates(a) + Candidates(b)
    ensures |a| == 1 ==> Candidates(a) == if a[0].candidate then a else []
  {
    if b == [] {
      assert a + b == a;
      if |a| == 1 {
        assert a[..0] == [];
      }
    } else {
      var init := b[..|b| - 1];
      CandidatesJoin(a, init);
      assert (a + b)[..|a + b| - 1] == a + init;
    }
  }

  /** The manifest's hash of a path is that of the entry that lists it. */
  lemma {:induction false} LatestHashIsListed(es: seq<Entry>, i: nat)
    requires i < |es| && forall a, b :: 0 <= a < b < |es| ==> es[a].path != es[b].path
    ensures LatestHash(es, es[i].path) == es[i].hash
  {
    var init, last := es[..|es| - 1], es[|es| - 1];
    if i < |init| {
      assert init[i] == es[i];
      LatestHashIsListed(init, i);
    } else {
      Unlisted(init, last.path);
    }
  }

  lemma {:induction false} Unlisted(es: seq<Entry>, path: string)
    requires forall i :: 0 <= i < |es| ==> es[i].path != path
    ensures LatestHash(es, path) == None
  {
    if es != [] {
      Unlisted(es[..|es| - 1], path);
    }
  }

  lemma {:induction false} AfterSplits(store: seq<Record>, es: seq<Entry>, mode: Mode, upTo: nat, path: string, hash: string)
    ensures var prev := if mode.Refresh? then store else [];
            var live := LiveRecords(prev, Candidates(es)[..Min(upTo, |Candidates(es)|)]);
            Matching(After(store, es, mode, upTo), path, hash)
            == Matching(live, path, hash)
             + if Key(path, hash) in Keys(live) then [] else Marked(Matching(prev, path, hash), true, LatestHash(es, path))
  {
    var prev := if mode.Refresh? then store else [];
    var live := LiveRecords(prev, Candidates(es)[..Min(upTo, |Candidates(es)|)]);
    hide LiveRecords, Candidates, Outdated, Keys, Key, LatestHash, Matching, Marked;
    MatchingConcat(live, Outdated(prev, Keys(live), es), path, hash);
    OutdatedGroup(prev, Keys(live), es, path, hash);
  }

  /** What the run works through is faithful too. */
  lemma {:induction false} TodoIsFaithful(es: seq<Entry>, upTo: nat, contents: Contents)
    requires Faithful(es, contents)
    ensures Faithful(Candidates(es)[..Min(upTo, |Candidates(es)|)], contents)
  {
    hide Faithful, Candidates;
    CandidatesFaithful(es, contents);
    FaithfulPrefix(Candidates(es), contents, Min(upTo, |Candidates(es)|));
  }

  /** A run sets aside all that was stored for a content it does not reach: a refresh marks it stale under the hash
      the manifest has for its path, even its own, and a full run drops it. */
  lemma {:induction false} UnreachedIsSetAside(
      store: seq<Record>, es: seq<Entry>, mode: Mode, upTo: nat, contents: Contents, path: string, hash: string)
    requires Sound(store, contents) && Faithful(es, contents) && PlainHash(hash)
    requires Unreached(Candidates(es), upTo, path, hash)
    ensures Matching(After(store, es, mode, upTo), path, hash)
         == if mode.Refresh? then Marked(Matching(store, path, hash), true, LatestHash(es, path)) else []
  {
    var prev, todo := if mode.Refresh? then store else [], Candidates(es)[..Min(upTo, |Candidates(es)|)];
    var live := LiveRecords(prev, todo);
    AfterSplits(store, es, mode, upTo, path, hash);
    TodoIsFaithful(es, upTo, contents);
    NothingIsSound(contents);
    LiveGroup(prev, todo, contents, path, hash);
    LiveIsSound(prev, todo, contents);
    KeyIsStored(live, path, hash);
    MatchingNone(path, hash);
    MarkedPush([], [], true, LatestHash(es, path));
    hide *;
    assert [] + Marked(Matching(prev, path, hash), true, LatestHash(es, path))
        == Marked(Matching(prev, path, hash), true, LatestHash(es, path));
  }

  /** A run has the chunks of every candidate it reaches live, once and in order, if the file can be read or a refresh
      finds that content stored; otherwise it has none of them. */
  lemma {:induction false} ReachedIsLive(
      store: seq<Record>, es: seq<Entry>, mode: Mode, upTo: nat, contents: Contents, i: nat, hash: string)
    requires Sound(store, contents) && Faithful(es, contents)
    requires i < |Candidates(es)| && i < upTo && Candidates(es)[i].hash == Some(hash)
    ensures var e := Candidates(es)[i];
            var stored := Matching(After(store, es, mode, upTo), e.path, hash);
            if e.readable || (mode.Refresh? && Matching(store, e.path, hash) != [])
            then exists heir :: stored == Marked(Original(e.path, hash, contents), false, heir)
            else stored == []
  {
    var prev, todo := if mode.Refresh? then store else [], Candidates(es)[..Min(upTo, |Candidates(es)|)];
    var e := todo[i];
    AfterSplits(store, es, mode, upTo, e.path, hash);
    TodoIsFaithful(es, upTo, contents);
    NothingIsSound(contents);
    assert PlainHash(hash) && e.content == contents(e.path, hash);
    LiveGroup(prev, todo, contents, e.path, hash);
    LiveIsSound(prev, todo, contents);
    KeyIsStored(LiveRecords(prev, todo), e.path, hash);
    KeyIsStored(prev, e.path, hash);
    MatchingNone(e.path, hash);
    MarkedPush([], [], true, LatestHash(es, e.path));
    RecordsForIsCopy(prev, e, contents);
    Stores(prev, e, contents);
    hide Sound, Faithful, PlainHash, Matching, Marked, Key, Keys, LiveRecords, Candidates, FreshRecords, After, RecordsFor, LatestHash;
    assert RecordsFor(prev, e) + [] == RecordsFor(prev, e);
  }

  /** An entry of which nothing is stored by a run over what is there. */
  predicate StoresNothing(prev: seq<Record>, e: Entry) {
    e.hash.None? || (!e.readable && Matching(prev, e.path, e.hash.value) == [])
  }

  lemma {:induction false} Stores(prev: seq<Record>, e: Entry, contents: Contents)
    requires Sound(prev, contents) && (e.hash.Some? ==> PlainHash(e.hash.value))
    ensures RecordsFor(prev, e) == [] <==> StoresNothing(prev, e)
  {
    hide Sound, PlainHash, Matching, Keys, Key;
    SoundIsPlain(prev, contents);
    if e.hash.Some? {
      KeyIsStored(prev, e.path, e.hash.value);
      SomeChunk(e.content);
    }
  }

  lemma {:induction false} SoundIsPlain(prev: seq<Record>, contents: Contents)
    requires Sound(prev, contents)
    ensures forall r :: r in prev ==> PlainHash(r.hash)
  {
  }

  /** The job's failures are the candidates of which nothing is stored. */
  lemma {:induction false} FailuresCount(prev: seq<Record>, es: seq<Entry>, contents: Contents)
    requires Sound(prev, contents) && forall i :: 0 <= i < |es| && es[i].hash.Some? ==> PlainHash(es[i].hash.value)
    ensures Failures(prev, es) == |set i: nat | i < |es| && StoresNothing(prev, es[i])|
  {
    hide Sound, PlainHash, Matching, Keys, Key;
    SoundIsPlain(prev, contents);
    var failed := set i: nat | i < |es| && StoresNothing(prev, es[i]);
    if es == [] {
      assert failed == {};
    } else {
      var init, n := es[..|es| - 1], |es| - 1;
      var before := set i: nat | i < |init| && StoresNothing(prev, init[i]);
      assert forall i :: 0 <= i < |init| ==> init[i] == es[i];
      FailuresCount(prev, init, contents);
      assert failed == if StoresNothing(prev, es[n]) then before + {n} else before;
      if es[n].hash.Some? {
        KeyIsStored(prev, es[n].path, es[n].hash.value);
      }
    }
  }
}
