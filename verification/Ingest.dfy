/** Incremental ingestion: a refresh reuses the stored chunks of unchanged files and marks the rest stale. */
module Ingest {
  import opened Wrappers
  import Chunking

  /** A file of the manifest. Unreadable and over-budget files are listed too. */
  datatype Entry = Entry(path: string, hash: Option<string>, candidate: bool, content: string, readable: bool)

  /** A stored chunk. */
  datatype Record = Record(
    path: string, hash: string, index: nat, chunk: Chunking.Chunk, stale: bool, supersededBy: Option<string>)

  datatype Mode = Full | Refresh

  datatype Status = Paused | Completed | Failed

  datatype Job = Job(status: Status, completed: nat, failed: nat)

  function Key(path: string, hash: string): string {
    path + ":" + hash
  }

  function FreshRecords(path: string, hash: string, content: string): seq<Record> {
    var chunks := Chunking.ChunksOf(content);
    seq(|chunks|, i requires 0 <= i < |chunks| => Record(path, hash, i, chunks[i], false, None))
  }

  function Keys(rs: seq<Record>): set<string> {
    set r | r in rs :: Key(r.path, r.hash)
  }

  /** The records stored for one content of one file. */
  function Matching(rs: seq<Record>, path: string, hash: string): seq<Record> {
    if rs == [] then []
    else
      var last := rs[|rs| - 1];
      Matching(rs[..|rs| - 1], path, hash) + if last.path == path && last.hash == hash then [last] else []
  }

  function Revive(rs: seq<Record>): seq<Record> {
    seq(|rs|, i requires 0 <= i < |rs| => rs[i].(stale := false))
  }

  function Candidates(es: seq<Entry>): seq<Entry> {
    if es == [] then []
    else Candidates(es[..|es| - 1]) + if es[|es| - 1].candidate then [es[|es| - 1]] else []
  }

  function RecordsFor(prev: seq<Record>, e: Entry): seq<Record> {
    if e.hash.None? then []
    else if Key(e.path, e.hash.value) in Keys(prev) then Revive(Matching(prev, e.path, e.hash.value))
    else if e.readable then FreshRecords(e.path, e.hash.value, e.content)
    else []
  }

  function LiveRecords(prev: seq<Record>, es: seq<Entry>): seq<Record> {
    if es == [] then []
    else LiveRecords(prev, es[..|es| - 1]) + RecordsFor(prev, es[|es| - 1])
  }

  /** The hash a path has in the manifest. */
  function LatestHash(es: seq<Entry>, path: string): Option<string> {
    if es == [] then None
    else if es[|es| - 1].path == path && es[|es| - 1].hash.Some? then es[|es| - 1].hash
    else LatestHash(es[..|es| - 1], path)
  }

  /** What was stored and is no longer current, marked stale. */
  function Outdated(prev: seq<Record>, current: set<string>, es: seq<Entry>): seq<Record> {
    if prev == [] then []
    else
      var last := prev[|prev| - 1];
      Outdated(prev[..|prev| - 1], current, es)
      + if Key(last.path, last.hash) in current then []
        else [last.(stale := true, supersededBy := LatestHash(es, last.path))]
  }

  function Min(a: nat, b: nat): nat {
    if a < b then a else b
  }

  /** The store after a run that gets to the first `upTo` candidates before its time is up. */
  function After(store: seq<Record>, es: seq<Entry>, mode: Mode, upTo: nat): seq<Record> {
    var prev := if mode.Refresh? then store else [];
    var todo := Candidates(es);
    var live := LiveRecords(prev, todo[..Min(upTo, |todo|)]);
    live + Outdated(prev, Keys(live), es)
  }

  /** Candidates of which nothing could be stored. */
  function Failures(prev: seq<Record>, es: seq<Entry>): nat {
    if es == [] then 0
    else
      var e := es[|es| - 1];
      Failures(prev, es[..|es| - 1])
      + if e.hash.None? || (!e.readable && Key(e.path, e.hash.value) !in Keys(prev)) then 1 else 0
  }

  method ChunkRecords(e: Entry, hash: string) returns (rs: seq<Record>)
    ensures rs == FreshRecords(e.path, hash, e.content)
  {
    var chunks := Chunking.ChunkFile(e.content);
    rs := seq(|chunks|, i requires 0 <= i < |chunks| => Record(e.path, hash, i, chunks[i], false, None));
  }

  /** Runs or refreshes ingestion over a manifest. */
  method Run(store: seq<Record>, es: seq<Entry>, mode: Mode, upTo: nat) returns (records: seq<Record>, job: Job)
    ensures records == After(store, es, mode, upTo)
    ensures var prev := if mode.Refresh? then store else [];
            job.failed == Failures(prev, Candidates(es)[..Min(upTo, |Candidates(es)|)])
    ensures job.completed + job.failed == Min(upTo, |Candidates(es)|)
    ensures job.status == if upTo < |Candidates(es)| then Paused else if job.failed == 0 then Completed else Failed
  {
    var prev := if mode.Refresh? then store else [];
    var previousHashes := Keys(prev);
    var todo := Candidates(es);
    hide Keys, Key, Revive, FreshRecords, Candidates, LatestHash, Outdated;
    records := [];
    var completed, failed := 0, 0;
    var paused := false;
    assert todo[..0] == [];
    var i := 0;
    while i < |todo| && !paused
      invariant i <= |todo| && i <= upTo && (paused ==> i == upTo < |todo|)
      invariant records == LiveRecords(prev, todo[..i])
      invariant completed + failed == i && failed == Failures(prev, todo[..i])
      decreases |todo| - i, !paused
    {
      if i == upTo {
        paused := true;
      } else {
        var e := todo[i];
        StepRecords(prev, todo, i);
        if e.hash.None? {
          failed := failed + 1;
        } else if mode.Refresh? && Key(e.path, e.hash.value) in previousHashes {
          records := records + Revive(Matching(prev, e.path, e.hash.value));
          completed := completed + 1;
        } else if e.readable {
          NothingStored(mode, prev, Key(e.path, e.hash.value));
          var cut := ChunkRecords(e, e.hash.value);
          records := records + cut;
          completed := completed + 1;
        } else {
          NothingStored(mode, prev, Key(e.path, e.hash.value));
          failed := failed + 1;
        }
        i := i + 1;
      }
    }
    var live := records;
    if mode.Refresh? {
      var currentKeys := Keys(live);
      assert prev[..0] == [];
      OutdatedNone(currentKeys, es);
      for k := 0 to |prev|
        invariant records == live + Outdated(prev[..k], currentKeys, es)
      {
        OutdatedStep(prev, k, currentKeys, es);
        var chunk := prev[k];
        if Key(chunk.path, chunk.hash) !in currentKeys {
          records := records + [chunk.(stale := true, supersededBy := LatestHash(es, chunk.path))];
        }
      }
      assert prev[..|prev|] == prev;
    } else {
      OutdatedNone(Keys(live), es);
    }
    job := Job(if paused then Paused else if failed == 0 then Completed else Failed, completed, failed);
  }

  lemma {:induction false} StepRecords(prev: seq<Record>, todo: seq<Entry>, i: nat)
    requires i < |todo|
    ensures LiveRecords(prev, todo[..i + 1]) == LiveRecords(prev, todo[..i]) + RecordsFor(prev, todo[i])
    ensures Failures(prev, todo[..i + 1])
         == Failures(prev, todo[..i])
          + if todo[i].hash.None? || (!todo[i].readable && Key(todo[i].path, todo[i].hash.value) !in Keys(prev)) then 1 else 0
  {
    hide RecordsFor, Keys, Key;
    assert todo[..i + 1][..i] == todo[..i];
  }

  lemma {:induction false} NothingStored(mode: Mode, prev: seq<Record>, key: string)
    requires mode.Full? ==> prev == []
    ensures mode.Full? ==> key !in Keys(prev)
  {
  }

  lemma {:induction false} OutdatedNone(current: set<string>, es: seq<Entry>)
    ensures Outdated([], current, es) == []
  {
  }

  lemma {:induction false} OutdatedStep(prev: seq<Record>, k: nat, current: set<string>, es: seq<Entry>)
    requires k < |prev|
    ensures Outdated(prev[..k + 1], current, es)
         == Outdated(prev[..k], current, es)
          + if Key(prev[k].path, prev[k].hash) in current then []
            else [prev[k].(stale := true, supersededBy := LatestHash(es, prev[k].path))]
  {
    hide Key, LatestHash;
    assert prev[..k + 1][..k] == prev[..k];
  }
}
