/** `multiprocessing_search`: one worker process per chunk, each building a
    private partial map, merged by the parent in the order the partial maps
    arrive on the result queue. */
module Multiprocessing {
  import opened Base
  import opened Partition
  import opened Scanner
  import opened Aggregation
  import opened Setup

  /** Worker count when `os.cpu_count()` is unknown. */
  const DefaultCpuCount := 2

  /** `_worker_process`: the partial map `local` of one batch. */
  function WorkerPartial(fs: FileSystem, q: Query, batch: seq<Path>): Hits
  {
    ScanFiles(fs, q, batch, map[])
  }

  /** The partial maps of the batches, in chunk (start) order. */
  function Partials(fs: FileSystem, q: Query, bs: seq<seq<Path>>): seq<Hits>
  {
    seq(|bs|, i requires 0 <= i < |bs| => WorkerPartial(fs, q, bs[i]))
  }

  /** `multiprocessing_search`, with the file enumeration given as
      `candidates`, the CPU count as `cpu`, and the queue's delivery order
      decided by `choices` (see `Aggregation.Arrive`). */
  function MultiprocessingSearch(fs: FileSystem, candidates: seq<Path>, suffix: Path -> string,
                                 allow: Option<set<string>>, q: Query, cpu: Option<int>,
                                 choices: seq<nat>): (r: Result<Hits, ChunkError>)
    ensures r.Success?
    ensures CollectFiles(candidates, suffix, allow) == [] ==> r.value == map[]
  {
    var files := CollectFiles(candidates, suffix, allow);
    if files == [] then Success(map[])
    else
      var n := WorkerCount(|files|, cpu, DefaultCpuCount);
      ChunksDispatched(files, n);
      match Chunks(files, n)
      case Failure(e) => Failure(e)
      case Success(cs) =>
        var received := Arrive(Partials(fs, q, Batches(cs)), choices);
        Success(Aggregate(received))
  }

  /** Merging the workers' partial maps in chunk order is one sequential
      scan of all the batches' files. */
  lemma {:induction false} AggregatePartials(fs: FileSystem, q: Query, bs: seq<seq<Path>>)
    ensures Aggregate(Partials(fs, q, bs)) == SequentialScan(fs, q, Flatten(bs))
  {
    if bs == [] {
      assert Partials(fs, q, bs) == [];
    } else {
      var init, last := bs[..|bs| - 1], bs[|bs| - 1];
      PartialsSnoc(fs, q, bs);
      AggregatePartials(fs, q, init);
      MergeScans(fs, q, Flatten(init), last);
      FlattenSnoc(bs);
    }
  }

  lemma PartialsSnoc(fs: FileSystem, q: Query, bs: seq<seq<Path>>)
    requires bs != []
    ensures var ps := Partials(fs, q, bs);
            && ps[..|ps| - 1] == Partials(fs, q, bs[..|bs| - 1])
            && ps[|ps| - 1] == SequentialScan(fs, q, bs[|bs| - 1])
  {
  }

  /** The batches' partial maps, the one thing the delivery order acts on. */
  function SentPartials(fs: FileSystem, q: Query, files: seq<Path>, cpu: Option<int>): seq<Hits>
    requires files != []
  {
    var n := WorkerCount(|files|, cpu, DefaultCpuCount);
    ChunksDispatched(files, n);
    Partials(fs, q, Batches(Chunks(files, n).value))
  }

  /** For a non-empty file list the search aggregates the sent partial maps
      in delivery order, and those maps in chunk order make up one
      sequential scan. */
  lemma SearchAggregatesSent(fs: FileSystem, candidates: seq<Path>, suffix: Path -> string,
                             allow: Option<set<string>>, q: Query, cpu: Option<int>,
                             choices: seq<nat>)
    requires CollectFiles(candidates, suffix, allow) != []
    ensures var files := CollectFiles(candidates, suffix, allow);
            var ps := SentPartials(fs, q, files, cpu);
            && MultiprocessingSearch(fs, candidates, suffix, allow, q, cpu, choices).value
               == Aggregate(Arrive(ps, choices))
            && Aggregate(ps) == SequentialScan(fs, q, files)
  {
    var files := CollectFiles(candidates, suffix, allow);
    var n := WorkerCount(|files|, cpu, DefaultCpuCount);
    ChunksDispatched(files, n);
    AggregatePartials(fs, q, Batches(Chunks(files, n).value));
  }

  /** When the partial maps arrive in chunk order, the search result is one
      sequential scan of the collected files, for every CPU count. */
  lemma MultiprocessingInChunkOrder(fs: FileSystem, candidates: seq<Path>, suffix: Path -> string,
                                    allow: Option<set<string>>, q: Query, cpu: Option<int>)
    ensures MultiprocessingSearch(fs, candidates, suffix, allow, q, cpu, []).value
         == SequentialScan(fs, q, CollectFiles(candidates, suffix, allow))
  {
    if CollectFiles(candidates, suffix, allow) != [] {
      SearchAggregatesSent(fs, candidates, suffix, allow, q, cpu, []);
      ArriveInChunkOrder(SentPartials(fs, q, CollectFiles(candidates, suffix, allow), cpu));
    }
  }

  /** For every CPU count and every delivery order, the search lists `k`
      exactly when one sequential scan of the collected files does, and with
      the same paths up to reordering. */
  lemma MultiprocessingMatchesSequential(fs: FileSystem, candidates: seq<Path>, suffix: Path -> string,
                                         allow: Option<set<string>>, q: Query, cpu: Option<int>,
                                         choices: seq<nat>, k: string)
    ensures var r := MultiprocessingSearch(fs, candidates, suffix, allow, q, cpu, choices).value;
            var s := SequentialScan(fs, q, CollectFiles(candidates, suffix, allow));
            && (k in r <==> k in s)
            && multiset(Get(r, k)) == multiset(Get(s, k))
  {
    var files := CollectFiles(candidates, suffix, allow);
    if files != [] {
      var ps := SentPartials(fs, q, files, cpu);
      SearchAggregatesSent(fs, candidates, suffix, allow, q, cpu, choices);
      ArrivePermutes(ps, choices);
      AggregateOrderIndependent(Arrive(ps, choices), ps, k);
    }
  }

  /** With distinct keywords and distinct enumerated paths, no path appears
      twice under one keyword, whatever the worker count and delivery order. */
  lemma MultiprocessingNoDuplicates(fs: FileSystem, candidates: seq<Path>, suffix: Path -> string,
                                    allow: Option<set<string>>, q: Query, cpu: Option<int>,
                                    choices: seq<nat>, k: string)
    requires Distinct(q.keywords) && Distinct(CollectFiles(candidates, suffix, allow))
    ensures Distinct(Get(MultiprocessingSearch(fs, candidates, suffix, allow, q, cpu, choices).value, k))
  {
    var r := MultiprocessingSearch(fs, candidates, suffix, allow, q, cpu, choices).value;
    var files := CollectFiles(candidates, suffix, allow);
    var s := SequentialScan(fs, q, files);
    MultiprocessingMatchesSequential(fs, candidates, suffix, allow, q, cpu, choices, k);
    SequentialScanNoDuplicates(fs, q, files, k);
    DistinctPermutation(Get(s, k), Get(r, k));
  }
}
