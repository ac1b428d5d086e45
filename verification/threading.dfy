/** `threaded_search`: one thread per chunk, all appending into one shared
    map under a lock. Its intended meaning is the sequential fold of
    `_scan_file` over each batch, batch after batch. */
module Threading {
  import opened Base
  import opened Partition
  import opened Scanner
  import opened Setup

  /** Thread count when `os.cpu_count()` is unknown. */
  const DefaultCpuCount := 4

  /** The thread bodies run one after the other: thread `i` folds
      `_scan_file` over batch `i`. */
  function ScanBatches(fs: FileSystem, q: Query, bs: seq<seq<Path>>, m: Hits): Hits
  {
    if bs == [] then m else ScanBatches(fs, q, bs[1..], ScanFiles(fs, q, bs[0], m))
  }

  /** Folding over the batches, then over each batch's files, is one fold
      over all the files. */
  lemma {:induction false} ScanBatchesFlatten(fs: FileSystem, q: Query, bs: seq<seq<Path>>, m: Hits)
    ensures ScanBatches(fs, q, bs, m) == ScanFiles(fs, q, Flatten(bs), m)
  {
    if bs != [] {
      ScanBatchesFlatten(fs, q, bs[1..], ScanFiles(fs, q, bs[0], m));
      ScanFilesConcat(fs, q, bs[0], Flatten(bs[1..]), m);
    }
  }

  /** `threaded_search` with every thread bound to the batch it was created
      for, the file enumeration given as `candidates` and the CPU count as
      `cpu`. */
  function ThreadedSearch(fs: FileSystem, candidates: seq<Path>, suffix: Path -> string,
                          allow: Option<set<string>>, q: Query, cpu: Option<int>): (r: Result<Hits, ChunkError>)
    ensures r.Success?
    ensures CollectFiles(candidates, suffix, allow) == [] ==> r.value == map[]
  {
    var files := CollectFiles(candidates, suffix, allow);
    if files == [] then Success(map[])
    else
      var n := WorkerCount(|files|, cpu, DefaultCpuCount);
      ChunksDispatched(files, n);
      match Chunks(files, n)
      case Failure(e) => Failure(e)
      case Success(cs) => Success(ScanBatches(fs, q, Batches(cs), map[]))
  }

  /** For every thread count the search is one sequential scan of the
      collected files: keys only for keywords with a match, and under each
      the matching files in enumeration order. */
  lemma ThreadedMatchesSequential(fs: FileSystem, candidates: seq<Path>, suffix: Path -> string,
                                  allow: Option<set<string>>, q: Query, cpu: Option<int>)
    ensures ThreadedSearch(fs, candidates, suffix, allow, q, cpu)
         == Success(SequentialScan(fs, q, CollectFiles(candidates, suffix, allow)))
  {
    var files := CollectFiles(candidates, suffix, allow);
    if files != [] {
      var n := WorkerCount(|files|, cpu, DefaultCpuCount);
      ChunksDispatched(files, n);
      ScanBatchesFlatten(fs, q, Batches(Chunks(files, n).value), map[]);
    }
  }

  /** The thread count never changes the result. */
  lemma ThreadCountIrrelevant(fs: FileSystem, candidates: seq<Path>, suffix: Path -> string,
                              allow: Option<set<string>>, q: Query, cpu1: Option<int>, cpu2: Option<int>)
    ensures ThreadedSearch(fs, candidates, suffix, allow, q, cpu1)
         == ThreadedSearch(fs, candidates, suffix, allow, q, cpu2)
  {
    ThreadedMatchesSequential(fs, candidates, suffix, allow, q, cpu1);
    ThreadedMatchesSequential(fs, candidates, suffix, allow, q, cpu2);
  }

  // ---- The loop as written: the closure reads `batch` late ----

  /** A valid late binding: thread `t` reads the loop variable `batch` only
      when it runs, by which time the loop has reached batch `t` or a later
      one. */
  predicate LateBinding(count: nat, bound: seq<nat>)
  {
    |bound| == count && forall t :: 0 <= t < |bound| ==> t <= bound[t] < count
  }

  /** The threaded loop as written, in one possible interleaving: thread `t`
      scans batch `bound[t]`. */
  function ScanBatchesAsWritten(fs: FileSystem, q: Query, bs: seq<seq<Path>>, bound: seq<nat>): (r: Hits)
    requires LateBinding(|bs|, bound)
    ensures (forall t :: 0 <= t < |bound| ==> bound[t] == t) ==> r == ScanBatches(fs, q, bs, map[])
  {
    var scanned := seq(|bs|, t requires 0 <= t < |bs| => bs[bound[t]]);
    assert (forall t :: 0 <= t < |bound| ==> bound[t] == t) ==> scanned == bs;
    ScanBatches(fs, q, scanned, map[])
  }

  /** Two batches, both threads reading the second: file "a" is never
      scanned and file "b" is scanned twice, so the match of "x" in "a" is
      lost. */
  lemma LateBindingCounterexample()
    ensures LateBinding(2, [1, 1])
    ensures var fs := map["a" := Some("x"), "b" := Some("y")];
            var q := Query(["x"], false);
            && "a" in Get(ScanBatches(fs, q, [["a"], ["b"]], map[]), "x")
            && "a" !in Get(ScanBatchesAsWritten(fs, q, [["a"], ["b"]], [1, 1]), "x")
  {
    var fs := map["a" := Some("x"), "b" := Some("y")];
    var q := Query(["x"], false);
    assert Hit(fs, q, "a", "x") by {
      assert "x" <= "x";
    }
    assert "x" in q.keywords;
    assert "a" != "b";
    FirstBatchLost(fs, q, "a", "b", "x");
  }

  /** In general, any match in the first of two single-file batches is lost
      when both threads bind the second batch. */
  lemma FirstBatchLost(fs: FileSystem, q: Query, a: Path, b: Path, k: string)
    requires k in q.keywords && Hit(fs, q, a, k) && a != b
    ensures LateBinding(2, [1, 1])
    ensures a in Get(ScanBatches(fs, q, [[a], [b]], map[]), k)
    ensures a !in Get(ScanBatchesAsWritten(fs, q, [[a], [b]], [1, 1]), k)
  {
    BothThreadsReadSecond(fs, q, [a], [b]);
    ScanPairOfBatches(fs, q, [a], [b]);
    assert [a] + [b] == [a, b];
    assert [b] + [b] == [b, b];
    SequentialScanComplete(fs, q, [a, b], k, a);
    SequentialScanComplete(fs, q, [b, b], k, a);
  }

  /** When both threads bind the second of two batches, the second batch is
      scanned twice and the first not at all. */
  lemma BothThreadsReadSecond(fs: FileSystem, q: Query, a: seq<Path>, b: seq<Path>)
    ensures LateBinding(2, [1, 1])
    ensures ScanBatchesAsWritten(fs, q, [a, b], [1, 1]) == SequentialScan(fs, q, b + b)
  {
    var bs := [a, b];
    var scanned := seq(|bs|, t requires 0 <= t < |bs| => bs[[1, 1][t]]);
    assert scanned == [b, b];
    ScanPairOfBatches(fs, q, b, b);
  }

  /** Scanning two batches scans their files in order. */
  lemma ScanPairOfBatches(fs: FileSystem, q: Query, a: seq<Path>, b: seq<Path>)
    ensures ScanBatches(fs, q, [a, b], map[]) == SequentialScan(fs, q, a + b)
  {
    FlattenPair(a, b);
    ScanBatchesFlatten(fs, q, [a, b], map[]);
  }

  lemma FlattenPair(a: seq<Path>, b: seq<Path>)
    ensures Flatten([a, b]) == a + b
  {
    assert [a, b][1..] == [b];
    assert Flatten([b]) == b + Flatten([b][1..]);
    assert [b][1..] == [];
  }
}
