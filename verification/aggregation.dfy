/** Merging per-worker partial maps (`aggregated[kw].extend(paths)`), and
    the order in which the partial maps are received. */
module Aggregation {
  import opened Base
  import opened Scanner

  /** The effect of merging `partial` into `acc`: every key of either map,
      with the partial's list appended to the accumulated one. */
  function Merge(acc: Hits, partial: Hits): Hits
  {
    map k | k in acc.Keys + partial.Keys :: Get(acc, k) + Get(partial, k)
  }

  lemma MergeGet(acc: Hits, partial: Hits, k: string)
    ensures Get(Merge(acc, partial), k) == Get(acc, k) + Get(partial, k)
  {
  }

  lemma MergeKeys(acc: Hits, partial: Hits, k: string)
    ensures k in Merge(acc, partial) <==> k in acc || k in partial
  {
  }

  /** `for kw, paths in partial.items(): aggregated[kw].extend(paths)`, with
      `items()` visiting the keys in the order `order`. `aggregated` is a
      `defaultdict(list)`, so a missing key starts from the empty list. */
  function ExtendAll(acc: Hits, partial: Hits, order: seq<string>): Hits
    requires forall i :: 0 <= i < |order| ==> order[i] in partial
    decreases |order|
  {
    if order == [] then acc
    else ExtendAll(acc[order[0] := Get(acc, order[0]) + partial[order[0]]], partial, order[1..])
  }

  /** The loop extends exactly the visited keys, each once. */
  lemma {:induction false} ExtendAllGet(acc: Hits, partial: Hits, order: seq<string>, k: string)
    requires forall i :: 0 <= i < |order| ==> order[i] in partial
    requires Distinct(order)
    ensures Get(ExtendAll(acc, partial, order), k)
         == Get(acc, k) + (if k in order then partial[k] else [])
    ensures k in ExtendAll(acc, partial, order) <==> k in acc || k in order
    decreases |order|
  {
    if order != [] {
      var h := order[0];
      var acc' := acc[h := Get(acc, h) + partial[h]];
      DistinctTail(order);
      ExtendAllGet(acc', partial, order[1..], k);
      assert order == [h] + order[1..];
      if k == h {
        assert Count(order, h) == 1;
        CountPositiveIffIn(order[1..], h);
      }
    }
  }

  /** Whatever order `items()` visits the partial's keys in, the loop
      computes `Merge`. */
  lemma ExtendAllIsMerge(acc: Hits, partial: Hits, order: seq<string>)
    requires Distinct(order)
    requires forall k :: k in order <==> k in partial
    ensures ExtendAll(acc, partial, order) == Merge(acc, partial)
  {
    var a := ExtendAll(acc, partial, order);
    var b := Merge(acc, partial);
    forall k ensures Get(a, k) == Get(b, k) && (k in a <==> k in b) {
      ExtendAllGet(acc, partial, order, k);
    }
    assert a.Keys == b.Keys;
    HitsExt(a, b);
  }

  /** The aggregation loop: the received partial maps merged one after the
      other into an initially empty map. */
  function Aggregate(received: seq<Hits>): Hits
  {
    if received == [] then map[]
    else Merge(Aggregate(received[..|received| - 1]), received[|received| - 1])
  }

  /** Reference meaning: the concatenation of every partial's list for `k`,
      in receive order. */
  function Collect(ps: seq<Hits>, k: string): seq<Path>
  {
    if ps == [] then [] else Get(ps[0], k) + Collect(ps[1..], k)
  }

  lemma {:induction false} CollectAppend(a: seq<Hits>, b: seq<Hits>, k: string)
    ensures Collect(a + b, k) == Collect(a, k) + Collect(b, k)
  {
    if a == [] {
      assert a + b == b;
    } else {
      assert (a + b)[1..] == a[1..] + b;
      CollectAppend(a[1..], b, k);
    }
  }

  /** The aggregated list for `k` concatenates the partial lists for `k` in
      receive order. */
  lemma {:induction false} AggregateCollects(ps: seq<Hits>, k: string)
    ensures Get(Aggregate(ps), k) == Collect(ps, k)
  {
    if ps != [] {
      var init, last := ps[..|ps| - 1], ps[|ps| - 1];
      AggregateCollects(init, k);
      MergeGet(Aggregate(init), last, k);
      CollectSnoc(ps, k);
    }
  }

  /** The last partial's list comes last. */
  lemma {:induction false} CollectSnoc(ps: seq<Hits>, k: string)
    requires ps != []
    ensures Collect(ps, k) == Collect(ps[..|ps| - 1], k) + Get(ps[|ps| - 1], k)
  {
    var init, last := ps[..|ps| - 1], ps[|ps| - 1];
    if |ps| == 1 {
      assert ps[1..] == [] && init == [];
    } else {
      var tail := ps[1..];
      CollectSnoc(tail, k);
      assert tail[..|tail| - 1] == init[1..];
      assert tail[|tail| - 1] == last;
      assert init[0] == ps[0];
      assert Collect(ps, k) == Get(ps[0], k) + Collect(tail, k);
      assert Collect(init, k) == Get(ps[0], k) + Collect(init[1..], k);
    }
  }

  /** No key of any partial is dropped. */
  lemma {:induction false} AggregateKeepsKey(ps: seq<Hits>, i: int, k: string)
    requires 0 <= i < |ps| && k in ps[i]
    ensures k in Aggregate(ps)
  {
    var init := ps[..|ps| - 1];
    MergeKeys(Aggregate(init), ps[|ps| - 1], k);
    if i < |ps| - 1 {
      assert init[i] == ps[i];
      AggregateKeepsKey(init, i, k);
    }
  }

  /** Every aggregated key comes from some partial. */
  lemma {:induction false} AggregateKeySource(ps: seq<Hits>, k: string) returns (i: int)
    requires k in Aggregate(ps)
    ensures 0 <= i < |ps| && k in ps[i]
  {
    var init := ps[..|ps| - 1];
    MergeKeys(Aggregate(init), ps[|ps| - 1], k);
    if k in ps[|ps| - 1] {
      i := |ps| - 1;
    } else {
      i := AggregateKeySource(init, k);
      assert init[i] == ps[i];
    }
  }

  /** A key is aggregated iff it is a key of some received partial map. */
  lemma {:induction false} AggregateKeys(ps: seq<Hits>, k: string)
    ensures k in Aggregate(ps) <==> exists i :: 0 <= i < |ps| && k in ps[i]
  {
    if k in Aggregate(ps) {
      var i := AggregateKeySource(ps, k);
    }
    if exists i :: 0 <= i < |ps| && k in ps[i] {
      var i :| 0 <= i < |ps| && k in ps[i];
      AggregateKeepsKey(ps, i, k);
    }
  }

  /** Sum over the partials of the length of their list for `k`. */
  function SumLengths(ps: seq<Hits>, k: string): nat
  {
    if ps == [] then 0 else |Get(ps[0], k)| + SumLengths(ps[1..], k)
  }

  /** Per-keyword lengths add up. */
  lemma AggregateLengths(ps: seq<Hits>, k: string)
    ensures |Get(Aggregate(ps), k)| == SumLengths(ps, k)
  {
    AggregateCollects(ps, k);
    CollectLength(ps, k);
  }

  lemma {:induction false} CollectLength(ps: seq<Hits>, k: string)
    ensures |Collect(ps, k)| == SumLengths(ps, k)
  {
    if ps != [] {
      CollectLength(ps[1..], k);
    }
  }

  /** The order `result_queue.get()` returns the partial maps in. At each
      call one still-pending worker delivers first; the scheduler's choice is
      `choices[i]` (modulo the number still pending), and with no choice left
      the earliest-started pending worker delivers. */
  function Arrive<T>(pending: seq<T>, choices: seq<nat>): (r: seq<T>)
    decreases |pending|
    ensures |r| == |pending|
  {
    if pending == [] then []
    else
      var j := if choices == [] then 0 else choices[0] % |pending|;
      [pending[j]] + Arrive(pending[..j] + pending[j + 1..], if choices == [] then [] else choices[1..])
  }

  lemma {:induction false} ArrivePermutes<T>(pending: seq<T>, choices: seq<nat>)
    ensures multiset(Arrive(pending, choices)) == multiset(pending)
  {
    if pending != [] {
      var j := if choices == [] then 0 else choices[0] % |pending|;
      ArrivePermutes(pending[..j] + pending[j + 1..], if choices == [] then [] else choices[1..]);
      MultisetRemove(pending, j);
    }
  }

  /** Without scheduler choices the partial maps arrive in chunk order. */
  lemma {:induction false} ArriveInChunkOrder<T>(pending: seq<T>)
    ensures Arrive(pending, []) == pending
  {
    if pending != [] {
      ArriveInChunkOrder(pending[1..]);
      assert pending[..0] + pending[1..] == pending[1..];
    }
  }

  /** Taking the partial at `j` out of the receive order takes its paths
      out of the collected list. */
  lemma CollectRemove(qs: seq<Hits>, j: int, k: string)
    requires 0 <= j < |qs|
    ensures multiset(Collect(qs, k)) == multiset(Get(qs[j], k)) + multiset(Collect(qs[..j] + qs[j + 1..], k))
  {
    assert qs == qs[..j] + [qs[j]] + qs[j + 1..];
    CollectAppend(qs[..j] + [qs[j]], qs[j + 1..], k);
    CollectAppend(qs[..j], [qs[j]], k);
    CollectAppend(qs[..j], qs[j + 1..], k);
    assert Collect([qs[j]], k) == Get(qs[j], k) + Collect([], k);
  }

  lemma {:induction false} CollectPermutation(ps: seq<Hits>, qs: seq<Hits>, k: string)
    requires multiset(ps) == multiset(qs)
    ensures multiset(Collect(ps, k)) == multiset(Collect(qs, k))
    decreases |ps|
  {
    if ps == [] {
      assert |qs| == |multiset(qs)| == 0;
    } else {
      assert ps[0] in multiset(qs);
      var j :| 0 <= j < |qs| && qs[j] == ps[0];
      MultisetCancel(ps, qs, j);
      CollectPermutation(ps[1..], qs[..j] + qs[j + 1..], k);
      CollectRemove(qs, j, k);
    }
  }

  /** Two receive orders of the same partial maps aggregate `k` alike: it
      is a key of both or of neither, with the same paths up to reordering. */
  lemma AggregateOrderIndependent(ps: seq<Hits>, qs: seq<Hits>, k: string)
    requires multiset(ps) == multiset(qs)
    ensures k in Aggregate(ps) <==> k in Aggregate(qs)
    ensures multiset(Get(Aggregate(ps), k)) == multiset(Get(Aggregate(qs), k))
  {
    AggregateCollects(ps, k);
    AggregateCollects(qs, k);
    CollectPermutation(ps, qs, k);
    AggregateKeys(ps, k);
    AggregateKeys(qs, k);
    if exists i :: 0 <= i < |ps| && k in ps[i] {
      var i :| 0 <= i < |ps| && k in ps[i];
      assert ps[i] in multiset(qs);
    }
    if exists i :: 0 <= i < |qs| && k in qs[i] {
      var i :| 0 <= i < |qs| && k in qs[i];
      assert qs[i] in multiset(ps);
    }
  }

  /** Scanning files into an existing map is merging the fresh scan of those
      files into it: a worker's private map can be merged later. */
  lemma ScanFilesFromMerge(fs: FileSystem, q: Query, files: seq<Path>, m: Hits)
    ensures ScanFiles(fs, q, files, m) == Merge(m, SequentialScan(fs, q, files))
  {
    var a := ScanFiles(fs, q, files, m);
    var b := Merge(m, SequentialScan(fs, q, files));
    forall k ensures Get(a, k) == Get(b, k) {
      ScanFilesGet(fs, q, files, m, k);
      MergeGet(m, SequentialScan(fs, q, files), k);
    }
    forall k ensures k in a <==> k in b {
      ScanFilesKeys(fs, q, files, m, k);
      MergeKeys(m, SequentialScan(fs, q, files), k);
    }
    HitsExt(a, b);
  }

  /** Merging the scans of two file lists is the scan of their concatenation. */
  lemma MergeScans(fs: FileSystem, q: Query, a: seq<Path>, b: seq<Path>)
    ensures Merge(SequentialScan(fs, q, a), SequentialScan(fs, q, b)) == SequentialScan(fs, q, a + b)
  {
    ScanFilesFromMerge(fs, q, b, SequentialScan(fs, q, a));
    ScanFilesConcat(fs, q, a, b, map[]);
  }
}
