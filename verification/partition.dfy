/** `_chunks`: contiguous slicing of the file list into near-equal chunks. */
module Partition {
  import opened Base

  /** Python's `(a + n - 1) // n` for a non-negative `a`: the ceiling of a / n. */
  function CeilDiv(a: nat, n: nat): (r: nat)
    requires n > 0
    ensures r * n >= a
    ensures r == 0 || (r - 1) * n < a
  {
    var q := (a + n - 1) / n;
    assert a + n - 1 == q * n + (a + n - 1) % n;
    q
  }

  /** `[s[i : i + size] for i in range(start, len(s), size)]`; Python's slice
      clamps at the end of `s`. */
  function Slices<T>(s: seq<T>, start: nat, size: nat): (cs: seq<seq<T>>)
    requires size > 0
    decreases |s| - start
    ensures start <= |s| ==> Flatten(cs) == s[start..]
    ensures start >= |s| ==> cs == []
    ensures forall j :: 0 <= j < |cs| ==> 0 < |cs[j]| <= size
    ensures forall j :: 0 <= j < |cs| - 1 ==> |cs[j]| == size
  {
    if start >= |s| then []
    else
      var end := if start + size < |s| then start + size else |s|;
      var rest := Slices(s, start + size, size);
      var cs := [s[start..end]] + rest;
      assert cs[1..] == rest;
      assert s[start..] == s[start..end] + s[end..];
      cs
  }

  /** Each chunk but the last is full, so `k` chunks of `size` cover the rest. */
  lemma {:induction false} SlicesCount<T>(s: seq<T>, start: nat, size: nat, k: nat)
    requires size > 0
    requires |s| - start <= k * size
    decreases k
    ensures |Slices(s, start, size)| <= k
  {
    if start < |s| {
      assert k > 0;
      assert |s| - (start + size) <= (k - 1) * size;
      SlicesCount(s, start + size, size, k - 1);
    }
  }

  /** The error `range` raises for a zero step (`ValueError`). */
  datatype ChunkError = ZeroStep

  /** `_chunks(seq, n)`. */
  function Chunks<T>(s: seq<T>, n: int): (r: Result<seq<seq<T>>, ChunkError>)
    ensures n <= 0 ==> r == Success([s])
    ensures n > 0 && s == [] ==> r == Failure(ZeroStep)
    ensures n > 0 && s != [] ==>
      && r.Success?
      && Flatten(r.value) == s
      && |r.value| <= n
      && (forall j :: 0 <= j < |r.value| ==> 0 < |r.value[j]| <= CeilDiv(|s|, n))
      && (forall j :: 0 <= j < |r.value| - 1 ==> |r.value[j]| == CeilDiv(|s|, n))
  {
    if n <= 0 then
      Success([s])
    else
      var size := CeilDiv(|s|, n);
      if size == 0 then
        Failure(ZeroStep)
      else
        SlicesCount(s, 0, size, n);
        Success(Slices(s, 0, size))
  }

  /** The batches a worker is started for (`if not batch: continue`). */
  function Batches<T>(cs: seq<seq<T>>): (bs: seq<seq<T>>)
    ensures Flatten(bs) == Flatten(cs)
    ensures forall j :: 0 <= j < |bs| ==> bs[j] != []
  {
    if cs == [] then []
    else
      var rest := Batches(cs[1..]);
      if cs[0] == [] then rest
      else
        var bs := [cs[0]] + rest;
        assert bs[1..] == rest;
        bs
  }

  /** Dropping empty chunks changes nothing when there are none. */
  lemma {:induction false} BatchesOfNonEmpty<T>(cs: seq<seq<T>>)
    requires forall j :: 0 <= j < |cs| ==> cs[j] != []
    ensures Batches(cs) == cs
  {
    if cs != [] {
      BatchesOfNonEmpty(cs[1..]);
    }
  }

  /** The chunks a search dispatches, for a non-empty file list and a
      positive worker count: exactly the chunks, and they tile the list. */
  lemma ChunksDispatched<T>(s: seq<T>, n: int)
    requires s != [] && n > 0
    ensures Chunks(s, n).Success?
    ensures Batches(Chunks(s, n).value) == Chunks(s, n).value
    ensures Flatten(Batches(Chunks(s, n).value)) == s
  {
    BatchesOfNonEmpty(Chunks(s, n).value);
  }
}
