/** Small shared vocabulary: optional values, results, and occurrence
    counting over sequences. */
module Base {

  /** A value that may be missing: Python's `None` versus a value. */
  datatype Option<T> = None | Some(value: T)

  /** The outcome of an operation that may raise. */
  datatype Result<T, E> = Success(value: T) | Failure(error: E)

  /** Number of occurrences of `x` in `s`. */
  function Count<T(==)>(s: seq<T>, x: T): nat
  {
    if s == [] then 0 else (if s[0] == x then 1 else 0) + Count(s[1..], x)
  }

  /** No element occurs twice. */
  predicate Distinct<T(==)>(s: seq<T>)
  {
    forall i :: 0 <= i < |s| ==> Count(s, s[i]) == 1
  }

  /** Dropping the head keeps a sequence free of duplicates. */
  lemma DistinctTail<T>(s: seq<T>)
    requires s != [] && Distinct(s)
    ensures Distinct(s[1..])
  {
    forall i | 0 <= i < |s| - 1 ensures Count(s[1..], s[1..][i]) == 1 {
      assert s[1..][i] == s[i + 1];
      assert Count(s, s[i + 1]) == 1;
      CountPositiveIffIn(s[1..], s[i + 1]);
    }
  }

  /** `c` copies of `x`. */
  function Repeat<T>(x: T, c: nat): (r: seq<T>)
    ensures |r| == c
  {
    if c == 0 then [] else [x] + Repeat(x, c - 1)
  }

  lemma {:induction false} CountAppend<T>(a: seq<T>, b: seq<T>, x: T)
    ensures Count(a + b, x) == Count(a, x) + Count(b, x)
  {
    if a == [] {
      assert a + b == b;
    } else {
      assert (a + b)[1..] == a[1..] + b;
      CountAppend(a[1..], b, x);
    }
  }

  lemma {:induction false} CountPositiveIffIn<T>(s: seq<T>, x: T)
    ensures Count(s, x) > 0 <==> x in s
  {
    if s != [] {
      CountPositiveIffIn(s[1..], x);
      assert s == [s[0]] + s[1..];
    }
  }

  lemma {:induction false} RepeatMembers<T>(y: T, c: nat, x: T)
    ensures x in Repeat(y, c) <==> c > 0 && x == y
  {
    if c > 0 {
      RepeatMembers(y, c - 1, x);
    }
  }

  lemma {:induction false} CountRepeat<T>(y: T, c: nat, x: T)
    ensures Count(Repeat(y, c), x) == if x == y then c else 0
  {
    if c > 0 {
      assert Repeat(y, c)[1..] == Repeat(y, c - 1);
      CountRepeat(y, c - 1, x);
    }
  }

  /** Concatenation of a sequence of sequences, in order. */
  function Flatten<T>(ss: seq<seq<T>>): seq<T>
  {
    if ss == [] then [] else ss[0] + Flatten(ss[1..])
  }

  lemma {:induction false} FlattenAppend<T>(a: seq<seq<T>>, b: seq<seq<T>>)
    ensures Flatten(a + b) == Flatten(a) + Flatten(b)
  {
    if a == [] {
      assert a + b == b;
    } else {
      assert (a + b)[1..] == a[1..] + b;
      FlattenAppend(a[1..], b);
    }
  }

  lemma FlattenSnoc<T>(ss: seq<seq<T>>)
    requires ss != []
    ensures Flatten(ss) == Flatten(ss[..|ss| - 1]) + ss[|ss| - 1]
  {
    var init, last := ss[..|ss| - 1], ss[|ss| - 1];
    assert ss == init + [last];
    FlattenAppend(init, [last]);
    var one := [last];
    assert one[1..] == [];
    assert Flatten(one) == last + Flatten(one[1..]);
  }

  /** The elements of `s` that `keep` accepts, in order. */
  function Filter<T>(s: seq<T>, keep: T -> bool): (r: seq<T>)
    ensures |r| <= |s|
  {
    if s == [] then [] else (if keep(s[0]) then [s[0]] else []) + Filter(s[1..], keep)
  }

  lemma {:induction false} FilterAppend<T>(a: seq<T>, b: seq<T>, keep: T -> bool)
    ensures Filter(a + b, keep) == Filter(a, keep) + Filter(b, keep)
  {
    if a == [] {
      assert a + b == b;
    } else {
      var h := if keep(a[0]) then [a[0]] else [];
      assert (a + b)[0] == a[0];
      assert (a + b)[1..] == a[1..] + b;
      assert Filter(a + b, keep) == h + Filter(a[1..] + b, keep);
      FilterAppend(a[1..], b, keep);
      assert h + (Filter(a[1..], keep) + Filter(b, keep)) == (h + Filter(a[1..], keep)) + Filter(b, keep);
    }
  }

  lemma {:induction false} FilterMembers<T>(s: seq<T>, keep: T -> bool, x: T)
    ensures x in Filter(s, keep) <==> x in s && keep(x)
  {
    if s != [] {
      FilterMembers(s[1..], keep, x);
      assert s == [s[0]] + s[1..];
    }
  }

  lemma {:induction false} FilterAll<T>(s: seq<T>, keep: T -> bool)
    requires forall i :: 0 <= i < |s| ==> keep(s[i])
    ensures Filter(s, keep) == s
  {
    if s != [] {
      FilterAll(s[1..], keep);
    }
  }

  /** Removing the element at `j` removes one copy of it from the multiset. */
  lemma MultisetRemove<T>(s: seq<T>, j: int)
    requires 0 <= j < |s|
    ensures multiset(s) == multiset(s[..j] + s[j + 1..]) + multiset{s[j]}
  {
    assert s == s[..j] + [s[j]] + s[j + 1..];
  }

  /** Two permutations of each other stay so after removing one copy of
      their common element. */
  lemma MultisetCancel<T>(ps: seq<T>, qs: seq<T>, j: int)
    requires multiset(ps) == multiset(qs)
    requires ps != [] && 0 <= j < |qs| && qs[j] == ps[0]
    ensures multiset(ps[1..]) == multiset(qs[..j] + qs[j + 1..])
  {
    MultisetRemove(qs, j);
    MultisetRemove(ps, 0);
    assert ps[..0] + ps[1..] == ps[1..];
    var a, b := multiset(ps[1..]), multiset(qs[..j] + qs[j + 1..]);
    assert a == multiset(ps) - multiset{ps[0]};
    assert b == multiset(qs) - multiset{ps[0]};
  }

  lemma {:induction false} CountMultiset<T>(s: seq<T>, x: T)
    ensures Count(s, x) == multiset(s)[x]
  {
    if s != [] {
      CountMultiset(s[1..], x);
      assert s == [s[0]] + s[1..];
    }
  }

  /** Reordering keeps a sequence free of duplicates. */
  lemma DistinctPermutation<T>(a: seq<T>, b: seq<T>)
    requires Distinct(a) && multiset(a) == multiset(b)
    ensures Distinct(b)
  {
    forall i | 0 <= i < |b| ensures Count(b, b[i]) == 1 {
      CountMultiset(b, b[i]);
      CountMultiset(a, b[i]);
      assert b[i] in multiset(a);
      var j :| 0 <= j < |a| && a[j] == b[i];
    }
  }
}
