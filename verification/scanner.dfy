/** The per-file scanner and the per-chunk fold: `_scan_file` and the scan
    loop of `_worker_process`, which perform the same map update. */
module Scanner {
  import opened Base
  import opened Text

  /** A file path, recorded as `str(path)`. */
  type Path = string

  /** The file contents the search would read: `None` when reading or UTF-8
      decoding fails. A path missing from the map is unreadable too (the file
      vanished). */
  type FileSystem = map<Path, Option<string>>

  /** `dict[keyword] -> list[path]`, read through `Get` like a `defaultdict(list)`. */
  type Hits = map<string, seq<Path>>

  /** The keyword list and the case-sensitivity flag of one search. */
  datatype Query = Query(keywords: seq<string>, caseInsensitive: bool)

  /** `_read_text_safely`. */
  function ReadText(fs: FileSystem, p: Path): Option<string>
  {
    if p in fs then fs[p] else None
  }

  /** `kw.lower() in content.lower()` or `kw in content`. */
  predicate Matches(q: Query, kw: string, content: string)
  {
    if q.caseInsensitive then Contains(Lower(content), Lower(kw)) else Contains(content, kw)
  }

  /** The case toggle: "Foo" is in "the foo bar" only when matching
      ignores case. */
  lemma CaseToggleExample()
    ensures Matches(Query(["Foo"], true), "Foo", "the foo bar")
    ensures !Matches(Query(["Foo"], false), "Foo", "the foo bar")
  {
    var hay := "the foo bar";
    assert Lower("Foo") == "foo";
    assert Lower(hay) == hay;
    assert OccursAt(hay, "foo", 4) by {
      assert hay[4..7] == "foo";
    }
    ContainsIffOccurs(hay, "foo");
    FirstCharAbsent(hay, "Foo");
  }

  /** File `p` is readable and its content matches `kw`. */
  predicate Hit(fs: FileSystem, q: Query, p: Path, kw: string)
  {
    ReadText(fs, p).Some? && Matches(q, kw, ReadText(fs, p).value)
  }

  /** The list recorded for `kw`; a missing key reads as the empty list. */
  function Get(m: Hits, kw: string): seq<Path>
  {
    if kw in m then m[kw] else []
  }

  /** Two result maps with the same keys and the same lists are equal. */
  lemma HitsExt(a: Hits, b: Hits)
    requires a.Keys == b.Keys
    requires forall k :: Get(a, k) == Get(b, k)
    ensures a == b
  {
    forall k | k in a ensures a[k] == b[k] {
      assert Get(a, k) == Get(b, k);
    }
  }

  /** `out_map[kw].append(p)`. */
  function Append(m: Hits, kw: string, p: Path): (r: Hits)
    ensures r.Keys == m.Keys + {kw}
    ensures forall k :: Get(r, k) == if k == kw then Get(m, k) + [p] else Get(m, k)
  {
    m[kw := Get(m, kw) + [p]]
  }

  /** The inner `for kw in keywords` loop on the content of file `p`. */
  function RecordMatches(q: Query, content: string, p: Path, kws: seq<string>, m: Hits): Hits
  {
    if kws == [] then m
    else
      var kw := kws[0];
      var m' := if Matches(q, kw, content) then Append(m, kw, p) else m;
      RecordMatches(q, content, p, kws[1..], m')
  }

  /** The loop appends `p` under `k` once per occurrence of `k` in the
      keyword list when the content matches, and nothing otherwise. */
  lemma {:induction false} RecordMatchesGet(q: Query, content: string, p: Path, kws: seq<string>, m: Hits, k: string)
    ensures Get(RecordMatches(q, content, p, kws, m), k)
         == Get(m, k) + (if Matches(q, k, content) then Repeat(p, Count(kws, k)) else [])
  {
    if kws != [] {
      var kw := kws[0];
      var m' := if Matches(q, kw, content) then Append(m, kw, p) else m;
      RecordMatchesGet(q, content, p, kws[1..], m', k);
      var c := Count(kws[1..], k);
      assert Count(kws, k) == (if kw == k then 1 else 0) + c;
      if Matches(q, kw, content) && k == kw {
        assert Get(m', k) == Get(m, k) + [p];
        assert Repeat(p, c + 1) == [p] + Repeat(p, c);
      } else {
        assert Get(m', k) == Get(m, k);
      }
    }
  }

  /** The loop creates a key exactly for the matching keywords of the list. */
  lemma {:induction false} RecordMatchesKeys(q: Query, content: string, p: Path, kws: seq<string>, m: Hits, k: string)
    ensures k in RecordMatches(q, content, p, kws, m) <==> k in m || (k in kws && Matches(q, k, content))
  {
    if kws != [] {
      var kw := kws[0];
      var m' := if Matches(q, kw, content) then Append(m, kw, p) else m;
      RecordMatchesKeys(q, content, p, kws[1..], m', k);
      assert kws == [kw] + kws[1..];
    }
  }

  /** What scanning file `p` appends under `kw`: `p` once per occurrence of
      `kw` in the keyword list when the file matches, nothing otherwise. */
  function Contribution(fs: FileSystem, q: Query, p: Path, kw: string): seq<Path>
  {
    if Hit(fs, q, p, kw) then Repeat(p, Count(q.keywords, kw)) else []
  }

  lemma ContributionNonEmpty(fs: FileSystem, q: Query, p: Path, kw: string)
    ensures Contribution(fs, q, p, kw) != [] <==> kw in q.keywords && Hit(fs, q, p, kw)
  {
    CountPositiveIffIn(q.keywords, kw);
  }

  /** `_scan_file(p, keywords, out_map, ...)` as a pure map update. */
  function ScanFile(fs: FileSystem, q: Query, p: Path, m: Hits): (r: Hits)
    ensures ReadText(fs, p).None? ==> r == m
    ensures forall k :: !Hit(fs, q, p, k) ==> Get(r, k) == Get(m, k)
    ensures forall k :: Hit(fs, q, p, k) ==> Get(r, k) == Get(m, k) + Repeat(p, Count(q.keywords, k))
    ensures forall k :: k in r <==> k in m || (k in q.keywords && Hit(fs, q, p, k))
  {
    match ReadText(fs, p)
    case None => m
    case Some(content) =>
      var r := RecordMatches(q, content, p, q.keywords, m);
      assert forall k :: Get(r, k) == Get(m, k) + (if Matches(q, k, content) then Repeat(p, Count(q.keywords, k)) else []) by {
        forall k ensures Get(r, k) == Get(m, k) + (if Matches(q, k, content) then Repeat(p, Count(q.keywords, k)) else []) {
          RecordMatchesGet(q, content, p, q.keywords, m, k);
        }
      }
      assert forall k :: k in r <==> k in m || (k in q.keywords && Matches(q, k, content)) by {
        forall k ensures k in r <==> k in m || (k in q.keywords && Matches(q, k, content)) {
          RecordMatchesKeys(q, content, p, q.keywords, m, k);
        }
      }
      r
  }

  /** The readable files of `files`, in order, whose content matches `kw`. */
  function MatchingFiles(fs: FileSystem, q: Query, files: seq<Path>, kw: string): seq<Path>
  {
    if files == [] then []
    else (if Hit(fs, q, files[0], kw) then [files[0]] else []) + MatchingFiles(fs, q, files[1..], kw)
  }

  /** Each element of `xs` repeated `c` times in place. */
  function Stutter(xs: seq<Path>, c: nat): seq<Path>
  {
    if xs == [] then [] else Repeat(xs[0], c) + Stutter(xs[1..], c)
  }

  /** The reference meaning of a scan: the list a sequential scan of `files`
      records for `kw`. */
  function Expected(fs: FileSystem, q: Query, files: seq<Path>, kw: string): seq<Path>
  {
    Stutter(MatchingFiles(fs, q, files, kw), Count(q.keywords, kw))
  }

  lemma ExpectedCons(fs: FileSystem, q: Query, files: seq<Path>, k: string)
    requires files != []
    ensures Expected(fs, q, files, k) == Contribution(fs, q, files[0], k) + Expected(fs, q, files[1..], k)
  {
    var rest := MatchingFiles(fs, q, files[1..], k);
    if Hit(fs, q, files[0], k) {
      assert ([files[0]] + rest)[1..] == rest;
    } else {
      assert MatchingFiles(fs, q, files, k) == rest;
    }
  }

  lemma ScanFileGet(fs: FileSystem, q: Query, p: Path, m: Hits, k: string)
    ensures Get(ScanFile(fs, q, p, m), k) == Get(m, k) + Contribution(fs, q, p, k)
  {
  }

  /** The scan loop over a sequence of files, starting from `m`. */
  function ScanFiles(fs: FileSystem, q: Query, files: seq<Path>, m: Hits): Hits
  {
    if files == [] then m else ScanFiles(fs, q, files[1..], ScanFile(fs, q, files[0], m))
  }

  /** Scanning `files` appends, under each keyword, its reference list. */
  lemma {:induction false} ScanFilesGet(fs: FileSystem, q: Query, files: seq<Path>, m: Hits, k: string)
    ensures Get(ScanFiles(fs, q, files, m), k) == Get(m, k) + Expected(fs, q, files, k)
  {
    if files != [] {
      var m' := ScanFile(fs, q, files[0], m);
      ScanFilesGet(fs, q, files[1..], m', k);
      ExpectedCons(fs, q, files, k);
      ScanFileGet(fs, q, files[0], m, k);
    }
  }

  /** Scanning `files` adds a key exactly for keywords with a non-empty
      reference list. */
  lemma {:induction false} ScanFilesKeys(fs: FileSystem, q: Query, files: seq<Path>, m: Hits, k: string)
    ensures k in ScanFiles(fs, q, files, m) <==> k in m || Expected(fs, q, files, k) != []
  {
    if files != [] {
      var m' := ScanFile(fs, q, files[0], m);
      ScanFilesKeys(fs, q, files[1..], m', k);
      ExpectedCons(fs, q, files, k);
      ContributionNonEmpty(fs, q, files[0], k);
    }
  }

  /** One scan of all files from an empty map: the intended meaning of both
      searches, and exactly `_worker_process`'s partial map for a chunk. */
  function SequentialScan(fs: FileSystem, q: Query, files: seq<Path>): (r: Hits)
    ensures forall k :: Get(r, k) == Expected(fs, q, files, k)
    ensures forall k :: k in r <==> Expected(fs, q, files, k) != []
  {
    var r := ScanFiles(fs, q, files, map[]);
    assert forall k :: Get(r, k) == Expected(fs, q, files, k) by {
      forall k ensures Get(r, k) == Expected(fs, q, files, k) {
        ScanFilesGet(fs, q, files, map[], k);
      }
    }
    assert forall k :: k in r <==> Expected(fs, q, files, k) != [] by {
      forall k ensures k in r <==> Expected(fs, q, files, k) != [] {
        ScanFilesKeys(fs, q, files, map[], k);
      }
    }
    r
  }

  /** Scanning `a + b` is scanning `a`, then `b`. */
  lemma {:induction false} ScanFilesConcat(fs: FileSystem, q: Query, a: seq<Path>, b: seq<Path>, m: Hits)
    ensures ScanFiles(fs, q, a + b, m) == ScanFiles(fs, q, b, ScanFiles(fs, q, a, m))
  {
    if a == [] {
      assert a + b == b;
    } else {
      assert (a + b)[1..] == a[1..] + b;
      ScanFilesConcat(fs, q, a[1..], b, ScanFile(fs, q, a[0], m));
    }
  }

  // ---- Facts about the reference lists ----

  lemma {:induction false} MatchingFilesMembers(fs: FileSystem, q: Query, files: seq<Path>, kw: string, f: Path)
    ensures f in MatchingFiles(fs, q, files, kw) <==> f in files && Hit(fs, q, f, kw)
  {
    if files != [] {
      MatchingFilesMembers(fs, q, files[1..], kw, f);
      assert files == [files[0]] + files[1..];
    }
  }

  lemma {:induction false} MatchingFilesCount(fs: FileSystem, q: Query, files: seq<Path>, kw: string, f: Path)
    ensures Count(MatchingFiles(fs, q, files, kw), f) == if Hit(fs, q, f, kw) then Count(files, f) else 0
  {
    if files != [] {
      MatchingFilesCount(fs, q, files[1..], kw, f);
      var head := if Hit(fs, q, files[0], kw) then [files[0]] else [];
      CountAppend(head, MatchingFiles(fs, q, files[1..], kw), f);
    }
  }

  lemma {:induction false} StutterMembers(xs: seq<Path>, c: nat, x: Path)
    ensures x in Stutter(xs, c) <==> c > 0 && x in xs
  {
    if xs != [] {
      StutterMembers(xs[1..], c, x);
      assert xs == [xs[0]] + xs[1..];
      RepeatMembers(xs[0], c, x);
    }
  }

  lemma {:induction false} StutterCount(xs: seq<Path>, c: nat, x: Path)
    ensures Count(Stutter(xs, c), x) == c * Count(xs, x)
  {
    if xs != [] {
      StutterCount(xs[1..], c, x);
      CountAppend(Repeat(xs[0], c), Stutter(xs[1..], c), x);
      CountRepeat(xs[0], c, x);
      var h, t := if xs[0] == x then 1 else 0, Count(xs[1..], x);
      assert Count(xs, x) == h + t;
      assert c * (h + t) == c * h + c * t;
    }
  }

  lemma {:induction false} StutterOnce(xs: seq<Path>)
    ensures Stutter(xs, 1) == xs
  {
    if xs != [] {
      StutterOnce(xs[1..]);
      assert Repeat(xs[0], 1) == [xs[0]];
      assert xs == [xs[0]] + xs[1..];
    }
  }

  lemma StutterNone(xs: seq<Path>)
    ensures Stutter(xs, 0) == []
  {
    if xs != [] {
      StutterNone(xs[1..]);
    }
  }

  // ---- What a scan records ----

  /** Completeness: path `f` is listed under `k` exactly when `k` is one of
      the keywords, `f` is one of the scanned files, and `f` is readable and
      matches `k`. */
  lemma SequentialScanComplete(fs: FileSystem, q: Query, files: seq<Path>, k: string, f: Path)
    ensures f in Get(SequentialScan(fs, q, files), k) <==> k in q.keywords && f in files && Hit(fs, q, f, k)
  {
    StutterMembers(MatchingFiles(fs, q, files, k), Count(q.keywords, k), f);
    MatchingFilesMembers(fs, q, files, k, f);
    CountPositiveIffIn(q.keywords, k);
  }

  /** Only keywords with at least one matching file get a key, and the list
      under each key is non-empty. */
  lemma SequentialScanKeys(fs: FileSystem, q: Query, files: seq<Path>, k: string)
    ensures k in SequentialScan(fs, q, files) <==> k in q.keywords && exists f :: f in files && Hit(fs, q, f, k)
    ensures k in SequentialScan(fs, q, files) ==> SequentialScan(fs, q, files)[k] != []
  {
    var r := SequentialScan(fs, q, files);
    if k in r {
      var f := Get(r, k)[0];
      SequentialScanComplete(fs, q, files, k, f);
    }
    if k in q.keywords && exists f :: f in files && Hit(fs, q, f, k) {
      var f :| f in files && Hit(fs, q, f, k);
      SequentialScanComplete(fs, q, files, k, f);
    }
  }

  /** Multiplicity: `f` is listed under `k` once per occurrence of `k` in
      the keyword list times once per occurrence of `f` in the file list,
      if it matches. */
  lemma SequentialScanMultiplicity(fs: FileSystem, q: Query, files: seq<Path>, k: string, f: Path)
    ensures Count(Get(SequentialScan(fs, q, files), k), f)
         == Count(q.keywords, k) * (if Hit(fs, q, f, k) then Count(files, f) else 0)
  {
    StutterCount(MatchingFiles(fs, q, files, k), Count(q.keywords, k), f);
    MatchingFilesCount(fs, q, files, k, f);
  }

  /** With distinct keywords and distinct files, no path is listed twice
      under one keyword. */
  lemma SequentialScanNoDuplicates(fs: FileSystem, q: Query, files: seq<Path>, k: string)
    requires Distinct(q.keywords) && Distinct(files)
    ensures Distinct(Get(SequentialScan(fs, q, files), k))
  {
    var l := Get(SequentialScan(fs, q, files), k);
    forall i | 0 <= i < |l| ensures Count(l, l[i]) == 1 {
      CountPositiveIffIn(l, l[i]);
      ListedOnce(fs, q, files, k, l[i]);
    }
  }

  /** A listed path is listed once when keywords and candidates are distinct. */
  lemma ListedOnce(fs: FileSystem, q: Query, files: seq<Path>, k: string, f: Path)
    requires Distinct(q.keywords) && Distinct(files)
    requires Count(Get(SequentialScan(fs, q, files), k), f) > 0
    ensures Count(Get(SequentialScan(fs, q, files), k), f) == 1
  {
    var l := Get(SequentialScan(fs, q, files), k);
    SequentialScanMultiplicity(fs, q, files, k, f);
    SequentialScanComplete(fs, q, files, k, f);
    CountPositiveIffIn(l, f);
    assert k in q.keywords && f in files && Hit(fs, q, f, k);
    var ik :| 0 <= ik < |q.keywords| && q.keywords[ik] == k;
    var jf :| 0 <= jf < |files| && files[jf] == f;
    assert Count(q.keywords, k) == 1;
    assert Count(files, f) == 1;
    assert Count(l, f) == 1 * 1;
  }

  /** Conversely, a keyword listed twice lists each matching file at least
      twice: distinct keywords are needed for the no-duplicates property. */
  lemma DuplicateKeywordRepeatsPath(fs: FileSystem, q: Query, files: seq<Path>, k: string, f: Path)
    requires Count(q.keywords, k) >= 2
    requires f in files && Hit(fs, q, f, k)
    ensures Count(Get(SequentialScan(fs, q, files), k), f) >= 2
  {
    SequentialScanMultiplicity(fs, q, files, k, f);
    CountPositiveIffIn(files, f);
  }

  /** With a keyword listed once, its list is exactly the matching readable
      files in scan order. */
  lemma SequentialScanSingleKeyword(fs: FileSystem, q: Query, files: seq<Path>, k: string)
    requires Count(q.keywords, k) == 1
    ensures Get(SequentialScan(fs, q, files), k) == MatchingFiles(fs, q, files, k)
  {
    StutterOnce(MatchingFiles(fs, q, files, k));
  }

  /** A keyword that is not in the list gets nothing. */
  lemma SequentialScanAbsentKeyword(fs: FileSystem, q: Query, files: seq<Path>, k: string)
    requires k !in q.keywords
    ensures k !in SequentialScan(fs, q, files)
  {
    CountPositiveIffIn(q.keywords, k);
    StutterNone(MatchingFiles(fs, q, files, k));
  }

  /** An unreadable file contributes nothing to any keyword. */
  lemma UnreadableFileIgnored(fs: FileSystem, q: Query, a: seq<Path>, p: Path, b: seq<Path>)
    requires ReadText(fs, p).None?
    ensures SequentialScan(fs, q, a + [p] + b) == SequentialScan(fs, q, a + b)
  {
    ScanFilesConcat(fs, q, a + [p], b, map[]);
    ScanFilesConcat(fs, q, a, [p], map[]);
    ScanFilesConcat(fs, q, a, b, map[]);
    assert ScanFiles(fs, q, [p], ScanFiles(fs, q, a, map[])) == ScanFiles(fs, q, a, map[]);
  }
}
