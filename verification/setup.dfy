/** What both searches do before scanning: collecting the files that pass
    the extension filter and choosing the number of workers. */
module Setup {
  import opened Base
  import opened Text
  import opened Scanner

  /** `allow_extensions` passes a file when it is absent or empty, or when
      the lower-cased suffix of the path is one of its entries. The entries
      themselves are compared as given. */
  predicate Allowed(p: Path, suffix: Path -> string, allow: Option<set<string>>)
  {
    match allow
    case None => true
    case Some(exts) => exts == {} || Lower(suffix(p)) in exts
  }

  /** The filter as a test on paths. */
  function AllowedBy(suffix: Path -> string, allow: Option<set<string>>): Path -> bool
  {
    p => Allowed(p, suffix, allow)
  }

  /** The collection loop over the enumerated regular files, in enumeration
      order. */
  function CollectFiles(candidates: seq<Path>, suffix: Path -> string, allow: Option<set<string>>): (files: seq<Path>)
    ensures |files| <= |candidates|
  {
    Filter(candidates, AllowedBy(suffix, allow))
  }

  /** A file is collected exactly when it is enumerated and passes the
      filter. */
  lemma CollectFilesMembers(candidates: seq<Path>, suffix: Path -> string, allow: Option<set<string>>, p: Path)
    ensures p in CollectFiles(candidates, suffix, allow) <==> p in candidates && Allowed(p, suffix, allow)
  {
    FilterMembers(candidates, AllowedBy(suffix, allow), p);
  }

  /** Filtering keeps the enumeration order: it distributes over
      concatenation. */
  lemma CollectFilesAppend(a: seq<Path>, b: seq<Path>, suffix: Path -> string, allow: Option<set<string>>)
    ensures CollectFiles(a + b, suffix, allow) == CollectFiles(a, suffix, allow) + CollectFiles(b, suffix, allow)
  {
    FilterAppend(a, b, AllowedBy(suffix, allow));
  }

  /** An absent or empty filter keeps every file. */
  lemma CollectFilesUnfiltered(candidates: seq<Path>, suffix: Path -> string, allow: Option<set<string>>)
    requires allow == None || allow == Some({})
    ensures CollectFiles(candidates, suffix, allow) == candidates
  {
    FilterAll(candidates, AllowedBy(suffix, allow));
  }

  /** With a non-empty filter every collected file has an allowed suffix. */
  lemma ExtensionFilterSound(candidates: seq<Path>, suffix: Path -> string, exts: set<string>, p: Path)
    requires exts != {}
    requires p in CollectFiles(candidates, suffix, Some(exts))
    ensures Lower(suffix(p)) in exts
  {
    CollectFilesMembers(candidates, suffix, Some(exts), p);
  }

  /** An entry of the filter with an upper-case letter never matches, since
      only the suffix is lower-cased: a filter made of that entry alone
      rejects every path. */
  lemma UpperCaseEntryNeverMatches(suffix: Path -> string, e: string, i: int, p: Path)
    requires 0 <= i < |e| && IsUpper(e[i])
    ensures !Allowed(p, suffix, Some({e}))
  {
    var l := Lower(suffix(p));
    if |l| == |e| {
      assert !IsUpper(l[i]);
    }
  }

  /** `os.cpu_count() or default`: an unknown count (`None`) and 0 are falsy. */
  function CpuHint(cpu: Option<int>, default: int): int
  {
    match cpu
    case None => default
    case Some(c) => if c == 0 then default else c
  }

  /** `max(1, min(len(files), cpu_count() or default))`. */
  function WorkerCount(fileCount: nat, cpu: Option<int>, default: int): (r: int)
    ensures 1 <= r
    ensures fileCount >= 1 ==> r <= fileCount
    ensures CpuHint(cpu, default) >= 1 ==> r <= CpuHint(cpu, default)
    ensures fileCount >= 1 && CpuHint(cpu, default) >= 1 ==> r == fileCount || r == CpuHint(cpu, default)
    ensures fileCount < 1 || CpuHint(cpu, default) < 1 ==> r == 1
  {
    var hint := CpuHint(cpu, default);
    var m := if fileCount < hint then fileCount else hint;
    if m < 1 then 1 else m
  }

  /** No count allowed by both bounds exceeds the chosen one: the clamp picks
      the largest admissible count. A corollary of the ensures of
      `WorkerCount`, stated for every candidate count. */
  lemma WorkerCountMaximal(fileCount: nat, cpu: Option<int>, default: int, x: int)
    requires 1 <= x <= fileCount && x <= CpuHint(cpu, default)
    ensures x <= WorkerCount(fileCount, cpu, default)
  {
  }
}
