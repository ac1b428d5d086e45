# Parallel keyword scanner, modelled in Dafny

The modelled program searches a directory tree for keywords. It has two
near-identical entry points. `multiprocessing_search` starts one worker process
per chunk of files, and each worker sends back a private partial map.
`threaded_search` starts one thread per chunk, and all threads append into one
shared map under a lock. Both return `dict[keyword] -> list[path]`, where a
path is listed when the file's text contains the keyword as a substring.
Matching is optionally case-insensitive.

The model keeps the sequential pipeline under the concurrency and writes each
step as a pure function:

- `Setup`: the extension filter, the file collection loop, and the worker-count
  clamp.
- `Partition`: `_chunks`, the ceiling-size contiguous slicing.
- `Scanner`: the per-file scan (`_scan_file`, and the loop body of
  `_worker_process`) and the fold of it over a list of files.
- `Aggregation`: the merge of partial maps in receive order, and the receive
  order itself.
- `Multiprocessing` and `Threading`: the two search functions.
- `Keywords`: `load_keywords`.
- `Text` and `Base`: ASCII lower-casing, substring test, `strip`, and small
  sequence facts.

Both source files carry their own copies of `_chunks`, of the scan loop, of
the filter, of the clamp and of `load_keywords`. The copies of `_chunks`, of
the filter and of `load_keywords` are textually the same. The clamps differ
only in the fallback for `os.cpu_count()`, 2 for processes and 4 for threads,
which is the `default` parameter of `Setup.WorkerCount`. The scan bodies are
different texts, `_worker_process` looping over its files and skipping an
unreadable one with `continue`, `_scan_file` handling one file and returning
early, taking the lock around each append; both make the same update to the
map. Each is modelled once. A row below cites one copy, and its text names the
other copy's lines.

File contents are a map from path to `Option<string>`: `None`, or a path
missing from the map, is a file that cannot be read or decoded. The
enumerated files, the path suffix function and `os.cpu_count()` are
parameters.

The central theorem is partition invariance. The chunks concatenate back to
the file list (`Partition.Chunks`). Scanning distributes over concatenation
(`Scanner.ScanFilesConcat`, `Aggregation.MergeScans`). For processes, the
search equals one sequential scan of the collected files for every worker
count: exactly when the partial maps arrive in chunk order, and up to
reordering within each keyword's list for any other arrival order
(`Multiprocessing.MultiprocessingInChunkOrder`,
`Multiprocessing.MultiprocessingMatchesSequential`). For threads, the model
runs each thread on the batch it was started for, one thread after another.
That intended meaning equals the sequential scan
(`Threading.ThreadedMatchesSequential`). The code as written does not reach
it: its threads interleave their appends, and a thread can scan the wrong
batch and lose matches (see Findings).

Three behaviours of the code that are easy to miss:

- A file is appended once per occurrence of the keyword in the keyword list,
  so a repeated keyword lists its matching files repeatedly. See
  `Scanner.SequentialScanMultiplicity` and `Scanner.DuplicateKeywordRepeatsPath`.
- `_chunks` on an empty list with `n > 0` does not return an empty list. It
  raises `ValueError` (a zero `range` step), modelled as `Failure(ZeroStep)`.
  Both searches return `{}` before they call it.
- Only the file suffix is lower-cased. The entries of `allow_extensions` are
  compared as given, so an upper-case entry never matches
  (`Setup.UpperCaseEntryNeverMatches`).

## Model

| member | source | states |
|---|---|---|
| Text.Lower | search_multiprocessing.py:56-58 | `lower()` keeps the length, maps each ASCII upper-case letter to its lower-case letter (code point + 32), keeps every other character, and leaves no upper-case letter |
| Text.ContainsIffOccurs | search_multiprocessing.py:58-62 | the substring test `kw in content` holds iff `kw` occurs in `content` at some index |
| Text.ExactMatchSurvivesLowering | search_multiprocessing.py:55-63 | a file that matches case-sensitively also matches case-insensitively |
| Text.FirstCharAbsent | search_multiprocessing.py:62 | a keyword whose first character does not occur in the content is not a substring of it |
| Scanner.CaseToggleExample | search_multiprocessing.py:55-63 | `"Foo"` matches `"the foo bar"` when matching ignores case, and does not match otherwise |
| Text.LeadingSpaces | search_multiprocessing.py:160 | the characters `strip()` drops at the front are whitespace, and the first one it keeps is not |
| Text.TrimmedLength | search_multiprocessing.py:160 | the characters `strip()` drops at the back are whitespace, and the last one it keeps is not |
| Text.StripSpec | search_multiprocessing.py:160 | `strip()` is an infix of the line with only whitespace around it; it has no whitespace at either end; it is empty iff the line is all whitespace |
| Text.StripIdempotent | search_multiprocessing.py:160 | stripping a stripped line changes nothing |
| Keywords.Lines | search_multiprocessing.py:159-160 | iterating the file gives non-empty lines that concatenate back to the text, each ending in its only `\n` except possibly the last |
| Keywords.CleanLines | search_multiprocessing.py:160 | every kept element is non-empty and has no surrounding whitespace, and there are no more elements than lines |
| Keywords.LoadKeywords | search_multiprocessing.py:146-160 | every keyword is non-empty, has no surrounding whitespace and contains no newline (same code at search_threading.py:130-144) |
| Keywords.CleanLinesFromLines | search_multiprocessing.py:159-160 | a line with `\n` only at its end yields a keyword without `\n` |
| Keywords.CleanLinesAppend | search_multiprocessing.py:160 | cleaning distributes over concatenation of lines, so keywords keep the lines' order |
| Keywords.CleanLinesKeepsNonBlank | search_multiprocessing.py:160 | every non-blank line contributes its stripped form |
| Keywords.CleanLinesOnlyStripped | search_multiprocessing.py:160 | every keyword is the stripped form of some line |
| Keywords.CleanLinesLength | search_multiprocessing.py:160 | the number of keywords is the number of non-blank lines |
| Partition.CeilDiv | search_multiprocessing.py:73 | `(len + n - 1) // n` is the ceiling of len / n |
| Partition.Slices | search_multiprocessing.py:74 | the slices concatenate to the input from `start`; each has 1 to `size` elements; all but the last have exactly `size` |
| Partition.SlicesCount | search_multiprocessing.py:73-74 | when `k` full slices cover the input, there are at most `k` slices |
| Partition.Chunks | search_multiprocessing.py:69-74 | `n <= 0` gives `[seq]`; `n > 0` with empty input raises; otherwise the chunks concatenate to the input, there are at most `n`, each has 1 to ceil(len/n) elements, and all but the last are full (same code at search_threading.py:58-63) |
| Partition.Batches | search_multiprocessing.py:119-121 | skipping empty chunks keeps the concatenation and leaves only non-empty batches |
| Partition.BatchesOfNonEmpty | search_threading.py:109-111 | with no empty chunk, skipping empty chunks changes nothing |
| Partition.ChunksDispatched | search_threading.py:98-111 | for a non-empty file list and a positive count, chunking succeeds and the dispatched batches concatenate to the file list |
| Scanner.Append | search_multiprocessing.py:59 | `local[kw].append(p)` adds `kw` as a key and `p` at the end of its list, and leaves the other keys' lists unchanged |
| Scanner.RecordMatchesGet | search_multiprocessing.py:55-63 | the keyword loop appends the path under `k` once per occurrence of `k` in the keyword list when the content matches, and nothing otherwise |
| Scanner.RecordMatchesKeys | search_multiprocessing.py:55-63 | the keyword loop adds a key exactly for the listed keywords that match |
| Scanner.ScanFile | search_threading.py:33-55 | an unreadable file leaves the map unchanged; a non-matching keyword's list is unchanged; a matching keyword gets the path once per occurrence in the list; keys are added exactly for matching listed keywords; the case-insensitive mode compares lower-cased forms but records the original keyword |
| Scanner.ScanFilesGet | search_multiprocessing.py:50-63 | the scan loop appends under each keyword exactly its reference list: the matching readable files, in order, each once per occurrence of the keyword in the list |
| Scanner.ScanFilesKeys | search_multiprocessing.py:48-63 | the scan loop adds a key exactly for keywords with a non-empty reference list |
| Scanner.SequentialScan | search_multiprocessing.py:48-66 | the partial map of a chunk has, under each keyword, its reference list, and keys exactly where that list is non-empty |
| Scanner.ScanFilesConcat | search_threading.py:109-115 | scanning `a + b` from a map is scanning `a` and then `b` |
| Scanner.SequentialScanComplete | search_multiprocessing.py:50-63 | a path is listed under `k` iff `k` is a keyword and the path is a scanned, readable file that matches `k` |
| Scanner.SequentialScanKeys | search_multiprocessing.py:48-66 | a key is present iff it is a keyword that some scanned file matches, and its list is then non-empty |
| Scanner.SequentialScanMultiplicity | search_multiprocessing.py:57-63 | a path occurs under `k` as often as `k` occurs in the keyword list times the path occurs in the file list, when it matches, and otherwise never |
| Scanner.SequentialScanNoDuplicates | search_multiprocessing.py:57-63 | with distinct keywords and distinct files, no path occurs twice under a keyword |
| Scanner.DuplicateKeywordRepeatsPath | search_multiprocessing.py:57-63 | a keyword listed twice lists each matching file at least twice |
| Scanner.SequentialScanSingleKeyword | search_multiprocessing.py:57-63 | for a keyword listed once, its list is exactly the matching readable files in scan order |
| Scanner.SequentialScanAbsentKeyword | search_multiprocessing.py:57-63 | a string that is not a keyword gets no key |
| Scanner.UnreadableFileIgnored | search_multiprocessing.py:51-53 | inserting an unreadable file anywhere in the file list does not change the scan |
| Aggregation.ExtendAllGet | search_multiprocessing.py:131-135 | the `items()` loop, visiting distinct keys of the partial map, appends the partial's list to exactly the visited keys, starting from `[]` for a new key, and adds exactly those keys |
| Aggregation.ExtendAllIsMerge | search_multiprocessing.py:134-135 | whatever order `items()` visits the partial's keys in, the loop gives the same map, which is `Merge` |
| Aggregation.AggregateCollects | search_multiprocessing.py:131-135 | the aggregated list for `k` is the concatenation of the partial lists for `k` in receive order |
| Aggregation.AggregateKeys | search_multiprocessing.py:131-135 | a key is aggregated iff it is a key of some partial map, so none is dropped |
| Aggregation.AggregateLengths | search_multiprocessing.py:131-135 | the aggregated list length for `k` is the sum of the partial lists' lengths |
| Aggregation.ArrivePermutes | search_multiprocessing.py:132-133 | whatever the scheduler chooses, the partial maps are received once each: a permutation of those sent |
| Aggregation.ArriveInChunkOrder | search_multiprocessing.py:132-133 | with no scheduler choice the maps arrive in chunk order |
| Aggregation.CollectPermutation | search_multiprocessing.py:132-135 | receiving a permutation of the partial maps collects a permutation of each keyword's paths |
| Aggregation.AggregateOrderIndependent | search_multiprocessing.py:132-135 | two receive orders of the same partial maps agree on whether `k` is a key, and give `k` the same paths up to reordering |
| Aggregation.ScanFilesFromMerge | search_multiprocessing.py:48-63 | scanning into an existing map equals merging a fresh private scan into it |
| Aggregation.MergeScans | search_multiprocessing.py:131-135 | merging the scans of two file lists equals the scan of their concatenation |
| Setup.CollectFilesMembers | search_multiprocessing.py:100-107 | a file is collected iff it is enumerated and passes the extension filter (same code at search_threading.py:89-96) |
| Setup.CollectFilesAppend | search_multiprocessing.py:101-107 | collection keeps the enumeration order |
| Setup.CollectFilesUnfiltered | search_multiprocessing.py:103-107 | an absent or empty filter collects every enumerated file |
| Setup.ExtensionFilterSound | search_multiprocessing.py:103-105 | with a non-empty filter, every collected file's lower-cased suffix is an entry of the filter |
| Setup.UpperCaseEntryNeverMatches | search_multiprocessing.py:104 | the filter entries are not lower-cased, so a filter whose one entry has an upper-case letter rejects every path |
| Setup.WorkerCount | search_multiprocessing.py:113-114 | the count is at least 1, at most the number of files, and at most the CPU hint when that is positive. When both are at least 1 it is one of them, hence their minimum; otherwise it is 1. The default hint is 2 here and 4 at search_threading.py:102-103 |
| Setup.WorkerCountMaximal | search_multiprocessing.py:113-114 | no count between 1 and both bounds exceeds the chosen count |
| Multiprocessing.MultiprocessingSearch | search_multiprocessing.py:96-143 | the search never raises, and returns `{}` when no file is collected |
| Multiprocessing.AggregatePartials | search_multiprocessing.py:119-135 | merging the workers' partial maps in chunk order equals one scan of all the batches' files |
| Multiprocessing.SearchAggregatesSent | search_multiprocessing.py:109-135 | for a non-empty file list the result merges the workers' partial maps in delivery order, and those maps in chunk order make up one sequential scan of the collected files |
| Multiprocessing.MultiprocessingInChunkOrder | search_multiprocessing.py:109-143 | when the partial maps arrive in chunk order, the result equals one sequential scan of the collected files, for every CPU count |
| Multiprocessing.MultiprocessingMatchesSequential | search_multiprocessing.py:109-143 | for every CPU count and every arrival order, `k` is a key of the result iff it is one of a sequential scan of the collected files, with the same paths up to reordering |
| Multiprocessing.MultiprocessingNoDuplicates | search_multiprocessing.py:119-135 | with distinct keywords and distinct files, no path occurs twice under a keyword, for every worker count and arrival order |
| Threading.ScanBatchesFlatten | search_threading.py:109-122 | folding the scan over the batches, then over each batch's files, equals one fold over all files |
| Threading.ThreadedSearch | search_threading.py:85-127 | the search never raises, and returns `{}` when no file is collected |
| Threading.ThreadedMatchesSequential | search_threading.py:98-127 | for every CPU count the result equals one sequential scan of the collected files |
| Threading.ThreadCountIrrelevant | search_threading.py:102-103 | two CPU counts give the same result |
| Threading.ScanBatchesAsWritten | search_threading.py:109-119 | with late binding, thread `t` scans batch `bound[t]`; when every thread gets its own batch this equals the intended fold |
| Threading.BothThreadsReadSecond | search_threading.py:109-115 | when both threads of two batches bind the second batch, the result is the scan of the second batch twice |
| Threading.FirstBatchLost | search_threading.py:109-115 | then a match in the first batch's file, present in the intended result, is missing from the as-written result |
| Threading.LateBindingCounterexample | search_threading.py:113-115 | two threads that both read the second batch lose the first file's match |

## Findings

| source | as written | input that shows it | evidently intended | confidence | as-written member | corrected member |
|---|---|---|---|---|---|---|
| search_threading.py:113-115 | the thread's lambda reads the loop variable `batch` when the thread runs, not when it is created | two batches `["a"]`, `["b"]`, with the first thread running only after the loop has moved on to the second batch: `"a"` is never scanned, `"b"` is scanned twice, and the match of `"x"` in `"a"` is lost | each thread scans the batch it was created for, for example by binding it as a default argument | not executed; it needs a thread scheduling that CPython's GIL makes rare | Threading.LateBindingCounterexample | Threading.ThreadedMatchesSequential |

## Left out

- File system access is not modelled: `rglob`, `is_file`, `read_text` with UTF-8 decoding, and `open`. The enumerated regular files are a parameter, and file contents are a map from path to `Option<string>`.
- `Path.suffix` is not modelled; it is a parameter function of the path. `str(path)` is the identity, since a path is a string here.
- `os.cpu_count()` is not modelled; it is a parameter.
- Processes, threads, the queue, the lock, `join` and daemon flags are not modelled; each search is modelled as its sequential fold. A crashed worker, which would block the parent forever, is not modelled.
- Multiprocessing.MultiprocessingSearch: the queue's delivery order is the `choices` parameter of `Aggregation.Arrive`, which picks one pending worker per `get()`. A result is only claimed up to reordering within each keyword's list.
- Threading.ThreadedSearch: runs the thread bodies one after another in chunk order. Real threads interleave their appends, so each real list is an interleaving of the per-chunk lists. The late binding of `batch` is covered only under Findings.
- `str.lower` and `str.strip` are not modelled beyond ASCII. Lower-casing maps `A`-`Z` only, and whitespace is the ASCII set of `str.isspace`.
- Newline translation is not modelled. `load_keywords` takes the decoded text after universal-newline translation, so lines end at `\n` only.
- Dict insertion order is not modelled: results are maps without key order.
- `allow_extensions` is modelled as an optional set, which covers set, list and tuple arguments: their truthiness and their `in` agree with the set of their elements.
- `allow_extensions` given as a `str` is not modelled: `in` is then a substring test, so `".txt"` would also admit the suffixes `""`, `".t"` and `".tx"`.
- `allow_extensions` given as an iterator is not modelled: it is truthy even when empty, and each `in` consumes it, so later files are tested against what remains.
- Timing, the report and warning prints, and the `__main__` blocks are not modelled, because they are side effects only.
