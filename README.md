# Niconico comment conversion, modelled in Dafny

This project models the core of `yt-dlpjson2nicojson.py`. The script takes
the flat list of comment records that the video downloader writes and turns
it into the nested document the Niconico comment viewer reads. The core has
two parts:

- **`get_fork`** classifies a comment by its `commands` list. An empty or
  absent list means an `owner` comment. Otherwise, a list holding the
  anonymity command `"184"` means a `main` comment. Every other comment is
  an `easy` comment. Modelled in `comments.dfy` as `Comments.GetFork`, over
  the `Fork` datatype. `Fork.Name()` gives the tag written to the output.
- **`convert_comments`** builds the document in four steps:
  1. It stably sorts the comments by fork (`sorted(..., key=get_fork)`),
     modelled in `sort.dfy`.
  2. It splits the sorted list into runs of equal fork
     (`itertools.groupby`), modelled in `groupby.dfy`.
  3. A loop turns each run into a thread carrying the comments, their
     count, the fork tag and the fixed thread id.
  4. It counts the `main` comments of the input for the single
     `globalComments` entry and sets `meta.status` to 200.

  Modelled in `convert.dfy`. The loop is the method `BuildThreads`.
  `ConvertComments` is the conversion step by step, proved equal to the
  specification function `Regroup`.

Sorting and grouping take the key function as a parameter, as Python
does, so they are stated for any fork-valued key.

Each step is proved against an independent reference:

- The insertion sort `StableSort` is characterised as sorted, order-keeping
  within each fork, and a permutation. It is proved equal to `ByFork`, the
  easy, main and owner comments concatenated. A sequence with those
  properties is unique, so Python's Timsort produces the same sequence.
- `GroupBy` is proved to split a sequence into maximal runs. On the sorted
  input it gives `ForkGroups`: one group per fork present, in tag order.
- The document itself is described by lemmas:
  - each thread holds exactly the input comments of its fork;
  - threads are strictly ordered by tag;
  - a fork has a thread exactly when some comment has that fork;
  - every comment is in exactly one thread;
  - the global count equals the main thread's count, or 0 when there is no
    main thread.

Tags are ordered as Python orders `str` values. `Comments.StrLess` models
that order, and `RankFollowsNameOrder` proves that comparing the numeric
`Rank()` of two forks is the same as comparing their tags.

## Model

| member | source | states |
|---|---|---|
| Comments.GetForkCases | yt-dlpjson2nicojson.py:14-23 | `GetFork(c)` is `Owner` iff the command list `Commands(c)` is empty, `Main` iff the list is non-empty and contains "184", and `Easy` iff it is non-empty without "184"; the three cases are exclusive and exhaustive |
| Comments.MissingCommandsIsOwner | yt-dlpjson2nicojson.py:16-19 | A record with no `commands` field reads as an empty list, and `GetFork` classifies it `Owner` |
| Comments.ForkTags | yt-dlpjson2nicojson.py:18-23 | The tag `GetFork(c).Name()` is always one of "owner", "main", "easy", and distinct forks have distinct tags |
| Comments.RankFollowsNameOrder | yt-dlpjson2nicojson.py:33 | Comparing forks by rank is the same as comparing their tags with Python's string `<`, and equal ranks mean the same fork, so sorting by rank is sorting by `get_fork` |
| ForkSort.Filter | yt-dlpjson2nicojson.py:49 | `Filter` (the comprehension over `comments`) keeps only elements of the requested fork and never more elements than the input has |
| ForkSort.FilterMembership | yt-dlpjson2nicojson.py:49 | An element is kept by the filter for fork k exactly when it is in the input and its fork is k |
| ForkSort.Insert | yt-dlpjson2nicojson.py:33 | One insertion step of the sort adds exactly one element, which lands at the front or behind the old first element |
| ForkSort.InsertSorted | yt-dlpjson2nicojson.py:33 | Inserting into a sorted sequence keeps it sorted by fork and adds exactly the inserted element to its multiset |
| ForkSort.InsertFilter | yt-dlpjson2nicojson.py:33 | An inserted element goes in front of the elements of its own fork and leaves the order of every fork untouched, which is what makes the sort stable |
| ForkSort.StableSort | yt-dlpjson2nicojson.py:33 | The sorted list has as many elements as the input |
| ForkSort.StableSortSpec | yt-dlpjson2nicojson.py:33 | `StableSort` (`sorted(comments, key=get_fork)`) is sorted by fork, keeps each fork's comments in input order (stability), and is a permutation of the input |
| ForkSort.SortedIsByFork | yt-dlpjson2nicojson.py:33 | Any sequence sorted by fork is its easy, main and owner elements concatenated in that order |
| ForkSort.StableSortIsByFork | yt-dlpjson2nicojson.py:33 | The stable sort equals the per-fork concatenation: easy comments, then main, then owner, each in input order |
| ForkSort.StableSortUnique | yt-dlpjson2nicojson.py:33 | Any sequence that is sorted by fork and keeps each fork's input order is the stable sort, so the algorithm behind `sorted` does not change the result |
| ForkSort.ByForkIsPermutation | yt-dlpjson2nicojson.py:33 | The per-fork concatenation neither loses nor duplicates a comment |
| Grouping.GroupByHead | yt-dlpjson2nicojson.py:34 | The first group of `GroupBy` (`groupby`) carries the key of the first element |
| Grouping.GroupByRuns | yt-dlpjson2nicojson.py:34 | The groups of `GroupBy` (`groupby`) together are the input in order, each is a non-empty run of one key, and neighbouring groups have different keys, so every run is maximal |
| Grouping.GroupByLeadingRun | yt-dlpjson2nicojson.py:34 | In `GroupBy`, a leading run of one key that the rest does not continue becomes exactly one group, followed by the groups of the rest |
| Grouping.GroupBySortedIsForkGroups | yt-dlpjson2nicojson.py:33-34 | `GroupBy` applied to `StableSort` of the comments gives one group per fork present, in tag order, each holding that fork's comments in input order |
| Grouping.ForkGroupsMembers | yt-dlpjson2nicojson.py:33-34 | Every group holds exactly the input elements of its fork and is non-empty |
| Grouping.ForkGroupsOrder | yt-dlpjson2nicojson.py:33-34 | Group forks strictly increase, so no fork yields two groups and there are at most three |
| Grouping.ForkGroupsPresence | yt-dlpjson2nicojson.py:33-34 | A fork has a group exactly when some element has that fork |
| Grouping.ForkGroupsConcat | yt-dlpjson2nicojson.py:33-34 | The groups' members read in order are the per-fork concatenation |
| Convert.BuildThreads | yt-dlpjson2nicojson.py:37-46 | The loop appends one thread per group, in group order, with the group's comments, their count, the group's fork and the thread id |
| Convert.ConvertComments | yt-dlpjson2nicojson.py:26-68 | The step-by-step conversion (sort, group, build threads, count main comments, assemble) returns exactly the document `Regroup` specifies |
| Convert.AllCommentsOfThreads | yt-dlpjson2nicojson.py:37-46 | The threads' comments read in order are the groups' members read in order |
| Convert.RegroupIsForkThreads | yt-dlpjson2nicojson.py:33-46 | The threads of the document are one thread per fork present in the input, in tag order |
| Convert.RegroupThreadContents | yt-dlpjson2nicojson.py:38-46 | Each thread holds exactly the input comments of its fork in input order; it is non-empty, its `commentCount` is its length, its id is the thread id, and every comment in it has the thread's fork |
| Convert.RegroupThreadOrder | yt-dlpjson2nicojson.py:33-38 | Threads are strictly ordered by fork, both by rank and by tag string, so there are at most three; an empty input yields no thread |
| Convert.RegroupForkPresence | yt-dlpjson2nicojson.py:33-46 | A fork has a thread exactly when some input comment has that fork |
| Convert.RegroupConcatenation | yt-dlpjson2nicojson.py:33-46 | The threads' comments read in order are the stable sort of the input, hence a permutation of it |
| Convert.RegroupPartition | yt-dlpjson2nicojson.py:33-46 | Every input comment appears in some thread, and a comment never appears in two different threads |
| Convert.RegroupGlobalComments | yt-dlpjson2nicojson.py:48-66 | `meta.status` is 200; `globalComments` has one entry with the thread id and the number of main comments, which equals the main thread's `commentCount` when there is one and is 0 otherwise |
| Convert.RegroupEmpty | yt-dlpjson2nicojson.py:26-68 | An empty comment list converts to a document with no threads and a global count of 0 |
| Convert.SingleForkInput | yt-dlpjson2nicojson.py:26-68 | When all comments share one fork, the document has a single thread holding all of them in input order, and the global count is their number if the fork is main and 0 otherwise |

## Left out

- `main()` (lines 71-102) is not modelled. It reads the command line, checks that the input file exists, reads and writes JSON files, prints messages and exits with a status code. All of that is I/O.
- JSON is not modelled as a value. A comment is its optional `commands` list plus an opaque payload standing for every other field, which the conversion passes through unchanged. Key order and the output formatting (`indent=4`, `ensure_ascii=False`) are serialisation details.
- Malformed input is not modelled. That covers a top-level value that is not a list, records that are not objects, and a `commands` value that is not a list of strings. In Python, `commands: null` makes `len` raise, and a string value makes `"184" in` test for a substring. Only an absent `commands` field reads as an empty list.
- The thread id is the fixed constant `Convert.ThreadId`, as in the code. `BuildThreads` takes it as a parameter.
- A fork is the datatype `Comments.Fork` rather than a string; `Fork.Name()` is the string that the code uses both as the sort key and as the `fork` value.
- `sorted` is Timsort in Python. The model uses an insertion sort. `ForkSort.StableSortUnique` shows that every stable sort by fork gives the same sequence.
- `groupby` yields lazily, and each group's iterator is consumed by `list(group_comments)` before the next group is requested. The model builds the groups eagerly. The result is the same.
- Comment identity: Python threads share the input's dict objects, while the model copies values. Nothing in the conversion mutates a comment, so this cannot be observed.
