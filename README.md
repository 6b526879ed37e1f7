# what.c: a verified model of the breadth-first directory tree printer

`what.c` prints a directory tree level by level. It prints the root path,
then for each level of the tree it submits one `openat` per directory of
the level to an io_uring, consumes exactly as many completions in whatever
order the ring delivers them, reads each opened directory once with
`getdents64`, prints one line per entry other than `.` and `..`, and
queues the subdirectories as the next level. The loop ends when a level
queues nothing.

The model has five modules:

- `Printer` (`printer.dfy`): `point_entry` as the function `PointEntry`,
  with a parser `ParseEntry` that reads a line back.
- `Dirent` (`dirent.dfy`): the getdents64 buffer as a sequence of records
  `(d_reclen, d_name, d_type)` that fills exactly `nread` bytes. The two
  `while (offset < nread)` passes are the methods `CountPass` and
  `EmitPass`. They are proved against the specification functions
  `Entries`, `Render` and `Children`. `ChildPath` is the `snprintf` of a
  child path, with its truncation to `MAX_PATH - 1` characters.
- `Level` (`level.dfy`): one pass of `while (queue)`. `SubmitLevel` is the
  submission loop with its `submitted` counter. `Consume` handles one
  completion. `RunLevel` consumes exactly `submitted` completions, picking
  the next one nondeterministically among those still outstanding. The
  order in which the completions were consumed is returned as `arrival`.
  The next level is built by appending at its tail, as `next_tail` does.
- `Orchestrator` (`orchestrator.dfy`): the program after argument handling
  and ring set-up. `Run` prints the root and runs one pass per level. It is proved against `AfterLevels`,
  the state after a given list of per-level completion orders (a
  "schedule"). The lemmas about whole runs cover:
  - breadth-first order;
  - closing every opened directory exactly once;
  - balance of submissions and completions;
  - the order of depths in the output;
  - termination;
  - the number of levels and the printed lines, up to order, do not depend
    on the completion order. The order of the lines does: each directory's
    block of lines is printed when its completion is consumed.
- `Seqs` (`seqs.dfy`): `Filter` and `FlatMap` on sequences, and their
  lemmas.

The file system is a map from the paths that open successfully to what
their single `getdents64` call returns. A path outside the map fails to
open (`cqe->res < 0`). The I/O the loop performs is recorded as a trace of
events:

- `Submit(d)`: an open is submitted;
- `Reap(d, ok)`: a completion is consumed, and `ok` says whether the open
  succeeded;
- `Close(d)`: an opened directory is closed.

## Model

| member | source | states |
|---|---|---|
| `Printer.PointEntry` | what.c:27-32 | The line has `level` indentation units `│   `, then the glyph `Glyph(isLast)` (`└` if `isLast`, `├` otherwise), then the stem `── `, the name and a newline, and nothing else. |
| `Printer.Indent` | what.c:28-30 | Exactly `4 * level` characters, each the matching character of the unit `│   `. |
| `Printer.EntryRoundTrip` | what.c:27-32 | Reading a printed line back gives exactly the name, level and last flag it was printed with. |
| `Printer.ParsedLineIsPrinted` | what.c:27-32 | Every line that reads back as an entry is the line `point_entry` prints for that entry. |
| `Printer.PointEntryInjective` | what.c:27-32 | Distinct (name, level, last) triples print distinct lines. |
| `Dirent.ChildPath` | what.c:113 | The child path is `parent/name` when that fits in `MAX_PATH - 1` characters. Otherwise it is the first `MAX_PATH - 1` characters of `parent/name`. |
| `Dirent.ChildPathExtends` | what.c:113 | For a parent shorter than `MAX_PATH - 1` characters, the child path starts with the parent and a `/`, and is strictly longer than the parent. |
| `Dirent.ChildOfFullPathIsParent` | what.c:113 | For a parent of exactly `MAX_PATH - 1` characters, truncation makes every child's path equal to the parent's path. |
| `Dirent.CountPass` | what.c:90-100 | Walking the buffer by each record's `d_reclen` until `offset >= nread` terminates, given positive record lengths. It counts exactly the records named neither `.` nor `..`. |
| `Dirent.EmitPass` | what.c:103-124 | The second walk prints, in buffer order, one line per counted record at depth `level + 1`, with the last glyph on the line of index `count - 1`. It appends, in the same order, one child per such record of type `DT_DIR`. |
| `Dirent.EmitStep` | what.c:105-124 | One step of the second walk adds exactly one line for a counted record, one child for a counted directory, and nothing for `.` or `..`. |
| `Dirent.SpanBefore` | what.c:94-105 | In a well-laid buffer every record starts before `nread`. So the walk reaches every record before it stops. |
| `Dirent.ListingLines` | what.c:92-124 | A directory with N entries other than `.` and `..` gets exactly N lines, in buffer order, each at depth `level + 1`. Exactly the entry at index N - 1 is marked last. |
| `Dirent.NoSubdirsNoChildren` | what.c:108-120 | A listing whose entries other than `.` and `..` include no `DT_DIR` queues no child. |
| `Dirent.ListingChildren` | what.c:108-120 | The queued children are exactly the entries of type `DT_DIR` other than `.` and `..`, in buffer order. Each is at depth `level + 1` with path `ChildPath(path, name)`. |
| `Dirent.ChildrenDeeper` | what.c:113-114 | Every child is one level deeper than its parent. Below the path bound, every child has a longer path than its parent. |
| `Dirent.EntriesInBufferOrder` | what.c:94-124 | The entries of two runs of records laid back to back are those of the first run followed by those of the second. |
| `Level.SubmitLevel` | what.c:57-72 | One open request per queued node, in queue order. `submitted` equals the number of nodes. |
| `Level.Consume` | what.c:79-130 | A failed open contributes nothing and is not closed. A successful open is decoded if its read returned bytes, and is then closed once. |
| `Level.RunLevel` | what.c:51-131 | Exactly `submitted` completions are consumed, as a permutation of the submitted requests. The lines and the next level are those of the listings in completion order, with children appended at the tail. All submissions come before all completions. |
| `Level.DrainAppend` | what.c:118-119 | Completions consumed earlier contribute their lines and children before those consumed later. |
| `Level.FailedDirectoryAddsNothing` | what.c:81-127 | A directory that fails to open, or whose read returns no bytes, prints nothing, queues nothing and leaves its siblings' output unchanged. A failed open produces no close. |
| `Level.DrainChildren` | what.c:108-119 | Every queued child comes from a consumed completion one level up. When that parent's path is shorter than `MAX_PATH - 1`, the child's path is longer than the parent's. When no directory at the bound lists a subdirectory, every such parent is below the bound. |
| `Level.DrainLineLevels` | what.c:109 | Every line printed while consuming depth-k completions is an entry line at depth k + 1. |
| `Level.DrainPermutation` | what.c:75-77 | Consuming the same completions in another order prints the same lines and queues the same children, up to order. |
| `Level.SubmitsData` | what.c:59-70 | The submission events of a level carry exactly its requests, in order, and are not completions. |
| `Level.ReapsData` | what.c:75-131 | The completion events of a level carry exactly the consumed requests, in completion order, and are not submissions. |
| `Orchestrator.Run` | what.c:43-141 | The loop runs a possible schedule to the end, with an empty queue and the output and events that schedule gives. The output starts with the root line. It terminates whenever no directory whose path fills `MAX_PATH - 1` characters lists a subdirectory. |
| `Orchestrator.ExtendRun` | what.c:51-141 | One pass of the loop extends a possible run by one level. |
| `Orchestrator.AfterLevelsSnoc` | what.c:51-141 | Running one more level is one step from the state after the previous levels. That step is possible exactly when the previous state admits it. |
| `Orchestrator.ArrivalFromQueue` | what.c:64-79 | Every consumed completion is the request of some queued node, with that node's path and depth. |
| `Orchestrator.StepDepth` | what.c:113-140 | A pass over a depth-k level queues a depth-k+1 level. When no directory at the path bound lists a subdirectory, paths of at least k characters give paths of at least k + 1 characters, and a non-empty next level has k + 1 <= `MAX_PATH - 1`. |
| `Orchestrator.StepRanks` | what.c:59-77 | The submissions of a depth-k pass are all at depth k, and so are its completions and closes. |
| `Orchestrator.StepInRankOrder` | what.c:51-141 | A pass keeps the event trace in breadth-first order. |
| `Orchestrator.StepPaired` | what.c:81-127 | A pass keeps every close directly after the consumed completion of its successful open. |
| `Orchestrator.StepBalanced` | what.c:58-75 | A pass keeps the consumed completions equal to the submitted requests, as multisets. |
| `Orchestrator.StepOutput` | what.c:109-140 | A pass over a depth-k level keeps the root line first, and every line it appends is an entry line at depth k + 1. Output ordered by depth up to k stays ordered up to k + 1. |
| `Orchestrator.StepPermutation` | what.c:75-119 | Two passes over a permuted level, with permuted completions, give permuted outputs and permuted next levels. |
| `Orchestrator.QueueDepth` | what.c:113-140 | After n levels the queue holds only depth-n nodes. When no directory at the path bound lists a subdirectory, each has a path of at least n characters, so the queue is non-empty only while n < `MAX_PATH`. |
| `Orchestrator.ScheduleBounded` | what.c:113-140 | When no directory at the path bound lists a subdirectory, no possible run has more than `MAX_PATH` levels, so the loop terminates. |
| `Orchestrator.TruncatedChildRequeued` | what.c:113-119 | A directory whose path fills `MAX_PATH - 1` characters and lists one subdirectory queues itself again, one level deeper. |
| `Orchestrator.RunsForeverAtBound` | what.c:51-141 | For such a root, after every possible run of n levels the queue is the root again at depth n, one more level is always possible, and the run is never finished. |
| `Orchestrator.RankOrderIsBreadthFirst` | what.c:58-75 | In a trace ordered by (level, phase), every completion precedes only submissions of deeper levels. Every submission precedes only completions of its own or deeper levels. |
| `Orchestrator.BreadthFirst` | what.c:51-141 | In every possible run, every open of a level is submitted before any of its completions is consumed. No open of level k + 1 is submitted before every completion of level k has been consumed. |
| `Orchestrator.ClosedOnce` | what.c:81-127 | Every successfully opened directory is closed exactly once, right after its completion. Every close follows such a completion. |
| `Orchestrator.RequestsBalanced` | what.c:58-75 | Over every possible run, the consumed completions are exactly the submitted requests, as multisets. |
| `Orchestrator.OutputInLevelOrder` | what.c:49-141 | The output starts with the root line. Every later line is an entry line at a depth between 1 and the number of levels run, and depths never decrease down the output. |
| `Orchestrator.LevelsAgree` | what.c:75-140 | Two runs with different completion orders have, after the same number of levels, the same queue and the same output, up to order. |
| `Orchestrator.StillRunning` | what.c:51 | A run is still going whenever another possible run has more levels. |
| `Orchestrator.RunsAgree` | what.c:51-141 | Any two finished runs take the same number of levels and print the same lines, up to order. |

## Left out

- The liburing calls (`io_uring_queue_init`, `get_sqe`, `prep_openat`, `submit`, `wait_cqe`, `cqe_seen`, `queue_exit`) are foreign I/O. They are replaced as follows:
  - a submitted batch is a sequence of request contexts;
  - the order of completions is an arbitrary permutation, chosen one completion at a time;
  - the `io_data` context travels with each completion.
- The `openat`, `getdents64` and `close` syscalls are abstracted as the file-system map and the `Close` event. An open fails exactly when the path is not in the map. No file descriptors are modelled.
- `malloc` and `free` of queue nodes and request contexts are not modelled. The queues are sequences.
- The program does no chunking and does not check the result of `io_uring_get_sqe`. A level wider than `QUEUE_DEPTH` (256) directories would therefore use a null submission entry. The model puts no bound on level width and has no chunking.
- The unbounded `strcpy` of the root into a 4096-byte buffer is a C memory-safety defect. The model keeps the root path whole.
- Only the single `getdents64` call into an 8192-byte buffer is modelled, given as its result. Listings that need more reads are truncated by the program, and the map simply holds what the one read returns.
- The `is_last` field of queued nodes is written but never read, so it is not modelled.
- Symlinks and `DT_UNKNOWN` are not modelled: `d_type` is taken as given.
- Names and paths are sequences of characters, not UTF-8 bytes. `MAX_PATH` bounds characters, not bytes.
- Argument handling and ring set-up (what.c:36-41) are not modelled: without an argument the root defaults to `.`, and a failing `io_uring_queue_init` prints an error and returns 1. `Run` takes the root as a parameter and starts after the ring is set up.
- `Orchestrator.Run`: requires `NoSubdirsAtBound`, that no directory whose path has at least `MAX_PATH - 1` characters and that reads back bytes lists a subdirectory. At `MAX_PATH - 1` characters, `snprintf` truncates every child path to the parent's own path (`Dirent.ChildOfFullPathIsParent`). So such a directory that lists exactly one subdirectory is queued again one level deeper, forever (`Orchestrator.TruncatedChildRequeued`, `Orchestrator.RunsForeverAtBound`). With m >= 2 subdirectories, each child is again the parent, so the levels hold m, m², … copies until a level is wider than `QUEUE_DEPTH` and the unchecked `io_uring_get_sqe` returns NULL. A terminating method cannot model that run. The precondition is about the whole map: it also excludes such directories where the root never reaches them.
- The event trace (`Submit`, `Reap`, `Close`) is an abstraction of the I/O order. It does not model timing or the ring's internal queues.
- `Level.Consume`: the record layout of a successful read with positive `nread` (records filling exactly `nread` bytes, each with positive `d_reclen`) is a precondition of the whole model (`ValidFs`). This is a guarantee of the kernel, which the program relies on to terminate its walks.
