/**
 * One level of the traversal in what.c: an open submitted for every
 * directory of the level as one batch, exactly as many completions consumed,
 * and the subdirectories they list collected as the next level.
 */
module Level {
  import opened Seqs
  import opened Printer
  import opened Dirent

  /** The context of one open request (`struct io_data`): the path and depth of its node. */
  datatype IoData = IoData(path: string, level: nat)

  /** What the one getdents64 call on an opened directory returns: a byte count and the records. */
  datatype Listing = Listing(nread: int, records: seq<Record>)

  /**
   * The directories that open, by path, with what reading each returns.
   * Opening any other path fails (`cqe->res < 0`).
   */
  type FileSystem = map<string, Listing>

  /** Every successful read returns a buffer laid out as getdents64 lays it out. */
  predicate ValidFs(fs: FileSystem) {
    forall p :: p in fs && fs[p].nread > 0 ==> Layout(fs[p].records, fs[p].nread)
  }

  /**
   * No directory whose path already fills `MAX_PATH - 1` characters lists a
   * subdirectory: the truncated path `snprintf` would give such a child is
   * the parent's own path.
   */
  predicate NoSubdirsAtBound(fs: FileSystem) {
    forall p :: p in fs && |p| >= MAX_PATH - 1 && fs[p].nread > 0 ==> NoSubdirs(fs[p].records)
  }

  /**
   * The I/O the loop performs, in order: an open submitted for a node, the
   * completion of an open consumed (and whether it opened), and a close.
   */
  datatype Event = Submit(data: IoData) | Reap(data: IoData, ok: bool) | Close(data: IoData)

  /** Submissions of level k rank 2k; completions and closes of level k rank 2k + 1. */
  function Rank(e: Event): nat {
    if e.Submit? then 2 * e.data.level else 2 * e.data.level + 1
  }

  function Request(n: Node): seq<IoData> {
    [IoData(n.path, n.level)]
  }

  /** The request contexts of one level, one per queued node, in queue order. */
  function Batch(queue: seq<Node>): seq<IoData> {
    FlatMap(queue, Request)
  }

  function SubmitEvent(d: IoData): seq<Event> {
    [Submit(d)]
  }

  function Submits(batch: seq<IoData>): seq<Event> {
    FlatMap(batch, SubmitEvent)
  }

  /**
   * What consuming the completion for `d` contributes: nothing when the open
   * failed or the read returned no bytes, the decoded listing otherwise.
   */
  function Visit(fs: FileSystem, d: IoData): Decoded {
    if d.path !in fs || fs[d.path].nread <= 0 then Decoded([], [])
    else Decode(d.path, d.level, fs[d.path].records)
  }

  function LinesOf(fs: FileSystem): IoData -> seq<string> {
    (d: IoData) => Visit(fs, d).lines
  }

  function ChildrenOf(fs: FileSystem): IoData -> seq<Node> {
    (d: IoData) => Visit(fs, d).children
  }

  /** The events of consuming one completion: a successful open is closed right after its read. */
  function ReapEvents(fs: FileSystem): IoData -> seq<Event> {
    (d: IoData) => if d.path in fs then [Reap(d, true), Close(d)] else [Reap(d, false)]
  }

  /** The lines printed and the next level built when completions arrive in the order `arrival`. */
  function Drain(fs: FileSystem, arrival: seq<IoData>): Decoded {
    Decoded(FlatMap(arrival, LinesOf(fs)), FlatMap(arrival, ChildrenOf(fs)))
  }

  function Reaps(fs: FileSystem, arrival: seq<IoData>): seq<Event> {
    FlatMap(arrival, ReapEvents(fs))
  }

  /**
   * One pass of `while (queue)`: submits an open for every node of the level,
   * then consumes exactly `submitted` completions, in whatever order the ring
   * delivers them, appending the decoded subdirectories to the next level.
   * `arrival` is the order in which the completions were consumed.
   */
  method RunLevel(fs: FileSystem, queue: seq<Node>)
    returns (lines: seq<string>, next: seq<Node>, arrival: seq<IoData>, events: seq<Event>)
    requires ValidFs(fs)
    ensures multiset(arrival) == multiset(Batch(queue))
    ensures Drain(fs, arrival) == Decoded(lines, next)
    ensures events == Submits(Batch(queue)) + Reaps(fs, arrival)
  {
    var batch, submitted;
    batch, submitted, events := SubmitLevel(queue);
    // The completions still outstanding, each carrying its request context.
    var pending := multiset(batch);
    var reaped: seq<Event> := [];
    lines, next, arrival := [], [], [];
    for n := 0 to submitted
      invariant |pending| == submitted - n
      invariant multiset(arrival) + pending == multiset(batch)
      invariant Drain(fs, arrival) == Decoded(lines, next)
      invariant reaped == Reaps(fs, arrival)
    {
      // io_uring_wait_cqe: any outstanding request may complete first.
      var data :| data in pending;
      pending := pending - multiset{data};
      DrainSnoc(fs, arrival, data);
      arrival := arrival + [data];
      var entryLines, children, reapEvents := Consume(fs, data);
      lines := lines + entryLines;
      next := next + children;
      reaped := reaped + reapEvents;
    }
    events := events + reaped;
  }

  /** Consuming one more completion appends what that completion contributes. */
  lemma DrainSnoc(fs: FileSystem, arrival: seq<IoData>, data: IoData)
    ensures Drain(fs, arrival + [data]).lines == Drain(fs, arrival).lines + Visit(fs, data).lines
    ensures Drain(fs, arrival + [data]).children == Drain(fs, arrival).children + Visit(fs, data).children
    ensures Reaps(fs, arrival + [data]) == Reaps(fs, arrival) + ReapEvents(fs)(data)
  {
  }

  /** The submission loop: one open request per queued node, in queue order, counted in `submitted`. */
  method SubmitLevel(queue: seq<Node>) returns (batch: seq<IoData>, submitted: nat, events: seq<Event>)
    ensures batch == Batch(queue) && submitted == |batch| == |queue|
    ensures events == Submits(batch)
  {
    batch, submitted, events := [], 0, [];
    for i := 0 to |queue|
      invariant submitted == i == |batch|
      invariant batch == Batch(queue[..i])
      invariant events == Submits(batch)
    {
      var data := IoData(queue[i].path, queue[i].level);
      assert queue[..i + 1] == queue[..i] + [queue[i]];
      FlatMapSnoc(queue[..i], queue[i], Request);
      FlatMapSnoc(batch, data, SubmitEvent);
      batch := batch + [data];
      events := events + [Submit(data)];
      submitted := submitted + 1;
    }
    assert queue[..|queue|] == queue;
  }

  /**
   * Handling of one consumed completion: when the open succeeded, one read
   * of the directory, both decoder passes if it returned bytes, and a close.
   */
  method Consume(fs: FileSystem, data: IoData)
    returns (lines: seq<string>, children: seq<Node>, events: seq<Event>)
    requires ValidFs(fs)
    ensures Visit(fs, data) == Decoded(lines, children)
    ensures events == ReapEvents(fs)(data)
  {
    lines, children := [], [];
    if data.path in fs {
      var listing := fs[data.path];
      events := [Reap(data, true)];
      if listing.nread > 0 {
        var count := CountPass(listing.records, listing.nread);
        lines, children := EmitPass(listing.records, listing.nread, data.path, data.level, count);
      }
      events := events + [Close(data)];
    } else {
      events := [Reap(data, false)];
    }
  }

  lemma BatchMembers(queue: seq<Node>)
    ensures forall d :: d in Batch(queue) ==> exists n :: n in queue && d == IoData(n.path, n.level)
  {
    FlatMapMembers(queue, Request);
  }

  /**
   * Completions consumed earlier contribute their lines and children before
   * those consumed later; within one completion the order is the listing's.
   */
  lemma DrainAppend(fs: FileSystem, a: seq<IoData>, b: seq<IoData>)
    ensures Drain(fs, a + b).lines == Drain(fs, a).lines + Drain(fs, b).lines
    ensures Drain(fs, a + b).children == Drain(fs, a).children + Drain(fs, b).children
  {
    FlatMapAppend(a, b, LinesOf(fs));
    FlatMapAppend(a, b, ChildrenOf(fs));
  }

  /**
   * A directory that fails to open, or whose read returns no bytes, prints
   * nothing and queues nothing, and leaves what its siblings contribute
   * unchanged; a failed open is not closed.
   */
  lemma FailedDirectoryAddsNothing(fs: FileSystem, a: seq<IoData>, d: IoData, b: seq<IoData>)
    requires d.path !in fs || fs[d.path].nread <= 0
    ensures Drain(fs, a + [d] + b) == Drain(fs, a + b)
    ensures d.path !in fs ==> Reaps(fs, a + [d] + b) == Reaps(fs, a) + [Reap(d, false)] + Reaps(fs, b)
  {
    DrainAppend(fs, a + [d], b);
    DrainSnoc(fs, a, d);
    DrainAppend(fs, a, b);
    assert Drain(fs, a + [d]).lines == Drain(fs, a).lines;
    assert Drain(fs, a + [d]).children == Drain(fs, a).children;
    if d.path !in fs {
      FlatMapAppend(a + [d], b, ReapEvents(fs));
    }
  }

  /**
   * Every queued child comes from a consumed request one level up. A child
   * of a parent shorter than the path bound has a longer path than that
   * parent, and when no directory at the bound lists subdirectories, every
   * parent is below the bound.
   */
  lemma DrainChildren(fs: FileSystem, a: seq<IoData>)
    ensures forall n :: n in Drain(fs, a).children ==>
      exists d :: (d in a && n.level == d.level + 1
        && (|d.path| < MAX_PATH - 1 ==> |n.path| > |d.path|)
        && (NoSubdirsAtBound(fs) ==> |d.path| < MAX_PATH - 1))
  {
    FlatMapMembers(a, ChildrenOf(fs));
    forall n | n in Drain(fs, a).children
      ensures exists d :: (d in a && n.level == d.level + 1
        && (|d.path| < MAX_PATH - 1 ==> |n.path| > |d.path|)
        && (NoSubdirsAtBound(fs) ==> |d.path| < MAX_PATH - 1))
    {
      var d :| d in a && n in ChildrenOf(fs)(d);
      var records := fs[d.path].records;
      ChildrenDeeper(d.path, d.level, Entries(records));
      if NoSubdirsAtBound(fs) && |d.path| >= MAX_PATH - 1 {
        NoSubdirsNoChildren(d.path, d.level, records);
      }
    }
  }

  /** Every line printed while consuming requests of depth k is an entry line at depth k + 1. */
  lemma DrainLineLevels(fs: FileSystem, a: seq<IoData>, k: nat)
    requires forall d :: d in a ==> d.level == k
    ensures forall line :: line in Drain(fs, a).lines ==>
      ParseEntry(line).Some? && ParseEntry(line).value.level == k + 1
  {
    FlatMapMembers(a, LinesOf(fs));
    forall line | line in Drain(fs, a).lines
      ensures ParseEntry(line).Some? && ParseEntry(line).value.level == k + 1
    {
      var d :| d in a && line in LinesOf(fs)(d);
      var listing := fs[d.path];
      var lines := Decode(d.path, d.level, listing.records).lines;
      ListingLines(d.path, d.level, listing.records);
      var i :| 0 <= i < |lines| && lines[i] == line;
    }
  }

  lemma DrainPermutation(fs: FileSystem, a: seq<IoData>, b: seq<IoData>)
    requires multiset(a) == multiset(b)
    ensures multiset(Drain(fs, a).lines) == multiset(Drain(fs, b).lines)
    ensures multiset(Drain(fs, a).children) == multiset(Drain(fs, b).children)
  {
    FlatMapPermutation(a, b, LinesOf(fs));
    FlatMapPermutation(a, b, ChildrenOf(fs));
  }

  /** Events never go back to an earlier level, or to an earlier phase of the same level. */
  predicate InRankOrder(events: seq<Event>) {
    forall i, j :: 0 <= i < j < |events| ==> Rank(events[i]) <= Rank(events[j])
  }

  lemma RankOrderAppend(a: seq<Event>, b: seq<Event>)
    requires InRankOrder(a) && InRankOrder(b)
    requires forall e, f :: e in a && f in b ==> Rank(e) <= Rank(f)
    ensures InRankOrder(a + b)
  {
  }

  lemma SameRankInOrder(a: seq<Event>, r: nat)
    requires forall e :: e in a ==> Rank(e) == r
    ensures InRankOrder(a)
  {
  }

  /** Each close directly follows the consumed completion of a successful open of the same request, and each such completion is directly followed by its close. */
  predicate ClosesPaired(events: seq<Event>) {
    (forall i :: 0 <= i < |events| && events[i].Close? ==>
       i > 0 && events[i - 1] == Reap(events[i].data, true))
    && (forall i :: 0 <= i < |events| && events[i].Reap? && events[i].ok ==>
       i + 1 < |events| && events[i + 1] == Close(events[i].data))
  }

  lemma PairedAppend(a: seq<Event>, b: seq<Event>)
    requires ClosesPaired(a) && ClosesPaired(b)
    ensures ClosesPaired(a + b)
  {
  }

  lemma {:induction false} FlatMapPaired<T>(s: seq<T>, f: T -> seq<Event>)
    requires forall x :: x in s ==> ClosesPaired(f(x))
    ensures ClosesPaired(FlatMap(s, f))
    decreases |s|
  {
    if s != [] {
      FlatMapPaired(s[..|s| - 1], f);
      assert s[|s| - 1] in s;
      PairedAppend(FlatMap(s[..|s| - 1], f), f(s[|s| - 1]));
    }
  }

  function SubmittedData(e: Event): seq<IoData> {
    if e.Submit? then [e.data] else []
  }

  function ReapedData(e: Event): seq<IoData> {
    if e.Reap? then [e.data] else []
  }

  /** The data carried by the events of one block. */
  lemma BlockData(d: IoData, block: seq<Event>)
    requires block == [Submit(d)] || block == [Reap(d, false)] || block == [Reap(d, true), Close(d)]
    ensures FlatMap(block, SubmittedData) == if block[0].Submit? then [d] else []
    ensures FlatMap(block, ReapedData) == if block[0].Reap? then [d] else []
  {
    FlatMapSnoc([], block[0], SubmittedData);
    FlatMapSnoc([], block[0], ReapedData);
    assert [] + [block[0]] == [block[0]];
    if |block| == 2 {
      assert block == [block[0]] + [Close(d)];
      FlatMapSnoc([block[0]], Close(d), SubmittedData);
      FlatMapSnoc([block[0]], Close(d), ReapedData);
    }
  }

  lemma {:induction false} SubmitsData(batch: seq<IoData>)
    ensures FlatMap(Submits(batch), SubmittedData) == batch
    ensures FlatMap(Submits(batch), ReapedData) == []
    decreases |batch|
  {
    if batch != [] {
      var init := batch[..|batch| - 1];
      var d := batch[|batch| - 1];
      SubmitsData(init);
      assert batch == init + [d];
      FlatMapSnoc(init, d, SubmitEvent);
      BlockData(d, [Submit(d)]);
      FlatMapAppend(Submits(init), [Submit(d)], SubmittedData);
      FlatMapAppend(Submits(init), [Submit(d)], ReapedData);
    }
  }

  lemma {:induction false} ReapsData(fs: FileSystem, arrival: seq<IoData>)
    ensures FlatMap(Reaps(fs, arrival), SubmittedData) == []
    ensures FlatMap(Reaps(fs, arrival), ReapedData) == arrival
    decreases |arrival|
  {
    if arrival != [] {
      var init := arrival[..|arrival| - 1];
      var d := arrival[|arrival| - 1];
      var block := ReapEvents(fs)(d);
      ReapsData(fs, init);
      assert arrival == init + [d];
      FlatMapSnoc(init, d, ReapEvents(fs));
      BlockData(d, block);
      FlatMapAppend(Reaps(fs, init), block, SubmittedData);
      FlatMapAppend(Reaps(fs, init), block, ReapedData);
    }
  }
}
