/**
 * The breadth-first loop of what.c: print the root, then run one pass per
 * level while the queue is non-empty, each pass turning the current level
 * into the next one.
 */
module Orchestrator {
  import opened Seqs
  import opened Printer
  import opened Dirent
  import opened Level

  /** The state between two passes of the loop: the current level, the output and the I/O so far. */
  datatype Progress = Progress(queue: seq<Node>, out: seq<string>, events: seq<Event>)

  /** Before the loop: the root line printed and the root queued at depth 0. */
  function Initial(root: string): Progress {
    Progress([Node(root, 0)], [root + "\n"], [])
  }

  /** One pass of the loop over `p.queue`, whose completions arrived in the order `arrival`. */
  function Step(fs: FileSystem, p: Progress, arrival: seq<IoData>): Progress {
    var level := Drain(fs, arrival);
    Progress(level.children, p.out + level.lines,
             p.events + Submits(Batch(p.queue)) + Reaps(fs, arrival))
  }

  /**
   * A pass runs only on a non-empty level, and the completions it consumes
   * are the level's requests in some order.
   */
  predicate Admits(p: Progress, arrival: seq<IoData>) {
    p.queue != [] && multiset(arrival) == multiset(Batch(p.queue))
  }

  /** The state after the levels whose completions arrived in the orders `schedule`, one order per level. */
  function AfterLevels(fs: FileSystem, root: string, schedule: seq<seq<IoData>>): Progress
    decreases |schedule|
  {
    if schedule == [] then Initial(root)
    else Step(fs, AfterLevels(fs, root, schedule[..|schedule| - 1]), schedule[|schedule| - 1])
  }

  /** `schedule` is a possible run: each of its levels admits the order recorded for it. */
  predicate ValidSchedule(fs: FileSystem, root: string, schedule: seq<seq<IoData>>)
    decreases |schedule|
  {
    schedule == []
    || (ValidSchedule(fs, root, schedule[..|schedule| - 1])
        && Admits(AfterLevels(fs, root, schedule[..|schedule| - 1]), schedule[|schedule| - 1]))
  }

  lemma AfterLevelsSnoc(fs: FileSystem, root: string, schedule: seq<seq<IoData>>, arrival: seq<IoData>)
    ensures AfterLevels(fs, root, schedule + [arrival]) == Step(fs, AfterLevels(fs, root, schedule), arrival)
    ensures ValidSchedule(fs, root, schedule + [arrival])
        <==> ValidSchedule(fs, root, schedule) && Admits(AfterLevels(fs, root, schedule), arrival)
  {
  }

  /**
   * The whole program after initialisation: prints the root, then runs one
   * pass per level until a level finds no directories. `schedule` records
   * the order in which each level's completions were consumed.
   */
  method Run(fs: FileSystem, root: string)
    returns (out: seq<string>, schedule: seq<seq<IoData>>, events: seq<Event>)
    requires ValidFs(fs) && NoSubdirsAtBound(fs)
    ensures ValidSchedule(fs, root, schedule)
    ensures AfterLevels(fs, root, schedule) == Progress([], out, events)
    ensures |out| > 0 && out[0] == root + "\n"
  {
    out := [root + "\n"];
    var queue := [Node(root, 0)];
    schedule, events := [], [];
    while queue != []
      invariant ValidSchedule(fs, root, schedule)
      invariant AfterLevels(fs, root, schedule) == Progress(queue, out, events)
      invariant |out| > 0 && out[0] == root + "\n"
      decreases MAX_PATH - |schedule|
    {
      QueueDepth(fs, root, schedule);
      var lines, next, arrival, levelEvents := RunLevel(fs, queue);
      ExtendRun(fs, root, schedule, arrival, lines, next, levelEvents);
      out := out + lines;
      events := events + levelEvents;
      schedule := schedule + [arrival];
      queue := next;
    }
  }

  /** What one pass of `Run` adds is one more step of a possible run. */
  lemma ExtendRun(fs: FileSystem, root: string, schedule: seq<seq<IoData>>, arrival: seq<IoData>,
                  lines: seq<string>, next: seq<Node>, levelEvents: seq<Event>)
    requires ValidSchedule(fs, root, schedule)
    requires AfterLevels(fs, root, schedule).queue != []
    requires multiset(arrival) == multiset(Batch(AfterLevels(fs, root, schedule).queue))
    requires Drain(fs, arrival) == Decoded(lines, next)
    requires levelEvents == Submits(Batch(AfterLevels(fs, root, schedule).queue)) + Reaps(fs, arrival)
    ensures ValidSchedule(fs, root, schedule + [arrival])
    ensures AfterLevels(fs, root, schedule + [arrival])
         == Progress(next, AfterLevels(fs, root, schedule).out + lines,
                     AfterLevels(fs, root, schedule).events + levelEvents)
  {
    var p := AfterLevels(fs, root, schedule);
    AfterLevelsSnoc(fs, root, schedule, arrival);
    StepOf(fs, p, arrival, lines, next, levelEvents);
  }

  lemma StepOf(fs: FileSystem, p: Progress, arrival: seq<IoData>,
               lines: seq<string>, next: seq<Node>, levelEvents: seq<Event>)
    requires Drain(fs, arrival) == Decoded(lines, next)
    requires levelEvents == Submits(Batch(p.queue)) + Reaps(fs, arrival)
    ensures Step(fs, p, arrival) == Progress(next, p.out + lines, p.events + levelEvents)
  {
  }

  // ----- One pass -----

  /** Every completion of a pass is the request of a queued node, so it shares the nodes' depth and path bounds. */
  lemma ArrivalFromQueue(p: Progress, arrival: seq<IoData>, k: nat, m: nat)
    requires Admits(p, arrival)
    requires forall n :: n in p.queue ==> n.level == k && |n.path| >= m
    ensures forall d :: d in arrival ==> exists n :: n in p.queue && d == IoData(n.path, n.level)
    ensures forall d :: d in arrival ==> d.level == k && |d.path| >= m
  {
    BatchMembers(p.queue);
    forall d | d in arrival
      ensures exists n :: n in p.queue && d == IoData(n.path, n.level)
      ensures d.level == k && |d.path| >= m
    {
      assert d in multiset(Batch(p.queue));
      assert d in Batch(p.queue);
      var n :| n in p.queue && d == IoData(n.path, n.level);
    }
  }

  /**
   * A pass over a level at depth k queues a level at depth k + 1. When no
   * directory at the path bound lists subdirectories, paths grow by at least
   * one character per level, and a level is queued only below the bound.
   */
  lemma StepDepth(fs: FileSystem, p: Progress, arrival: seq<IoData>, k: nat)
    requires Admits(p, arrival)
    requires forall n :: n in p.queue ==> n.level == k
    ensures forall n :: n in Step(fs, p, arrival).queue ==> n.level == k + 1
    ensures NoSubdirsAtBound(fs) && (forall n :: n in p.queue ==> |n.path| >= k) ==>
      (forall n :: n in Step(fs, p, arrival).queue ==> |n.path| >= k + 1)
      && (Step(fs, p, arrival).queue != [] ==> k + 1 <= MAX_PATH - 1)
  {
    var bounded := NoSubdirsAtBound(fs) && (forall n :: n in p.queue ==> |n.path| >= k);
    ArrivalFromQueue(p, arrival, k, if bounded then k else 0);
    DrainChildren(fs, arrival);
    var next := Step(fs, p, arrival).queue;
    forall n | n in next
      ensures n.level == k + 1
      ensures bounded ==> |n.path| >= k + 1 && k + 1 <= MAX_PATH - 1
    {
      var d :| d in arrival && n.level == d.level + 1
        && (|d.path| < MAX_PATH - 1 ==> |n.path| > |d.path|)
        && (NoSubdirsAtBound(fs) ==> |d.path| < MAX_PATH - 1);
    }
    if next != [] {
      assert next[0] in next;
    }
  }

  /** The I/O of a pass over depth k: submissions of rank 2k, then completions and closes of rank 2k + 1. */
  lemma StepRanks(fs: FileSystem, p: Progress, arrival: seq<IoData>, k: nat)
    requires Admits(p, arrival)
    requires forall n :: n in p.queue ==> n.level == k
    ensures forall e :: e in Submits(Batch(p.queue)) ==> Rank(e) == 2 * k
    ensures forall e :: e in Reaps(fs, arrival) ==> Rank(e) == 2 * k + 1
  {
    ArrivalFromQueue(p, arrival, k, 0);
    BatchMembers(p.queue);
    FlatMapMembers(Batch(p.queue), SubmitEvent);
    FlatMapMembers(arrival, ReapEvents(fs));
    forall e | e in Submits(Batch(p.queue)) ensures Rank(e) == 2 * k {
      var d :| d in Batch(p.queue) && e in SubmitEvent(d);
    }
    forall e | e in Reaps(fs, arrival) ensures Rank(e) == 2 * k + 1 {
      var d :| d in arrival && e in ReapEvents(fs)(d);
    }
  }

  lemma StepInRankOrder(fs: FileSystem, p: Progress, arrival: seq<IoData>, k: nat)
    requires Admits(p, arrival)
    requires forall n :: n in p.queue ==> n.level == k
    requires InRankOrder(p.events) && forall e :: e in p.events ==> Rank(e) < 2 * k
    ensures InRankOrder(Step(fs, p, arrival).events)
    ensures forall e :: e in Step(fs, p, arrival).events ==> Rank(e) < 2 * k + 2
  {
    var submits := Submits(Batch(p.queue));
    var reaps := Reaps(fs, arrival);
    StepRanks(fs, p, arrival, k);
    SameRankInOrder(submits, 2 * k);
    SameRankInOrder(reaps, 2 * k + 1);
    RankOrderAppend(p.events, submits);
    RankOrderAppend(p.events + submits, reaps);
  }

  lemma StepPaired(fs: FileSystem, p: Progress, arrival: seq<IoData>)
    requires ClosesPaired(p.events)
    ensures ClosesPaired(Step(fs, p, arrival).events)
  {
    var submits := Submits(Batch(p.queue));
    FlatMapPaired(Batch(p.queue), SubmitEvent);
    FlatMapPaired(arrival, ReapEvents(fs));
    PairedAppend(p.events, submits);
    PairedAppend(p.events + submits, Reaps(fs, arrival));
  }

  lemma StepBalanced(fs: FileSystem, p: Progress, arrival: seq<IoData>)
    requires Admits(p, arrival)
    requires multiset(FlatMap(p.events, ReapedData)) == multiset(FlatMap(p.events, SubmittedData))
    ensures multiset(FlatMap(Step(fs, p, arrival).events, ReapedData))
         == multiset(FlatMap(Step(fs, p, arrival).events, SubmittedData))
  {
    var batch := Batch(p.queue);
    var submits := Submits(batch);
    var reaps := Reaps(fs, arrival);
    SubmitsData(batch);
    ReapsData(fs, arrival);
    FlatMapAppend(p.events, submits, SubmittedData);
    FlatMapAppend(p.events, submits, ReapedData);
    FlatMapAppend(p.events + submits, reaps, SubmittedData);
    FlatMapAppend(p.events + submits, reaps, ReapedData);
  }

  /** The depth a printed line is read back at; 0 for a line that is not an entry line. */
  function LineLevel(line: string): nat {
    match ParseEntry(line)
    case Some(e) => e.level
    case None => 0
  }

  /**
   * Every line after the first is an entry line at a depth between 1 and
   * `k`, and depths never decrease down the output.
   */
  predicate LevelOrdered(out: seq<string>, k: nat) {
    (forall i :: 1 <= i < |out| ==> ParseEntry(out[i]).Some? && 1 <= LineLevel(out[i]) <= k)
    && (forall i, j :: 1 <= i < j < |out| ==> LineLevel(out[i]) <= LineLevel(out[j]))
  }

  lemma StepOutput(fs: FileSystem, p: Progress, arrival: seq<IoData>, k: nat)
    requires Admits(p, arrival)
    requires forall n :: n in p.queue ==> n.level == k
    requires |p.out| > 0 && LevelOrdered(p.out, k)
    ensures Step(fs, p, arrival).out[0] == p.out[0]
    ensures LevelOrdered(Step(fs, p, arrival).out, k + 1)
    ensures forall i :: |p.out| <= i < |Step(fs, p, arrival).out| ==>
      LineLevel(Step(fs, p, arrival).out[i]) == k + 1
  {
    var lines := Drain(fs, arrival).lines;
    var out := p.out + lines;
    ArrivalFromQueue(p, arrival, k, 0);
    DrainLineLevels(fs, arrival, k);
    forall i | 1 <= i < |out|
      ensures ParseEntry(out[i]).Some? && 1 <= LineLevel(out[i]) <= k + 1
      ensures i >= |p.out| ==> LineLevel(out[i]) == k + 1
    {
      if i >= |p.out| {
        assert out[i] == lines[i - |p.out|];
        assert out[i] in lines;
      } else {
        assert out[i] == p.out[i];
      }
    }
    forall i, j | 1 <= i < j < |out| ensures LineLevel(out[i]) <= LineLevel(out[j]) {
      if j < |p.out| {
        assert out[i] == p.out[i] && out[j] == p.out[j];
      }
    }
  }

  /** Two passes over the same level, up to order, print the same lines and queue the same nodes, up to order. */
  lemma StepPermutation(fs: FileSystem, p1: Progress, a1: seq<IoData>, p2: Progress, a2: seq<IoData>)
    requires Admits(p1, a1) && Admits(p2, a2)
    requires multiset(p1.queue) == multiset(p2.queue) && multiset(p1.out) == multiset(p2.out)
    ensures multiset(Step(fs, p1, a1).queue) == multiset(Step(fs, p2, a2).queue)
    ensures multiset(Step(fs, p1, a1).out) == multiset(Step(fs, p2, a2).out)
  {
    FlatMapPermutation(p1.queue, p2.queue, Request);
    DrainPermutation(fs, a1, a2);
  }

  // ----- The whole run -----

  /**
   * The queue after n levels holds only nodes at depth n. When no directory
   * at the path bound lists subdirectories, each has a path of at least n
   * characters, so the queue can be non-empty only while n < MAX_PATH.
   */
  lemma {:induction false} QueueDepth(fs: FileSystem, root: string, schedule: seq<seq<IoData>>)
    requires ValidSchedule(fs, root, schedule)
    ensures forall n :: n in AfterLevels(fs, root, schedule).queue ==> n.level == |schedule|
    ensures NoSubdirsAtBound(fs) ==>
      (forall n :: n in AfterLevels(fs, root, schedule).queue ==> |n.path| >= |schedule|)
      && (AfterLevels(fs, root, schedule).queue != [] ==> |schedule| <= MAX_PATH - 1)
    decreases |schedule|
  {
    if schedule != [] {
      var before := schedule[..|schedule| - 1];
      QueueDepth(fs, root, before);
      StepDepth(fs, AfterLevels(fs, root, before), schedule[|schedule| - 1], |before|);
    }
  }

  /** Termination: when no directory at the path bound lists subdirectories, no run has more than MAX_PATH levels. */
  lemma ScheduleBounded(fs: FileSystem, root: string, schedule: seq<seq<IoData>>)
    requires NoSubdirsAtBound(fs)
    requires ValidSchedule(fs, root, schedule)
    ensures |schedule| <= MAX_PATH
  {
    if schedule != [] {
      QueueDepth(fs, root, schedule[..|schedule| - 1]);
    }
  }

  /**
   * The program as written at the path bound: a directory whose path fills
   * MAX_PATH - 1 characters and lists one subdirectory queues itself again,
   * one level deeper, because `snprintf` truncates the child path back to
   * the parent's.
   */
  lemma TruncatedChildRequeued(fs: FileSystem, p: Progress, path: string, k: nat, r: Record)
    requires |path| == MAX_PATH - 1 && path in fs && fs[path].nread > 0
    requires Entries(fs[path].records) == [r] && IsDir(r)
    requires p.queue == [Node(path, k)]
    ensures Admits(p, [IoData(path, k)])
    ensures Step(fs, p, [IoData(path, k)]).queue == [Node(path, k + 1)]
  {
    var d := IoData(path, k);
    FlatMapSnoc([], Node(path, k), Request);
    FlatMapSnoc([], d, ChildrenOf(fs));
    assert [] + [Node(path, k)] == [Node(path, k)];
    assert [] + [d] == [d];
    var es := Entries(fs[path].records);
    assert es[..|es| - 1] == [];
    ChildOfFullPathIsParent(path, r.name);
    assert Children(path, k, es) == [Node(path, k + 1)];
    assert Visit(fs, d).children == [Node(path, k + 1)];
    assert Drain(fs, [d]).children == ChildrenOf(fs)(d);
  }

  /**
   * So a root of MAX_PATH - 1 characters that lists one subdirectory is never
   * finished: after every possible run of n levels the queue holds the root
   * again at depth n, and one more level can always be run.
   */
  lemma {:induction false} RunsForeverAtBound(fs: FileSystem, root: string, r: Record, schedule: seq<seq<IoData>>)
    requires |root| == MAX_PATH - 1 && root in fs && fs[root].nread > 0
    requires Entries(fs[root].records) == [r] && IsDir(r)
    requires ValidSchedule(fs, root, schedule)
    ensures AfterLevels(fs, root, schedule).queue == [Node(root, |schedule|)]
    ensures ValidSchedule(fs, root, schedule + [[IoData(root, |schedule|)]])
    ensures !Finished(fs, root, schedule)
    decreases |schedule|
  {
    var p := AfterLevels(fs, root, schedule);
    if schedule != [] {
      var before := schedule[..|schedule| - 1];
      var last := schedule[|schedule| - 1];
      var k := |before|;
      RunsForeverAtBound(fs, root, r, before);
      TruncatedChildRequeued(fs, AfterLevels(fs, root, before), root, k, r);
      SingletonPermutation(last, IoData(root, k));
    }
    TruncatedChildRequeued(fs, p, root, |schedule|, r);
    AfterLevelsSnoc(fs, root, schedule, [IoData(root, |schedule|)]);
  }

  /** The only ordering of a single request is that request alone. */
  lemma SingletonPermutation<T>(s: seq<T>, x: T)
    requires multiset(s) == multiset([x])
    ensures s == [x]
  {
    assert |s| == |multiset(s)| == 1;
    assert s[0] in multiset(s);
  }

  /** In rank order, every completion precedes the submissions of deeper levels only, and the reverse. */
  lemma RankOrderIsBreadthFirst(events: seq<Event>)
    requires InRankOrder(events)
    ensures forall i, j :: 0 <= i < j < |events| && events[i].Reap? && events[j].Submit? ==>
      events[i].data.level < events[j].data.level
    ensures forall i, j :: 0 <= i < j < |events| && events[i].Submit? && events[j].Reap? ==>
      events[i].data.level <= events[j].data.level
  {
  }

  /**
   * Breadth-first order: events never go back to an earlier level or phase;
   * every open of a level is submitted before any of its completions is
   * consumed, and no open of level k + 1 is submitted before every
   * completion of level k has been consumed.
   */
  lemma {:induction false} BreadthFirst(fs: FileSystem, root: string, schedule: seq<seq<IoData>>)
    requires ValidSchedule(fs, root, schedule)
    ensures InRankOrder(AfterLevels(fs, root, schedule).events)
    ensures forall e :: e in AfterLevels(fs, root, schedule).events ==> Rank(e) < 2 * |schedule|
    ensures var events := AfterLevels(fs, root, schedule).events;
      forall i, j :: 0 <= i < j < |events| && events[i].Reap? && events[j].Submit? ==>
        events[i].data.level < events[j].data.level
    ensures var events := AfterLevels(fs, root, schedule).events;
      forall i, j :: 0 <= i < j < |events| && events[i].Submit? && events[j].Reap? ==>
        events[i].data.level <= events[j].data.level
    decreases |schedule|
  {
    if schedule != [] {
      var before := schedule[..|schedule| - 1];
      BreadthFirst(fs, root, before);
      QueueDepth(fs, root, before);
      StepInRankOrder(fs, AfterLevels(fs, root, before), schedule[|schedule| - 1], |before|);
    }
    RankOrderIsBreadthFirst(AfterLevels(fs, root, schedule).events);
  }

  /** Every successfully opened directory is closed exactly once, right after its completion is consumed. */
  lemma {:induction false} ClosedOnce(fs: FileSystem, root: string, schedule: seq<seq<IoData>>)
    ensures ClosesPaired(AfterLevels(fs, root, schedule).events)
    decreases |schedule|
  {
    if schedule != [] {
      var before := schedule[..|schedule| - 1];
      ClosedOnce(fs, root, before);
      StepPaired(fs, AfterLevels(fs, root, before), schedule[|schedule| - 1]);
    }
  }

  /** Every submitted request is waited on: the completions consumed are exactly the requests submitted. */
  lemma {:induction false} RequestsBalanced(fs: FileSystem, root: string, schedule: seq<seq<IoData>>)
    requires ValidSchedule(fs, root, schedule)
    ensures multiset(FlatMap(AfterLevels(fs, root, schedule).events, ReapedData))
         == multiset(FlatMap(AfterLevels(fs, root, schedule).events, SubmittedData))
    decreases |schedule|
  {
    if schedule != [] {
      var before := schedule[..|schedule| - 1];
      RequestsBalanced(fs, root, before);
      StepBalanced(fs, AfterLevels(fs, root, before), schedule[|schedule| - 1]);
    }
  }

  /**
   * The output starts with the root line; every later line is an entry line
   * at a depth between 1 and the number of levels run, and depths never
   * decrease down the output.
   */
  lemma {:induction false} OutputInLevelOrder(fs: FileSystem, root: string, schedule: seq<seq<IoData>>)
    requires ValidSchedule(fs, root, schedule)
    ensures |AfterLevels(fs, root, schedule).out| > 0
    ensures AfterLevels(fs, root, schedule).out[0] == root + "\n"
    ensures LevelOrdered(AfterLevels(fs, root, schedule).out, |schedule|)
    decreases |schedule|
  {
    if schedule != [] {
      var before := schedule[..|schedule| - 1];
      OutputInLevelOrder(fs, root, before);
      QueueDepth(fs, root, before);
      StepOutput(fs, AfterLevels(fs, root, before), schedule[|schedule| - 1], |before|);
    }
  }

  /**
   * Two runs that consumed completions in different orders have, after the
   * same number of levels, the same queued nodes and the same printed lines,
   * each up to order.
   */
  lemma {:induction false} LevelsAgree(fs: FileSystem, root: string, s1: seq<seq<IoData>>, s2: seq<seq<IoData>>)
    requires ValidSchedule(fs, root, s1) && ValidSchedule(fs, root, s2)
    requires |s1| == |s2|
    ensures multiset(AfterLevels(fs, root, s1).queue) == multiset(AfterLevels(fs, root, s2).queue)
    ensures multiset(AfterLevels(fs, root, s1).out) == multiset(AfterLevels(fs, root, s2).out)
    decreases |s1|
  {
    if s1 != [] {
      var b1, b2 := s1[..|s1| - 1], s2[..|s2| - 1];
      LevelsAgree(fs, root, b1, b2);
      StepPermutation(fs, AfterLevels(fs, root, b1), s1[|s1| - 1], AfterLevels(fs, root, b2), s2[|s2| - 1]);
    }
  }

  /** A run that stops after consuming completions in the orders `schedule`. */
  predicate Finished(fs: FileSystem, root: string, schedule: seq<seq<IoData>>) {
    ValidSchedule(fs, root, schedule) && AfterLevels(fs, root, schedule).queue == []
  }

  /** Whatever the completion orders, a run is still going whenever another possible run is longer. */
  lemma {:induction false} StillRunning(fs: FileSystem, root: string, s1: seq<seq<IoData>>, s2: seq<seq<IoData>>)
    requires ValidSchedule(fs, root, s1) && ValidSchedule(fs, root, s2)
    requires |s1| < |s2|
    ensures AfterLevels(fs, root, s1).queue != []
    decreases |s2|
  {
    var b2 := s2[..|s2| - 1];
    if |s1| == |b2| {
      LevelsAgree(fs, root, s1, b2);
      var q2 := AfterLevels(fs, root, b2).queue;
      assert q2[0] in multiset(q2);
    } else {
      StillRunning(fs, root, s1, b2);
    }
  }

  /**
   * The completion order does not change what is printed, only its order:
   * any two finished runs take the same number of levels and print the same
   * lines, up to order.
   */
  lemma RunsAgree(fs: FileSystem, root: string, s1: seq<seq<IoData>>, s2: seq<seq<IoData>>)
    requires Finished(fs, root, s1) && Finished(fs, root, s2)
    ensures |s1| == |s2|
    ensures multiset(AfterLevels(fs, root, s1).out) == multiset(AfterLevels(fs, root, s2).out)
  {
    if |s1| < |s2| {
      StillRunning(fs, root, s1, s2);
      assert false;
    } else if |s2| < |s1| {
      StillRunning(fs, root, s2, s1);
      assert false;
    } else {
      LevelsAgree(fs, root, s1, s2);
    }
  }
}
