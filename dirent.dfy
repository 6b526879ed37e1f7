/**
 * The entry decoder of what.c: the two passes over one getdents64 buffer,
 * the lines they print and the child nodes they queue.
 */
module Dirent {
  import opened Printer
  import opened Seqs

  /** `d_type` of a directory. */
  const DT_DIR: nat := 4
  /** Size of every path buffer; `snprintf` keeps at most MAX_PATH - 1 characters of a path. */
  const MAX_PATH: nat := 4096

  /** One `linux_dirent64` record: its declared length `d_reclen`, its name and its `d_type`. */
  datatype Record = Record(reclen: nat, name: string, dtype: nat)

  /** A directory waiting to be listed (`struct dir_entry`): its path and its depth. */
  datatype Node = Node(path: string, level: nat)

  /** What one directory listing contributes: the printed lines and the queued subdirectories. */
  datatype Decoded = Decoded(lines: seq<string>, children: seq<Node>)

  /** The test both passes apply: the name is neither "." nor "..". */
  predicate IsEntry(r: Record) {
    r.name != "." && r.name != ".."
  }

  predicate IsDir(r: Record) {
    r.dtype == DT_DIR
  }

  /** The records both passes act on, in buffer order. */
  function Entries(recs: seq<Record>): seq<Record> {
    Filter(recs, IsEntry)
  }

  /** The byte offset just past `recs`, laid back to back by their declared lengths. */
  function Span(recs: seq<Record>): nat {
    if recs == [] then 0 else Span(recs[..|recs| - 1]) + recs[|recs| - 1].reclen
  }

  /**
   * How getdents64 fills the buffer: the records end exactly at `nread`, and
   * every record has a positive length, so that advancing by it makes progress.
   */
  predicate Layout(recs: seq<Record>, nread: int) {
    Span(recs) == nread && forall i :: 0 <= i < |recs| ==> recs[i].reclen > 0
  }

  /** Every record of a well-laid buffer starts strictly before the end of the buffer. */
  lemma {:induction false} SpanBefore(recs: seq<Record>, i: nat)
    requires forall j :: 0 <= j < |recs| ==> recs[j].reclen > 0
    requires i < |recs|
    ensures Span(recs[..i]) < Span(recs)
    decreases |recs|
  {
    var init := recs[..|recs| - 1];
    assert recs[..|recs|] == recs;
    if i < |recs| - 1 {
      assert init[..i] == recs[..i];
      SpanBefore(init, i);
    } else {
      assert init == recs[..i];
    }
  }

  /** The path `snprintf(path, MAX_PATH, "%s/%s", parent, name)` writes. */
  function ChildPath(parent: string, name: string): (p: string)
    ensures |p| <= MAX_PATH - 1
    ensures |p| == if |parent| + 1 + |name| <= MAX_PATH - 1 then |parent| + 1 + |name| else MAX_PATH - 1
    ensures p == (parent + "/" + name)[..|p|]
  {
    var full := parent + "/" + name;
    if |full| <= MAX_PATH - 1 then full else full[..MAX_PATH - 1]
  }

  /** A child of a parent shorter than the bound extends the parent's path, so it is strictly longer. */
  lemma ChildPathExtends(parent: string, name: string)
    requires |parent| < MAX_PATH - 1
    ensures |ChildPath(parent, name)| > |parent|
    ensures ChildPath(parent, name)[..|parent|] == parent
    ensures ChildPath(parent, name)[|parent|] == '/'
    ensures |parent| + 1 + |name| < MAX_PATH ==> ChildPath(parent, name) == parent + "/" + name
  {
  }

  /** At the bound, truncation gives the child the parent's own path. */
  lemma ChildOfFullPathIsParent(parent: string, name: string)
    requires |parent| == MAX_PATH - 1
    ensures ChildPath(parent, name) == parent
  {
  }

  /** The lines of the second pass for entries `es`, indented `indent` levels, marking index `count - 1`. */
  function Render(es: seq<Record>, indent: nat, count: int): (lines: seq<string>)
    ensures |lines| == |es|
  {
    if es == [] then []
    else Render(es[..|es| - 1], indent, count)
         + [PointEntry(es[|es| - 1].name, indent, |es| - 1 == count - 1)]
  }

  /** The nodes the second pass queues for entries `es` of the directory `path` at depth `level`. */
  function Children(path: string, level: nat, es: seq<Record>): seq<Node> {
    if es == [] then []
    else Children(path, level, es[..|es| - 1])
         + (if IsDir(es[|es| - 1]) then [Node(ChildPath(path, es[|es| - 1].name), level + 1)] else [])
  }

  /** No record other than "." and ".." is a directory. */
  predicate NoSubdirs(recs: seq<Record>) {
    forall r :: r in recs && IsEntry(r) ==> !IsDir(r)
  }

  /** Both passes together, for a buffer whose records are `recs`. */
  function Decode(path: string, level: nat, recs: seq<Record>): Decoded {
    var es := Entries(recs);
    Decoded(Render(es, level + 1, |es|), Children(path, level, es))
  }

  /**
   * The first pass: walks the buffer by each record's declared length and
   * counts the records that are not "." or "..".
   */
  method CountPass(recs: seq<Record>, nread: int) returns (count: nat)
    requires Layout(recs, nread)
    ensures count == |Entries(recs)|
  {
    var offset := 0;
    var i := 0;
    count := 0;
    while offset < nread
      invariant 0 <= i <= |recs| && offset == Span(recs[..i])
      invariant count == |Entries(recs[..i])|
      decreases nread - offset
    {
      assert recs[..|recs|] == recs;
      var d := recs[i];
      if IsEntry(d) {
        count := count + 1;
      }
      offset := offset + d.reclen;
      i := i + 1;
      assert recs[..i][..i - 1] == recs[..i - 1];
    }
    if i < |recs| {
      SpanBefore(recs, i);
    }
    assert recs[..i] == recs;
  }

  /**
   * The second pass: walks the buffer again, prints every entry at depth
   * `level + 1` with the last glyph at index `count - 1`, and queues the
   * entries of type DT_DIR as children of `path`.
   */
  method EmitPass(recs: seq<Record>, nread: int, path: string, level: nat, count: int)
    returns (lines: seq<string>, children: seq<Node>)
    requires Layout(recs, nread)
    ensures lines == Render(Entries(recs), level + 1, count)
    ensures children == Children(path, level, Entries(recs))
  {
    var offset := 0;
    var i := 0;
    var idx := 0;
    lines, children := [], [];
    while offset < nread
      invariant 0 <= i <= |recs| && offset == Span(recs[..i])
      invariant idx == |Entries(recs[..i])|
      invariant lines == Render(Entries(recs[..i]), level + 1, count)
      invariant children == Children(path, level, Entries(recs[..i]))
      decreases nread - offset
    {
      assert recs[..|recs|] == recs;
      var d := recs[i];
      assert recs[..i + 1][..i] == recs[..i];
      EmitStep(recs, i, path, level, count);
      if IsEntry(d) {
        lines := lines + [PointEntry(d.name, level + 1, idx == count - 1)];
        if d.dtype == DT_DIR {
          children := children + [Node(ChildPath(path, d.name), level + 1)];
        }
        idx := idx + 1;
      }
      offset := offset + d.reclen;
      i := i + 1;
    }
    if i < |recs| {
      SpanBefore(recs, i);
    }
    assert recs[..i] == recs;
  }

  /** What the second pass adds for the record at index `i`. */
  lemma EmitStep(recs: seq<Record>, i: nat, path: string, level: nat, count: int)
    requires i < |recs|
    ensures var es := Entries(recs[..i]);
      var d := recs[i];
      Entries(recs[..i + 1]) == if IsEntry(d) then es + [d] else es
    ensures var es := Entries(recs[..i]);
      var d := recs[i];
      Render(Entries(recs[..i + 1]), level + 1, count)
        == Render(es, level + 1, count)
           + (if IsEntry(d) then [PointEntry(d.name, level + 1, |es| == count - 1)] else [])
    ensures var es := Entries(recs[..i]);
      var d := recs[i];
      Children(path, level, Entries(recs[..i + 1]))
        == Children(path, level, es)
           + (if IsEntry(d) && IsDir(d) then [Node(ChildPath(path, d.name), level + 1)] else [])
  {
    var es := Entries(recs[..i]);
    var d := recs[i];
    assert recs[..i + 1][..i] == recs[..i];
    if IsEntry(d) {
      assert Entries(recs[..i + 1]) == es + [d];
      assert (es + [d])[..|es|] == es;
    } else {
      assert Entries(recs[..i + 1]) == es;
    }
  }

  lemma {:induction false} RenderAt(es: seq<Record>, indent: nat, count: int, k: nat)
    requires k < |es|
    ensures Render(es, indent, count)[k] == PointEntry(es[k].name, indent, k == count - 1)
    decreases |es|
  {
    if k < |es| - 1 {
      RenderAt(es[..|es| - 1], indent, count, k);
    }
  }

  lemma RenderParses(es: seq<Record>, indent: nat, k: nat)
    requires k < |es|
    ensures ParseEntry(Render(es, indent, |es|)[k]) == Some(Entry(es[k].name, indent, k == |es| - 1))
  {
    RenderAt(es, indent, |es|, k);
    EntryRoundTrip(es[k].name, indent, k == |es| - 1);
  }

  /**
   * A directory with N entries other than "." and ".." gets exactly N lines,
   * in buffer order, each at depth `level + 1`, and only the line of the
   * entry at index N - 1 carries the last glyph.
   */
  lemma ListingLines(path: string, level: nat, recs: seq<Record>)
    ensures |Decode(path, level, recs).lines| == |Entries(recs)|
    ensures forall k :: 0 <= k < |Entries(recs)| ==>
      ParseEntry(Decode(path, level, recs).lines[k])
        == Some(Entry(Entries(recs)[k].name, level + 1, k == |Entries(recs)| - 1))
  {
    var es := Entries(recs);
    var lines := Decode(path, level, recs).lines;
    assert lines == Render(es, level + 1, |es|);
    forall k | 0 <= k < |es|
      ensures ParseEntry(lines[k]) == Some(Entry(es[k].name, level + 1, k == |es| - 1))
    {
      RenderParses(es, level + 1, k);
    }
  }

  /** Every queued child of a parent shorter than the bound is one level deeper and has a longer path. */
  lemma {:induction false} ChildrenDeeper(path: string, level: nat, es: seq<Record>)
    ensures forall n :: n in Children(path, level, es) ==> n.level == level + 1
    ensures |path| < MAX_PATH - 1 ==>
      forall n :: n in Children(path, level, es) ==> |n.path| > |path|
    decreases |es|
  {
    if es != [] {
      ChildrenDeeper(path, level, es[..|es| - 1]);
      if |path| < MAX_PATH - 1 {
        ChildPathExtends(path, es[|es| - 1].name);
      }
    }
  }

  lemma {:induction false} ChildrenAt(path: string, level: nat, es: seq<Record>)
    ensures |Children(path, level, es)| == |Filter(es, IsDir)|
    ensures forall k :: 0 <= k < |Filter(es, IsDir)| ==>
      Children(path, level, es)[k] == Node(ChildPath(path, Filter(es, IsDir)[k].name), level + 1)
    decreases |es|
  {
    if es != [] {
      ChildrenAt(path, level, es[..|es| - 1]);
    }
  }

  /**
   * The queued children are the entries of type DT_DIR, other than "." and
   * "..", in buffer order: each at depth `level + 1` with path `path/name`
   * (truncated as `snprintf` does), and nothing for any other entry.
   */
  lemma ListingChildren(path: string, level: nat, recs: seq<Record>)
    ensures |Decode(path, level, recs).children| == |Filter(Entries(recs), IsDir)|
    ensures forall k :: 0 <= k < |Filter(Entries(recs), IsDir)| ==>
      Decode(path, level, recs).children[k]
        == Node(ChildPath(path, Filter(Entries(recs), IsDir)[k].name), level + 1)
    ensures forall r :: r in Filter(Entries(recs), IsDir) <==> r in recs && IsEntry(r) && IsDir(r)
  {
    ChildrenAt(path, level, Entries(recs));
    FilterMembers(recs, IsEntry);
    FilterMembers(Entries(recs), IsDir);
  }

  /** A listing without subdirectories queues nothing. */
  lemma NoSubdirsNoChildren(path: string, level: nat, recs: seq<Record>)
    requires NoSubdirs(recs)
    ensures Decode(path, level, recs).children == []
  {
    FilterMembers(recs, IsEntry);
    FilterNone(Entries(recs), IsDir);
    ChildrenAt(path, level, Entries(recs));
  }

  /** Decoding a buffer that is two runs of records back to back: first run first, in order. */
  lemma EntriesInBufferOrder(a: seq<Record>, b: seq<Record>)
    ensures Entries(a + b) == Entries(a) + Entries(b)
    ensures forall r :: r in Entries(a + b) <==> r in a + b && IsEntry(r)
  {
    FilterAppend(a, b, IsEntry);
    FilterMembers(a + b, IsEntry);
  }
}
