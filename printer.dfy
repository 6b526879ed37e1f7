/** The tree printer: one output line per directory entry (`point_entry` in what.c). */
module Printer {

  datatype Option<T> = None | Some(value: T)

  /** One indentation unit; `point_entry` prints it once per level. */
  const Unit: string := "│   "
  /** Branch glyph of the last sibling and of every other sibling. */
  const LastGlyph: char := '└'
  const MidGlyph: char := '├'
  /** What follows the glyph, before the name. */
  const Stem: string := "── "

  function Glyph(isLast: bool): char {
    if isLast then LastGlyph else MidGlyph
  }

  /** `level` copies of the indentation unit, back to back. */
  function Indent(level: nat): (s: string)
    ensures |s| == 4 * level
    ensures forall i :: 0 <= i < |s| ==> s[i] == Unit[i % 4]
  {
    if level == 0 then "" else Unit + Indent(level - 1)
  }

  /**
   * The line `point_entry(name, level, is_last)` writes: the indentation, the
   * glyph chosen by `isLast`, the stem, the name and a newline.
   */
  function PointEntry(name: string, level: nat, isLast: bool): (line: string)
    ensures |line| == 4 * level + |Stem| + 1 + |name| + 1
    ensures forall i :: 0 <= i < 4 * level ==> line[i] == Unit[i % 4]
    ensures line[4 * level] == Glyph(isLast)
    ensures line[4 * level + 1 .. 4 * level + 1 + |Stem|] == Stem
    ensures line[4 * level + 1 + |Stem| .. |line| - 1] == name
    ensures line[|line| - 1] == '\n'
  {
    var indent := Indent(level);
    var line := indent + [Glyph(isLast)] + Stem + name + "\n";
    assert line[..4 * level] == indent;
    assert line[4 * level + 1 + |Stem| .. |line| - 1] == name;
    line
  }

  /** What a printed line says: the name, its indentation level and whether it is marked last. */
  datatype Entry = Entry(name: string, level: nat, isLast: bool)

  /** Counts the indentation units a string starts with and returns what follows them. */
  function StripIndent(s: string): (nat, string)
    decreases |s|
  {
    if |s| >= 4 && s[..4] == Unit then
      var (n, rest) := StripIndent(s[4..]);
      (n + 1, rest)
    else
      (0, s)
  }

  /** Reads a line back; `None` when it is not shaped like a line of `PointEntry`. */
  function ParseEntry(line: string): Option<Entry> {
    var (level, rest) := StripIndent(line);
    if |rest| >= 5 && (rest[0] == LastGlyph || rest[0] == MidGlyph)
       && rest[1..4] == Stem && rest[|rest| - 1] == '\n'
    then Some(Entry(rest[4..|rest| - 1], level, rest[0] == LastGlyph))
    else None
  }

  lemma {:induction false} StripIndentOf(level: nat, t: string)
    requires |t| > 0 && t[0] != Unit[0]
    ensures StripIndent(Indent(level) + t) == (level, t)
  {
    var s := Indent(level) + t;
    if level == 0 {
      assert s == t;
      assert |s| >= 4 ==> s[..4][0] != Unit[0];
    } else {
      assert s == Unit + (Indent(level - 1) + t);
      assert s[..4] == Unit;
      assert s[4..] == Indent(level - 1) + t;
      StripIndentOf(level - 1, t);
    }
  }

  lemma {:induction false} StripIndentSplits(s: string)
    ensures s == Indent(StripIndent(s).0) + StripIndent(s).1
    decreases |s|
  {
    if |s| >= 4 && s[..4] == Unit {
      StripIndentSplits(s[4..]);
      assert s == Unit + s[4..];
    }
  }

  /** Reading a printed line back gives exactly what was printed. */
  lemma EntryRoundTrip(name: string, level: nat, isLast: bool)
    ensures ParseEntry(PointEntry(name, level, isLast)) == Some(Entry(name, level, isLast))
  {
    var t := [Glyph(isLast)] + Stem + name + "\n";
    assert PointEntry(name, level, isLast) == Indent(level) + t;
    StripIndentOf(level, t);
    assert t[1..4] == Stem;
    assert t[4..|t| - 1] == name;
  }

  /** Every line that reads back as an entry is the line printed for that entry. */
  lemma ParsedLineIsPrinted(line: string)
    requires ParseEntry(line).Some?
    ensures PointEntry(ParseEntry(line).value.name, ParseEntry(line).value.level,
                       ParseEntry(line).value.isLast) == line
  {
    var e := ParseEntry(line).value;
    var (level, rest) := StripIndent(line);
    StripIndentSplits(line);
    assert rest == [Glyph(e.isLast)] + Stem + e.name + "\n";
  }

  /** Distinct entries are printed as distinct lines. */
  lemma PointEntryInjective(a: Entry, b: Entry)
    requires a != b
    ensures PointEntry(a.name, a.level, a.isLast) != PointEntry(b.name, b.level, b.isLast)
  {
    EntryRoundTrip(a.name, a.level, a.isLast);
    EntryRoundTrip(b.name, b.level, b.isLast);
  }
}
