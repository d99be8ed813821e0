/** How far the workflow reader gets, decided without reading a value: one pass over the lines that
    keeps the columns of the open blocks. A line closes the blocks it does not belong to; when none
    is left, the read is over, whatever follows.
 */
module WorkflowScan {
  import opened Bytes
  import opened WorkflowReader
  import opened WorkflowText

  /** An open block: keys or dashes, in one column. */
  datatype Level = Keys(column: nat) | Dashes(column: nat)

  /** What the last line asks for: nothing, a block in this column, a block right of this column,
      or the lines of a block scalar under this column. */
  datatype Waiting = Settled | ForBlock(column: nat) | ForValue(column: nat) | InScalar(column: nat)

  datatype Open = Open(levels: seq<Level>, waiting: Waiting)

  predicate Fits(level: Level, line: string) {
    && Indent(line) == level.column
    && if level.Keys? then !("- " <= Content(line)) else Content(line) != [] && Content(line)[0] == '-'
  }

  /** The block a line opens in a column. */
  function LevelOf(line: string, column: nat): Level {
    if DashLine(Content(line)) then Dashes(column) else Keys(column)
  }

  function Close(levels: seq<Level>, line: string): (r: seq<Level>)
    ensures r <= levels
  {
    if levels == [] || Fits(levels[|levels| - 1], line) then levels else Close(levels[..|levels| - 1], line)
  }

  function AfterKey(content: string, column: nat): Waiting {
    var pair := SplitKey(content);
    if pair.NoPair? then Settled else AfterValue(pair.value, column)
  }

  function AfterValue(value: string, column: nat): Waiting {
    if BlockHead(value) then InScalar(column) else if value == [] then ForValue(column) else Settled
  }

  /** A line with content finds its block, or none. A dash with a key opens the key's block too. */
  function Place(levels: seq<Level>, line: string): Option<Open>
    requires Content(line) != []
  {
    Enter(Close(levels, line), line)
  }

  function Enter(open: seq<Level>, line: string): Option<Open>
    requires Content(line) != []
  {
    if open == [] then None
    else
      match open[|open| - 1]
      case Keys(column) => Some(Open(open, AfterKey(Content(line), column)))
      case Dashes(column) =>
        var rest := AfterDash(Content(line));
        if rest == [] then Some(Open(open, ForBlock(column + 2)))
        else if SplitKey(rest).NoPair? then Some(Open(open, Settled))
        else
          var inner := ItemIndent(line, Content(line));
          var text := Content(Spaces(inner) + rest);
          if "- " <= text then None else Some(Open(open + [Keys(inner)], AfterKey(text, inner)))
  }

  function Opened(s: Open, line: string): seq<Level> {
    match s.waiting
    case ForBlock(column) => s.levels + [LevelOf(line, column)]
    case ForValue(column) => if Indent(line) > column then s.levels + [LevelOf(line, Indent(line))] else s.levels
    case _ => s.levels
  }

  function Next(s: Open, line: string): Option<Open> {
    if s.waiting.InScalar? && InBlock(line, s.waiting.column) then Some(s)
    else if Content(line) == [] then Some(if s.waiting.InScalar? then s.(waiting := Settled) else s)
    else Place(Opened(s, line), line)
  }

  /** The first line that finds no place, or the end. */
  function Scan(lines: seq<string>, i: nat, s: Open): (j: nat)
    requires i <= |lines|
    ensures i <= j <= |lines|
    decreases |lines| - i
  {
    if i == |lines| then i
    else
      var next := Next(s, lines[i]);
      if next.None? then i else Scan(lines, i + 1, next.value)
  }

  // ---------------------------------------------------------------- the scan follows the reader

  ghost predicate Below(levels: seq<Level>, column: nat) {
    forall k :: 0 <= k < |levels| ==> levels[k].column < column
  }

  lemma {:induction false} ScanSkips(lines: seq<string>, i: nat, s: Open)
    requires i <= |lines| && !s.waiting.InScalar?
    ensures Scan(lines, i, s) == Scan(lines, SkipBlanks(lines, i), s)
    decreases |lines| - i
  {
    hide Content, Place, Opened;
    if i < |lines| && Content(lines[i]) == [] {
      ScanSkips(lines, i + 1, s);
    }
  }

  /** A line no open block has the column of closes them all. */
  lemma {:induction false} CloseAll(levels: seq<Level>, line: string)
    requires Below(levels, Indent(line))
    ensures Close(levels, line) == []
  {
    hide Content, Indent;
    if levels != [] {
      CloseAll(levels[..|levels| - 1], line);
    }
  }

  lemma ClosePush(levels: seq<Level>, level: Level, line: string)
    ensures Close(levels + [level], line) == if Fits(level, line) then levels + [level] else Close(levels, line)
  {
    hide Fits;
    assert (levels + [level])[..|levels|] == levels;
  }

  /** A block ends at a line that does not fit it, and the line is looked at again. */
  lemma ScanCloses(lines: seq<string>, i: nat, levels: seq<Level>, level: Level)
    requires i < |lines| && Content(lines[i]) != [] && !Fits(level, lines[i])
    ensures Scan(lines, i, Open(levels + [level], Settled)) == Scan(lines, i, Open(levels, Settled))
  {
    hide Content, Fits, Close, Enter;
    ClosePush(levels, level, lines[i]);
  }

  lemma {:induction false} MappingScan(
    lines: seq<string>, i: nat, indent: nat, entries: map<string, Node>, levels: seq<Level>)
    requires i <= |lines| && Below(levels, indent)
    ensures
      var r := ParseMapping(lines, i, indent, entries);
      Scan(lines, i, Open(levels + [Keys(indent)], Settled)) == Scan(r.lines, r.i, Open(levels, Settled))
    decreases |lines| - i, 0, 0
  {
    hide Content, Indent, SplitKey, Unquoted, Scan, SkipBlanks, ParseValue, Elsewhere, Below, AfterValue;
    var open := Open(levels + [Keys(indent)], Settled);
    var j := SkipBlanks(lines, i);
    ScanSkips(lines, i, open);
    if j == |lines| {
      ScanEnds(lines, open);
      ScanEnds(lines, Open(levels, Settled));
    } else if !Fits(Keys(indent), lines[j]) {
      ScanCloses(lines, j, levels, Keys(indent));
    } else {
      KeyLine(lines, j, levels, indent);
      var pair := SplitKey(Content(lines[j]));
      if pair.NoPair? {
        MappingScan(lines, j + 1, indent, entries, levels);
      } else {
        var value := ParseValue(lines, j + 1, indent, pair.value);
        PushBelow(levels, Keys(indent));
        ValueScan(lines, j + 1, indent, pair.value, levels + [Keys(indent)]);
        MappingScan(value.lines, value.i, indent, entries[Unquoted(pair.key) := value.node], levels);
      }
    }
  }

  lemma ScanEnds(lines: seq<string>, s: Open)
    ensures Scan(lines, |lines|, s) == |lines|
  {
  }

  lemma KeyLine(lines: seq<string>, j: nat, levels: seq<Level>, indent: nat)
    requires j < |lines| && Content(lines[j]) != [] && Fits(Keys(indent), lines[j])
    ensures
      var open := levels + [Keys(indent)];
      Scan(lines, j, Open(open, Settled)) == Scan(lines, j + 1, Open(open, AfterKey(Content(lines[j]), indent)))
  {
    hide Content, Fits, Close, AfterKey;
    ClosePush(levels, Keys(indent), lines[j]);
  }

  lemma PushBelow(levels: seq<Level>, level: Level)
    requires Below(levels, level.column)
    ensures forall column: nat :: column > level.column ==> Below(levels + [level], column)
  {
  }

  lemma {:induction false} ValueScan(lines: seq<string>, i: nat, indent: nat, value: string, levels: seq<Level>)
    requires i <= |lines| && forall column: nat :: column > indent ==> Below(levels, column)
    ensures
      var r := ParseValue(lines, i, indent, value);
      Scan(lines, i, Open(levels, AfterValue(value, indent))) == Scan(r.lines, r.i, Open(levels, Settled))
    decreases |lines| - i, 3, 0
  {
    hide Content, Indent, Scan, SkipBlanks, Parse, Elsewhere, Below, BlockHead, IsFlow, BlockEnd, Fold, Stripped;
    if BlockHead(value) {
      ScalarScan(lines, i, indent, levels);
    } else if value == [] {
      var open := Open(levels, ForValue(indent));
      var j := SkipBlanks(lines, i);
      ScanSkips(lines, i, open);
      if j == |lines| {
        ScanEnds(lines, open);
        ScanEnds(lines, Open(levels, Settled));
      } else {
        ValueLine(lines, j, indent, levels);
        if Indent(lines[j]) > indent {
          BlockScan(lines, j, Indent(lines[j]), levels);
        }
      }
      NotFlow();
    }
  }

  lemma NotFlow()
    ensures !IsFlow("") && !BlockHead("")
  {
  }

  lemma ValueLine(lines: seq<string>, j: nat, indent: nat, levels: seq<Level>)
    requires j < |lines| && Content(lines[j]) != []
    ensures Scan(lines, j, Open(levels, ForValue(indent))) ==
      if Indent(lines[j]) > indent then Scan(lines, j, Open(levels + [LevelOf(lines[j], Indent(lines[j]))], Settled))
      else Scan(lines, j, Open(levels, Settled))
  {
    hide Content, Indent, LevelOf, Place;
  }

  lemma {:induction false} ScalarScan(lines: seq<string>, i: nat, indent: nat, levels: seq<Level>)
    requires i <= |lines|
    ensures Scan(lines, i, Open(levels, InScalar(indent))) ==
            Scan(lines, BlockEnd(lines, i, indent), Open(levels, Settled))
    decreases |lines| - i
  {
    hide Content, Indent, Strip, Place;
    if i < |lines| && InBlock(lines[i], indent) {
      ScalarScan(lines, i + 1, indent, levels);
    }
  }

  /** A nested block, its first line under the cursor. */
  lemma {:induction false} BlockScan(lines: seq<string>, j: nat, indent: nat, levels: seq<Level>)
    requires j < |lines| && Content(lines[j]) != [] && Below(levels, indent)
    ensures
      var r := Parse(lines, j, indent);
      Scan(lines, j, Open(levels + [LevelOf(lines[j], indent)], Settled)) == Scan(r.lines, r.i, Open(levels, Settled))
    decreases |lines| - j, 2, 0
  {
    hide Content, Indent, Scan, ParseMapping, ParseSequence, DashLine, Elsewhere, Below;
    if DashLine(Content(lines[j])) {
      SequenceScan(lines, j, indent, [], levels);
    } else {
      MappingScan(lines, j, indent, map[], levels);
    }
  }

  lemma {:induction false} SequenceScan(lines: seq<string>, i: nat, indent: nat, items: seq<Node>, levels: seq<Level>)
    requires i <= |lines| && Below(levels, indent)
    ensures
      var r := ParseSequence(lines, i, indent, items);
      Scan(lines, i, Open(levels + [Dashes(indent)], Settled)) == Scan(r.lines, r.i, Open(levels, Settled))
    decreases |lines| - i, 1, if i < |lines| && Indent(lines[i]) == indent then 1 else 0
  {
    hide Content, Indent, Scan, SkipBlanks, ParseItem, Elsewhere, Below;
    var open := Open(levels + [Dashes(indent)], Settled);
    var j := SkipBlanks(lines, i);
    ScanSkips(lines, i, open);
    if j == |lines| {
      ScanEnds(lines, open);
      ScanEnds(lines, Open(levels, Settled));
    } else if !Fits(Dashes(indent), lines[j]) {
      ScanCloses(lines, j, levels, Dashes(indent));
    } else {
      var item := ParseItem(lines, j, indent);
      ItemScan(lines, j, indent, levels);
      SequenceScan(item.lines, item.i, indent, items + [item.node], levels);
    }
  }

  lemma {:induction false} ItemScan(lines: seq<string>, j: nat, indent: nat, levels: seq<Level>)
    requires j < |lines| && Content(lines[j]) != [] && Fits(Dashes(indent), lines[j]) && Below(levels, indent)
    ensures
      var r, open := ParseItem(lines, j, indent), Open(levels + [Dashes(indent)], Settled);
      Scan(lines, j, open) == Scan(r.lines, r.i, open)
    decreases |lines| - j, 1, 0
  {
    hide Content, Indent, Scan, SkipBlanks, Parse, ParseMapping, Elsewhere, Below, SplitKey, AfterDash, ItemIndent,
         Undashed, Unquoted;
    var open := levels + [Dashes(indent)];
    var content := Content(lines[j]);
    PushBelow(levels, Dashes(indent));
    DashItem(lines, j, levels, indent);
    if AfterDash(content) == [] {
      var wait := Open(open, ForBlock(indent + 2));
      var k := SkipBlanks(lines, j + 1);
      ScanSkips(lines, j + 1, wait);
      if k == |lines| {
        ScanEnds(lines, wait);
        ScanEnds(lines, Open(open, Settled));
      } else {
        BlockLine(lines, k, indent + 2, open);
        BlockScan(lines, k, indent + 2, open);
      }
    } else if SplitKey(AfterDash(content)).Pair? {
      var inner := ItemIndent(lines[j], content);
      var u := Undashed(lines, j);
      DashKeyItem(lines, j, levels, indent);
      MappingScan(u, j, inner, map[], open);
    }
  }

  lemma BlockLine(lines: seq<string>, k: nat, column: nat, levels: seq<Level>)
    requires k < |lines| && Content(lines[k]) != []
    ensures Scan(lines, k, Open(levels, ForBlock(column))) ==
            Scan(lines, k, Open(levels + [LevelOf(lines[k], column)], Settled))
  {
    hide Content, Indent, LevelOf, Place;
  }

  /** A dash without a key behind it. */
  lemma DashItem(lines: seq<string>, j: nat, levels: seq<Level>, indent: nat)
    requires j < |lines| && Content(lines[j]) != [] && Fits(Dashes(indent), lines[j])
    ensures
      var open, rest := levels + [Dashes(indent)], AfterDash(Content(lines[j]));
      rest == [] || SplitKey(rest).NoPair? ==>
        Scan(lines, j, Open(open, Settled)) ==
        Scan(lines, j + 1, Open(open, if rest == [] then ForBlock(indent + 2) else Settled))
  {
    hide Content, Fits, Close, AfterDash, SplitKey;
    ClosePush(levels, Dashes(indent), lines[j]);
  }

  /** A dash with a key: the same as the key in its own column, the dash blanked out. */
  lemma DashKeyItem(lines: seq<string>, j: nat, levels: seq<Level>, indent: nat)
    requires j < |lines| && Content(lines[j]) != [] && Fits(Dashes(indent), lines[j]) && Below(levels, indent)
    requires
      var rest := AfterDash(Content(lines[j]));
      rest != [] && SplitKey(rest).Pair?
    ensures
      var open, inner := levels + [Dashes(indent)], ItemIndent(lines[j], Content(lines[j]));
      && inner > indent && Below(open, inner)
      && Scan(lines, j, Open(open, Settled)) == Scan(Undashed(lines, j), j, Open(open + [Keys(inner)], Settled))
  {
    hide Content, Indent, Close, AfterDash, SplitKey, ItemIndent, AfterKey, Scan, Undashed;
    var open, inner := levels + [Dashes(indent)], ItemIndent(lines[j], Content(lines[j]));
    var u := Undashed(lines, j);
    UndashedIs(lines, j);
    ClosePush(levels, Dashes(indent), lines[j]);
    ClosePush(open, Keys(inner), u[j]);
    CloseAll(open, u[j]);
    EmptyHasNoKey(inner);
    assert lines[j + 1..] == u[j + 1..];
    SameNext(lines, u, j, Open(open, Settled), Open(open + [Keys(inner)], Settled));
  }

  lemma EmptyHasNoKey(column: nat)
    ensures AfterKey("", column) == Settled
  {
  }

  /** Two scans that differ in the line under the cursor go on alike if that line leads to one state. */
  lemma SameNext(lines: seq<string>, u: seq<string>, j: nat, s: Open, t: Open)
    requires j < |lines| == |u| && lines[j + 1..] == u[j + 1..]
    requires Next(s, lines[j]) == Next(t, u[j])
    ensures Scan(lines, j, s) == Scan(u, j, t)
  {
    hide Next;
    if Next(s, lines[j]).Some? {
      SameRest(lines, u, j + 1, Next(s, lines[j]).value);
    }
  }

  lemma {:induction false} SameRest(lines: seq<string>, u: seq<string>, i: nat, s: Open)
    requires i <= |lines| == |u| && lines[i..] == u[i..]
    ensures Scan(lines, i, s) == Scan(u, i, s)
    decreases |lines| - i
  {
    hide Next;
    if i < |lines| {
      assert lines[i] == lines[i..][0] && u[i] == u[i..][0];
      assert lines[i + 1..] == lines[i..][1..] && u[i + 1..] == u[i..][1..];
      if Next(s, lines[i]).Some? {
        SameRest(lines, u, i + 1, Next(s, lines[i]).value);
      }
    }
  }

  // ---------------------------------------------------------------- where a read stops

  /** The exact condition: a read gets as far as the scan does. It reaches the last line if and only
      if every line finds its place among the open blocks. */
  lemma ReadStopsWhereScanStops(lines: seq<string>, i: nat, indent: nat)
    requires i <= |lines|
    ensures Parse(lines, i, indent).i == Scan(lines, i, Open([], ForBlock(indent)))
  {
    hide Content, Scan, SkipBlanks, Parse, Elsewhere, EndsMapping, EndsSequence;
    var j := SkipBlanks(lines, i);
    ScanSkips(lines, i, Open([], ForBlock(indent)));
    ParseSkips(lines, i, indent);
    if j == |lines| {
      ScanEnds(lines, Open([], ForBlock(indent)));
    } else {
      BlockLine(lines, j, indent, []);
      BlockScan(lines, j, indent, []);
      StopIsFinal(Parse(lines, j, indent), lines, j, indent);
    }
  }

  /** Nothing is open any more where a read has stopped. */
  lemma StopIsFinal(r: Read, lines: seq<string>, j: nat, indent: nat)
    requires j <= |lines| && r == Parse(lines, j, indent)
    ensures Scan(r.lines, r.i, Open([], Settled)) == r.i
  {
    hide Content, Parse, Indent;
    ReadReachesEndOrStray(lines, j, indent);
  }

  /** The same for a mapping and a sequence, whatever was read of them before. */
  lemma LevelStopsWhereScanStops(lines: seq<string>, i: nat, indent: nat, entries: map<string, Node>, items: seq<Node>)
    requires i <= |lines|
    ensures ParseMapping(lines, i, indent, entries).i == Scan(lines, i, Open([Keys(indent)], Settled))
    ensures ParseSequence(lines, i, indent, items).i == Scan(lines, i, Open([Dashes(indent)], Settled))
  {
    hide Content, Indent, ParseMapping, ParseSequence;
    MappingScan(lines, i, indent, entries, []);
    MappingStopsAt(lines, i, indent, entries);
    SequenceScan(lines, i, indent, items, []);
    SequenceStopsAt(lines, i, indent, items);
    assert [] + [Keys(indent)] == [Keys(indent)] && [] + [Dashes(indent)] == [Dashes(indent)];
  }

  // ---------------------------------------------------------------- lines nothing gets past

  /** A line with content left of a block, or in its column without belonging to it. */
  predicate Barrier(level: Level, line: string) {
    Content(line) != [] && Indent(line) <= level.column && !Fits(level, line)
  }

  /** The outermost open block is this one, and the others are right of its column. */
  ghost predicate Outermost(level: Level, levels: seq<Level>) {
    levels != [] && levels[0] == level && forall k :: 1 <= k < |levels| ==> levels[k].column > level.column
  }

  predicate Inside(level: Level, waiting: Waiting) {
    match waiting
    case Settled => true
    case ForBlock(column) => column > level.column
    case ForValue(column) => column >= level.column
    case InScalar(column) => column >= level.column
  }

  ghost predicate Within(level: Level, s: Open) {
    Outermost(level, s.levels) && Inside(level, s.waiting)
  }

  lemma NextStaysWithin(level: Level, s: Open, line: string)
    requires Within(level, s) && Next(s, line).Some?
    ensures Within(level, Next(s, line).value)
  {
    hide Content, Indent, Strip, LevelOf, Place, Outermost;
    if Content(line) != [] {
      OpenedOutermost(level, s, line);
      if Place(Opened(s, line), line).Some? {
        PlaceStaysWithin(level, Opened(s, line), line);
      }
    }
  }

  lemma OpenedOutermost(level: Level, s: Open, line: string)
    requires Within(level, s)
    ensures Outermost(level, Opened(s, line))
  {
    hide Content, Indent, DashLine;
  }

  lemma PlaceStaysWithin(level: Level, levels: seq<Level>, line: string)
    requires Outermost(level, levels) && Content(line) != [] && Place(levels, line).Some?
    ensures Within(level, Place(levels, line).value)
  {
    hide Content, Indent, SplitKey, AfterDash, ItemIndent, AfterKey, Spaces, Close;
    var open := Close(levels, line);
    var last := open[|open| - 1];
    CloseFits(levels, line);
    assert last.column >= level.column;
    if last.Keys? {
      KeyStaysInside(level, Content(line), last.column);
    } else if AfterDash(Content(line)) != [] {
      ItemIsRight(line);
      KeyStaysInside(level, Content(Spaces(ItemIndent(line, Content(line))) + AfterDash(Content(line))),
                     ItemIndent(line, Content(line)));
    }
  }

  lemma {:induction false} CloseFits(levels: seq<Level>, line: string)
    ensures
      var open := Close(levels, line);
      open != [] ==> Indent(line) == open[|open| - 1].column
  {
    hide Content, Indent;
    if levels != [] && !Fits(levels[|levels| - 1], line) {
      CloseFits(levels[..|levels| - 1], line);
    }
  }

  lemma KeyStaysInside(level: Level, content: string, column: nat)
    requires column >= level.column
    ensures Inside(level, AfterKey(content, column))
  {
    hide SplitKey, BlockHead;
  }

  lemma ItemIsRight(line: string)
    requires Content(line) != []
    ensures ItemIndent(line, Content(line)) > Indent(line)
  {
    hide Content, Indent;
  }

  lemma {:induction false} CloseWithin(levels: seq<Level>, line: string)
    requires levels != [] && Barrier(levels[0], line)
    requires forall k :: 1 <= k < |levels| ==> levels[k].column > levels[0].column
    ensures Close(levels, line) == []
  {
    hide Content, Indent;
    if |levels| > 1 {
      CloseWithin(levels[..|levels| - 1], line);
    } else {
      assert levels[..0] == [];
    }
  }

  lemma BarrierEnds(level: Level, s: Open, line: string)
    requires Within(level, s) && Barrier(level, line)
    ensures Next(s, line).None?
  {
    hide Indent, Fits, Strip, StripComment, DashLine;
    ContentMeansText(line);
    CloseWithin(Opened(s, line), line);
  }

  lemma {:induction false} ScanStopsAtBarrier(level: Level, lines: seq<string>, i: nat, k: nat, s: Open)
    requires i <= k < |lines| && Within(level, s) && Barrier(level, lines[k])
    ensures Scan(lines, i, s) <= k
    decreases k - i
  {
    hide Next, Within, Barrier;
    if i == k {
      BarrierEnds(level, s, lines[k]);
    } else if Next(s, lines[i]).Some? {
      NextStaysWithin(level, s, lines[i]);
      ScanStopsAtBarrier(level, lines, i + 1, k, Next(s, lines[i]).value);
    }
  }

  /** Whatever precedes it, no mapping or sequence in its column gets past a barrier. */
  lemma BarrierStopsLevel(
    lines: seq<string>, i: nat, k: nat, indent: nat, entries: map<string, Node>, items: seq<Node>)
    requires i <= k < |lines|
    ensures Barrier(Keys(indent), lines[k]) ==> ParseMapping(lines, i, indent, entries).i <= k
    ensures Barrier(Dashes(indent), lines[k]) ==> ParseSequence(lines, i, indent, items).i <= k
  {
    hide ParseMapping, ParseSequence, Barrier, Scan;
    LevelStopsWhereScanStops(lines, i, indent, entries, items);
    if Barrier(Keys(indent), lines[k]) {
      ScanStopsAtBarrier(Keys(indent), lines, i, k, Open([Keys(indent)], Settled));
    }
    if Barrier(Dashes(indent), lines[k]) {
      ScanStopsAtBarrier(Dashes(indent), lines, i, k, Open([Dashes(indent)], Settled));
    }
  }

  /** In a file that starts with a key, an item anywhere in the keys' column ends the read. YAML
      takes such items for the value of the key above them. */
  lemma DashInKeyColumnStopsTheRead(lines: seq<string>, i: nat, k: nat, indent: nat)
    requires i <= |lines| && SkipBlanks(lines, i) <= k < |lines| && !DashLine(Content(lines[SkipBlanks(lines, i)]))
    requires Indent(lines[k]) == indent && "- " <= Content(lines[k])
    ensures Parse(lines, i, indent).i <= k
  {
    hide Content, Indent, ParseMapping, ParseSequence, DashLine;
    BarrierStopsLevel(lines, SkipBlanks(lines, i), k, indent, map[], []);
  }
}
