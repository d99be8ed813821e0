/** The reader for the YAML subset workflow files are written in: block mappings, block sequences,
    flow sequences, quoted and plain scalars, and block scalars. It walks an array of lines with a
    cursor and, for `- key: value`, rewrites the line under the cursor so that a mapping can be
    read from it.
 */
module WorkflowReader {

  datatype Node =
    | Nothing
    | Scalar(text: string)
    | Items(items: seq<Node>)
    | Dict(entries: map<string, Node>)

  datatype Pair = NoPair | Pair(key: string, value: string)

  // ---------------------------------------------------------------- text

  /** What `str.strip` removes. */
  predicate IsSpace(c: char) {
    var n := c as int;
    9 <= n <= 13 || 28 <= n <= 32 || n == 0x85 || n == 0xA0 || n == 0x1680 || 0x2000 <= n <= 0x200A ||
    n == 0x2028 || n == 0x2029 || n == 0x202F || n == 0x205F || n == 0x3000
  }

  function LStrip(s: string): (r: string)
    ensures |r| <= |s| && (r == [] || !IsSpace(r[0]))
  {
    if s != [] && IsSpace(s[0]) then LStrip(s[1..]) else s
  }

  function RStrip(s: string): (r: string)
    ensures r <= s && (r == [] || !IsSpace(r[|r| - 1]))
  {
    if s != [] && IsSpace(s[|s| - 1]) then RStrip(s[..|s| - 1]) else s
  }

  function Strip(s: string): (r: string)
    ensures |r| <= |s| && (r == [] || (!IsSpace(r[0]) && !IsSpace(r[|r| - 1])))
  {
    var l := LStrip(s);
    var r := RStrip(l);
    r
  }

  function Spaces(n: nat): (r: string)
    ensures |r| == n && forall i :: 0 <= i < n ==> r[i] == ' '
  {
    if n == 0 then "" else " " + Spaces(n - 1)
  }

  /** The number of leading spaces. */
  function Indent(line: string): (n: nat)
    ensures n <= |line|
  {
    if line != [] && line[0] == ' ' then 1 + Indent(line[1..]) else 0
  }

  predicate IsQuote(c: char) { c == '\'' || c == '"' }
  predicate IsBlankChar(c: char) { c == ' ' || c == '\t' }

  /** Quote state after a character: `' '` stands for "outside quotes". */
  function Quoting(quote: char, c: char): char {
    if quote != ' ' then (if c == quote then ' ' else quote)
    else if IsQuote(c) then c else ' '
  }

  /** Where a trailing comment starts, from position `i` in quote state `quote`. */
  function CommentStart(text: string, i: nat, quote: char): (k: nat)
    requires i <= |text|
    ensures i <= k <= |text|
    decreases |text| - i
  {
    if i == |text| then i
    else if quote == ' ' && text[i] == '#' && (i == 0 || IsBlankChar(text[i - 1])) then i
    else CommentStart(text, i + 1, Quoting(quote, text[i]))
  }

  function StripComment(text: string): string {
    text[..CommentStart(text, 0, ' ')]
  }

  /** The first colon outside quotes that ends a key. */
  function KeyEnd(text: string, i: nat, quote: char): (k: nat)
    requires i <= |text|
    ensures i <= k <= |text|
    decreases |text| - i
  {
    if i == |text| then i
    else if quote == ' ' && text[i] == ':' && (i + 1 == |text| || IsBlankChar(text[i + 1])) then i
    else KeyEnd(text, i + 1, Quoting(quote, text[i]))
  }

  function SplitKey(text: string): Pair {
    var k := KeyEnd(text, 0, ' ');
    if k == |text| then NoPair else Pair(Strip(text[..k]), Strip(text[k + 1..]))
  }

  method StripCommentLoop(text: string) returns (r: string)
    ensures r == StripComment(text)
  {
    var quote := ' ';
    for i := 0 to |text|
      invariant CommentStart(text, 0, ' ') == CommentStart(text, i, quote)
      invariant quote == ' ' || IsQuote(quote)
    {
      var ch := text[i];
      if quote != ' ' {
        if ch == quote {
          quote := ' ';
        }
        continue;
      }
      if IsQuote(ch) {
        quote := ch;
        continue;
      }
      if ch == '#' && (i == 0 || IsBlankChar(text[i - 1])) {
        return text[..i];
      }
    }
    r := text;
  }

  method SplitKeyLoop(text: string) returns (r: Pair)
    ensures r == SplitKey(text)
  {
    var quote := ' ';
    for i := 0 to |text|
      invariant KeyEnd(text, 0, ' ') == KeyEnd(text, i, quote)
      invariant quote == ' ' || IsQuote(quote)
    {
      var ch := text[i];
      if quote != ' ' {
        if ch == quote {
          quote := ' ';
        }
        continue;
      }
      if IsQuote(ch) {
        quote := ch;
        continue;
      }
      if ch == ':' && (i + 1 == |text| || IsBlankChar(text[i + 1])) {
        return Pair(Strip(text[..i]), Strip(text[i + 1..]));
      }
    }
    r := NoPair;
  }

  function Unquoted(text: string): string {
    var t := Strip(text);
    if |t| >= 2 && t[0] == t[|t| - 1] && IsQuote(t[0]) then t[1..|t| - 1] else t
  }

  /** `str.split` at one character. */
  function SplitOn(s: string, sep: char): (r: seq<string>)
    ensures r != []
  {
    if s == [] then [""]
    else
      var r := SplitOn(s[1..], sep);
      if s[0] == sep then [""] + r else [[s[0]] + r[0]] + r[1..]
  }

  function FlowScalars(parts: seq<string>): seq<Node> {
    if parts == [] then []
    else (if Strip(parts[0]) == [] then [] else [Scalar(Unquoted(parts[0]))]) + FlowScalars(parts[1..])
  }

  predicate IsFlow(value: string) {
    value != [] && value[0] == '[' && value[|value| - 1] == ']'
  }

  function FlowSequence(text: string): Node
    requires IsFlow(text)
  {
    Items(FlowScalars(SplitOn(text[1..|text| - 1], ',')))
  }

  predicate BlockHead(value: string) {
    value in ["|", ">", "|-", ">-", "|+", ">+"]
  }

  function JoinWith(parts: seq<string>, sep: string): string {
    if parts == [] then "" else if |parts| == 1 then parts[0] else parts[0] + sep + JoinWith(parts[1..], sep)
  }

  function NonEmpty(parts: seq<string>): seq<string> {
    if parts == [] then [] else (if parts[0] == [] then [] else [parts[0]]) + NonEmpty(parts[1..])
  }

  function Fold(head: string, collected: seq<string>): string {
    if head != [] && head[0] == '>' then JoinWith(NonEmpty(collected), " ") else JoinWith(collected, "\n")
  }

  // ---------------------------------------------------------------- what is read

  /** A line without its comment and the blanks around it. */
  function Content(line: string): string {
    Strip(StripComment(line))
  }

  function SkipBlanks(lines: seq<string>, i: nat): (j: nat)
    requires i <= |lines|
    ensures i <= j <= |lines|
    ensures j < |lines| ==> Content(lines[j]) != []
    ensures forall k :: i <= k < j ==> Content(lines[k]) == []
    decreases |lines| - i
  {
    if i < |lines| && Content(lines[i]) == [] then SkipBlanks(lines, i + 1) else i
  }

  /** Where a block scalar under `parent` ends. */
  function BlockEnd(lines: seq<string>, i: nat, parent: nat): (j: nat)
    requires i <= |lines|
    ensures i <= j <= |lines|
    ensures j < |lines| ==> Strip(lines[j]) != [] && Indent(lines[j]) <= parent
    ensures forall k :: i <= k < j ==> Strip(lines[k]) == [] || Indent(lines[k]) > parent
    decreases |lines| - i
  {
    if i == |lines| || (Strip(lines[i]) != [] && Indent(lines[i]) <= parent) then i
    else BlockEnd(lines, i + 1, parent)
  }

  function Stripped(lines: seq<string>): (r: seq<string>)
    ensures |r| == |lines|
  {
    if lines == [] then [] else Stripped(lines[..|lines| - 1]) + [Strip(lines[|lines| - 1])]
  }

  lemma NothingStripped()
    ensures Stripped([]) == []
  {
  }

  lemma StrippedPush(lines: seq<string>, line: string)
    ensures Stripped(lines + [line]) == Stripped(lines) + [Strip(line)]
  {
    assert (lines + [line])[..|lines|] == lines;
  }

  /** A value read, the lines as the reader leaves them, and the cursor. */
  datatype Read = Read(node: Node, lines: seq<string>, i: nat)

  /** Only lines the cursor was on may have changed. */
  predicate Elsewhere(lines: seq<string>, i: nat, r: Read) {
    |r.lines| == |lines| && forall k :: 0 <= k < |lines| && (k < i || r.i < k) ==> r.lines[k] == lines[k]
  }

  predicate DashLine(content: string) {
    content == "-" || "- " <= content
  }

  /** Under a dash: what follows it, and the column it starts in. */
  function AfterDash(content: string): string
    requires content != []
  {
    Strip(content[1..])
  }

  function ItemIndent(line: string, content: string): nat
    requires content != []
  {
    Indent(line) + (|content| - |LStrip(content[1..])|)
  }

  /** The lines with the dash of line `j` blanked out, so that a mapping starts further right. */
  function Undashed(lines: seq<string>, j: nat): (r: seq<string>)
    requires j < |lines| && Content(lines[j]) != [] && AfterDash(Content(lines[j])) != []
    ensures |r| == |lines| && forall k :: 0 <= k < |lines| && k != j ==> r[k] == lines[k]
    ensures Indent(r[j]) == ItemIndent(lines[j], Content(lines[j])) > Indent(lines[j])
  {
    var content := Content(lines[j]);
    var column := ItemIndent(lines[j], content);
    IndentOfRewritten(column, AfterDash(content));
    lines[j := Spaces(column) + AfterDash(content)]
  }

  lemma UndashedIs(lines: seq<string>, j: nat)
    requires j < |lines| && Content(lines[j]) != [] && AfterDash(Content(lines[j])) != []
    ensures
      var content := Content(lines[j]);
      Undashed(lines, j) == lines[j := Spaces(ItemIndent(lines[j], content)) + AfterDash(content)]
  {
  }

  function Parse(lines: seq<string>, i: nat, indent: nat): (r: Read)
    requires i <= |lines|
    ensures |r.lines| == |lines| && i <= r.i <= |lines|
    ensures Elsewhere(lines, i, r)
    decreases |lines| - i, 2, 0
  {
    var j := SkipBlanks(lines, i);
    if j == |lines| then Read(Nothing, lines, j)
    else if DashLine(Content(lines[j])) then ParseSequence(lines, j, indent, [])
    else ParseMapping(lines, j, indent, map[])
  }

  /** The loop of `parse_sequence`, with the items read so far. */
  function ParseSequence(lines: seq<string>, i: nat, indent: nat, items: seq<Node>): (r: Read)
    requires i <= |lines|
    ensures |r.lines| == |lines| && i <= r.i <= |lines|
    ensures Elsewhere(lines, i, r)
    decreases |lines| - i, 1, if i < |lines| && Indent(lines[i]) == indent then 1 else 0
  {
    var j := SkipBlanks(lines, i);
    if j == |lines| || Indent(lines[j]) != indent || Content(lines[j])[0] != '-' then Read(Items(items), lines, j)
    else
      var item := ParseItem(lines, j, indent);
      ParseSequence(item.lines, item.i, indent, items + [item.node])
  }

  /** One turn of that loop, with the cursor on a dash. It moves on, or leaves a line that is
      further right than the dash was. */
  function ParseItem(lines: seq<string>, j: nat, indent: nat): (r: Read)
    requires j < |lines| && Content(lines[j]) != [] && Indent(lines[j]) == indent
    ensures |r.lines| == |lines| && j <= r.i <= |lines|
    ensures Elsewhere(lines, j, r)
    ensures r.i == j ==> Indent(r.lines[j]) > indent
    decreases |lines| - j, 1, 0
  {
    var content := Content(lines[j]);
    var rest := AfterDash(content);
    if rest == [] then
      var k := SkipBlanks(lines, j + 1);
      if k == |lines| then Read(Nothing, lines, k) else Parse(lines, k, indent + 2)
    else if SplitKey(rest).NoPair? then Read(Scalar(Unquoted(rest)), lines, j + 1)
    else ParseMapping(Undashed(lines, j), j, ItemIndent(lines[j], content), map[])
  }

  /** The loop starts by skipping blank lines, so skipping them first changes nothing. */
  lemma BlanksFirst(lines: seq<string>, i: nat, indent: nat, items: seq<Node>)
    requires i <= |lines|
    ensures ParseSequence(lines, i, indent, items) == ParseSequence(lines, SkipBlanks(lines, i), indent, items)
  {
    hide ParseItem, Content, Indent, Elsewhere;
    assert SkipBlanks(lines, SkipBlanks(lines, i)) == SkipBlanks(lines, i);
  }

  /** The loop of `parse_mapping`, with the entries read so far. A mapping that reads no line
      changes none. */
  function ParseMapping(lines: seq<string>, i: nat, indent: nat, entries: map<string, Node>): (r: Read)
    requires i <= |lines|
    ensures |r.lines| == |lines| && i <= r.i <= |lines|
    ensures Elsewhere(lines, i, r)
    ensures r.i == i ==> r.lines == lines
    decreases |lines| - i, 0, 0
  {
    var j := SkipBlanks(lines, i);
    if j == |lines| || Indent(lines[j]) != indent || "- " <= Content(lines[j]) then Read(Dict(entries), lines, j)
    else
      var pair := SplitKey(Content(lines[j]));
      if pair.NoPair? then ParseMapping(lines, j + 1, indent, entries)
      else
        var value := ParseValue(lines, j + 1, indent, pair.value);
        ParseMapping(value.lines, value.i, indent, entries[Unquoted(pair.key) := value.node])
  }

  /** The value after a key: inline, a block scalar, or the nested block that follows. */
  function ParseValue(lines: seq<string>, i: nat, indent: nat, value: string): (r: Read)
    requires i <= |lines|
    ensures |r.lines| == |lines| && i <= r.i <= |lines|
    ensures Elsewhere(lines, i, r)
    decreases |lines| - i, 3, 0
  {
    if BlockHead(value) then
      var j := BlockEnd(lines, i, indent);
      Read(Scalar(Fold(value, Stripped(lines[i..j]))), lines, j)
    else if IsFlow(value) then Read(FlowSequence(value), lines, i)
    else if value != [] then Read(Scalar(Unquoted(value)), lines, i)
    else
      var j := SkipBlanks(lines, i);
      if j == |lines| || Indent(lines[j]) <= indent then Read(Nothing, lines, j)
      else Parse(lines, j, Indent(lines[j]))
  }

  lemma SkipTwice(lines: seq<string>, i: nat)
    requires i <= |lines|
    ensures SkipBlanks(lines, SkipBlanks(lines, i)) == SkipBlanks(lines, i)
  {
    hide Content;
  }

  lemma ParseSkips(lines: seq<string>, i: nat, indent: nat)
    requires i <= |lines|
    ensures Parse(lines, i, indent) == Parse(lines, SkipBlanks(lines, i), indent)
    ensures SkipBlanks(lines, i) == |lines| ==> Parse(lines, i, indent).i == |lines|
  {
    hide ParseMapping, ParseSequence, Content, DashLine, SkipBlanks;
    SkipTwice(lines, i);
  }

  // ---------------------------------------------------------------- where a read stops

  /** A line that ends a mapping in column `indent`: text in another column, or an item. */
  predicate EndsMapping(line: string, indent: nat) {
    Content(line) != [] && (Indent(line) != indent || "- " <= Content(line))
  }

  /** A line that ends a sequence in column `indent`: text in another column, or no item. */
  predicate EndsSequence(line: string, indent: nat) {
    Content(line) != [] && (Indent(line) != indent || Content(line)[0] != '-')
  }

  lemma {:induction false} MappingStopsAt(lines: seq<string>, i: nat, indent: nat, entries: map<string, Node>)
    requires i <= |lines|
    ensures
      var r := ParseMapping(lines, i, indent, entries);
      r.i < |lines| ==> EndsMapping(r.lines[r.i], indent)
    decreases |lines| - i
  {
    hide ParseValue, Content, Indent, SplitKey, Unquoted, Elsewhere;
    var j := SkipBlanks(lines, i);
    if j < |lines| && !EndsMapping(lines[j], indent) {
      var pair := SplitKey(Content(lines[j]));
      if pair.NoPair? {
        MappingStopsAt(lines, j + 1, indent, entries);
      } else {
        var value := ParseValue(lines, j + 1, indent, pair.value);
        MappingStopsAt(value.lines, value.i, indent, entries[Unquoted(pair.key) := value.node]);
      }
    }
  }

  lemma {:induction false} SequenceStopsAt(lines: seq<string>, i: nat, indent: nat, items: seq<Node>)
    requires i <= |lines|
    ensures
      var r := ParseSequence(lines, i, indent, items);
      r.i < |lines| ==> EndsSequence(r.lines[r.i], indent)
    decreases |lines| - i, if i < |lines| && Indent(lines[i]) == indent then 1 else 0
  {
    hide ParseItem, Content, Indent, Elsewhere;
    var j := SkipBlanks(lines, i);
    if j < |lines| && !EndsSequence(lines[j], indent) {
      var item := ParseItem(lines, j, indent);
      SequenceStopsAt(item.lines, item.i, indent, items + [item.node]);
    }
  }

  /** A read reaches the end, or stops at text that fits neither rule in its column: whatever a
      file holds from there on is not looked at. */
  lemma ReadReachesEndOrStray(lines: seq<string>, i: nat, indent: nat)
    requires i <= |lines|
    ensures
      var r := Parse(lines, i, indent);
      r.i == |lines| || EndsMapping(r.lines[r.i], indent) || EndsSequence(r.lines[r.i], indent)
    ensures
      var r, j := Parse(lines, i, indent), SkipBlanks(lines, i);
      j < |lines| && r.i < |lines| ==>
        if DashLine(Content(lines[j])) then EndsSequence(r.lines[r.i], indent) else EndsMapping(r.lines[r.i], indent)
  {
    hide ParseMapping, ParseSequence, EndsMapping, EndsSequence, SkipBlanks, Content, DashLine;
    var j := SkipBlanks(lines, i);
    SequenceStopsAt(lines, j, indent, []);
    MappingStopsAt(lines, j, indent, map[]);
  }

  lemma IndentOfRewritten(column: nat, rest: string)
    requires rest != [] && !IsSpace(rest[0])
    ensures Indent(Spaces(column) + rest) == column
  {
    IndentOfSpaces(column, rest);
  }

  lemma {:induction false} IndentOfSpaces(n: nat, rest: string)
    requires rest == [] || rest[0] != ' '
    ensures Indent(Spaces(n) + rest) == n
  {
    if n > 0 {
      IndentOfSpaces(n - 1, rest);
      assert (Spaces(n) + rest)[1..] == Spaces(n - 1) + rest;
    } else {
      assert Spaces(0) + rest == rest;
    }
  }

  // ---------------------------------------------------------------- the reader

  class Reader {
    var lines: seq<string>
    var i: nat

    constructor (source: seq<string>)
      ensures lines == source && i == 0
    {
      lines := source;
      i := 0;
    }

    method Skip()
      requires i <= |lines|
      modifies this`i
      ensures i == SkipBlanks(lines, old(i))
    {
      while i < |lines|
        invariant old(i) <= i <= |lines| && SkipBlanks(lines, old(i)) == SkipBlanks(lines, i)
      {
        var bare := StripCommentLoop(lines[i]);
        if Strip(bare) != [] {
          return;
        }
        i := i + 1;
      }
    }

    method AtEnd() returns (end: bool)
      requires i <= |lines|
      modifies this`i
      ensures i == SkipBlanks(lines, old(i)) && (end <==> i == |lines|)
    {
      Skip();
      end := i >= |lines|;
    }

    method BlockScalar(head: string, parent: nat) returns (text: string)
      requires i <= |lines|
      modifies this`i
      ensures i == BlockEnd(lines, old(i), parent) && text == Fold(head, Stripped(lines[old(i)..i]))
    {
      hide Strip, Indent, Fold, Stripped;
      var collected: seq<string> := [];
      NothingStripped();
      while i < |lines|
        invariant old(i) <= i <= |lines| && BlockEnd(lines, old(i), parent) == BlockEnd(lines, i, parent)
        invariant collected == Stripped(lines[old(i)..i])
      {
        var line := lines[i];
        if Strip(line) != [] && Indent(line) <= parent {
          break;
        }
        assert lines[old(i)..i + 1] == lines[old(i)..i] + [line];
        StrippedPush(lines[old(i)..i], line);
        collected := collected + [Strip(line)];
        i := i + 1;
      }
      text := Fold(head, collected);
    }

    /** The whole reader computes `Parse`; it stops on every array of lines, the cursor only moves
        forward and never passes the end. */
    method ParseNode(indent: nat) returns (node: Node)
      requires i <= |lines|
      modifies this
      ensures Read(node, lines, i) == Parse(old(lines), old(i), indent)
      ensures i <= |lines|
      decreases |lines| - i, 2
    {
      var end := AtEnd();
      if end {
        return Nothing;
      }
      var bare := StripCommentLoop(lines[i]);
      if DashLine(Strip(bare)) {
        node := ReadSequence(indent);
      } else {
        node := ReadMapping(indent);
      }
    }

    method ReadSequence(indent: nat) returns (node: Node)
      requires i <= |lines|
      modifies this
      ensures Read(node, lines, i) == ParseSequence(old(lines), old(i), indent, [])
      ensures i <= |lines|
      decreases |lines| - i, 1
    {
      hide StripComment, Indent, Strip, SkipBlanks, ParseItem, Elsewhere;
      var items: seq<Node> := [];
      while true
        invariant old(i) <= i <= |lines| && |lines| == |old(lines)|
        invariant ParseSequence(old(lines), old(i), indent, []) == ParseSequence(lines, i, indent, items)
        decreases |lines| - i, if i < |lines| && Indent(lines[i]) == indent then 1 else 0
      {
        BlanksFirst(lines, i, indent, items);
        var end := AtEnd();
        if end || Indent(lines[i]) != indent {
          break;
        }
        var bare := StripCommentLoop(lines[i]);
        var content := Strip(bare);
        if content[0] != '-' {
          break;
        }
        var item := ReadItem(indent, content);
        items := items + [item];
      }
      node := Items(items);
    }

    /** One turn of the loop of `parse_sequence`, with the cursor on a dash. */
    method ReadItem(indent: nat, content: string) returns (item: Node)
      requires i < |lines| && Indent(lines[i]) == indent && content == Content(lines[i]) && content != []
      modifies this
      ensures Read(item, lines, i) == ParseItem(old(lines), old(i), indent)
      decreases |lines| - i, 0, 1
    {
      hide StripComment, SplitKey, Unquoted, Spaces, Indent, Strip, Content, Parse, ParseMapping, Elsewhere,
           Undashed, AfterDash, ItemIndent, SkipBlanks;
      var rest := AfterDash(content);
      var column := ItemIndent(lines[i], content);
      if rest == [] {
        i := i + 1;
        var end := AtEnd();
        if end {
          return Nothing;
        }
        item := ParseNode(indent + 2);
        return;
      }
      var pair := SplitKeyLoop(rest);
      if pair.NoPair? {
        i := i + 1;
        return Scalar(Unquoted(rest));
      }
      UndashedIs(lines, i);
      lines := lines[i := Spaces(column) + rest];
      item := ReadMapping(column);
    }

    method ReadMapping(indent: nat) returns (node: Node)
      requires i <= |lines|
      modifies this
      ensures Read(node, lines, i) == ParseMapping(old(lines), old(i), indent, map[])
      ensures i <= |lines|
      decreases |lines| - i, 0, 0
    {
      hide StripComment, SplitKey, Unquoted, Indent, Strip, SkipBlanks, ParseValue, Elsewhere;
      var entries: map<string, Node> := map[];
      while true
        invariant old(i) <= i <= |lines| && |lines| == |old(lines)|
        invariant ParseMapping(old(lines), old(i), indent, map[]) == ParseMapping(lines, i, indent, entries)
        decreases |lines| - i
      {
        var end := AtEnd();
        if end || Indent(lines[i]) != indent {
          break;
        }
        var bare := StripCommentLoop(lines[i]);
        var content := Strip(bare);
        if "- " <= content {
          break;
        }
        var pair := SplitKeyLoop(content);
        i := i + 1;
        if pair.NoPair? {
          continue;
        }
        var value := ReadValue(indent, pair.value);
        entries := entries[Unquoted(pair.key) := value];
      }
      node := Dict(entries);
    }

    method ReadValue(indent: nat, value: string) returns (node: Node)
      requires i <= |lines|
      modifies this
      ensures Read(node, lines, i) == ParseValue(old(lines), old(i), indent, value)
      ensures i <= |lines|
      decreases |lines| - i, 3
    {
      if BlockHead(value) {
        var text := BlockScalar(value, indent);
        return Scalar(text);
      }
      if IsFlow(value) {
        return FlowSequence(value);
      }
      if value != [] {
        return Scalar(Unquoted(value));
      }
      var end := AtEnd();
      if end || Indent(lines[i]) <= indent {
        return Nothing;
      }
      node := ParseNode(Indent(lines[i]));
    }
  }
}
