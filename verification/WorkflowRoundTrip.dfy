/** Reading back what is written: every tree of mappings, sequences, plain and quoted text, flow
    lists, block scalars and empty values is read as that tree, however it is laid out: any deeper
    column for a nested block, any blanks behind a dash or a colon, blank and comment lines between
    entries, comments behind them. The conditions on texts are the reader's own tests.
 */
module WorkflowRoundTrip {
  import opened WorkflowReader
  import opened WorkflowText

  datatype Tree =
    | Empty
    | Leaf(atom: Atom)
    | Flow(parts: seq<Atom>)
    | Block(head: string, lines: seq<string>)
    | Branch(fields: seq<Field>)
    | Listing(elements: seq<Element>)

  /** How an entry is written: the lines before it, extra blanks behind its colon or dash, what
      stands behind its text, and how much further right than needed its nested block is. */
  datatype Style = Style(before: seq<string>, pad: nat, tail: string, step: nat)

  datatype Field = Field(key: string, value: Tree, style: Style)

  datatype Element = Element(value: Tree, style: Style)

  predicate Nested(t: Tree) {
    t.Branch? || t.Listing?
  }

  predicate EndsInBlock(t: Tree) {
    match t
    case Block(_, _) => true
    case Branch(fields) => fields != [] && EndsInBlock(fields[|fields| - 1].value)
    case Listing(elements) => elements != [] && EndsInBlock(elements[|elements| - 1].value)
    case _ => false
  }

  predicate Blanks(lines: seq<string>) {
    forall k :: 0 <= k < |lines| ==> Content(lines[k]) == []
  }

  /** Lines without content. After a block scalar they would be part of it, unless they start with
      a comment in the first column. */
  predicate BeforeOk(lines: seq<string>, afterBlock: bool) {
    Blanks(lines) && (afterBlock && lines != [] ==> Strip(lines[0]) != [] && Indent(lines[0]) == 0)
  }

  /** A value a key can have. `end`: nothing with content follows it. */
  predicate ValueOk(t: Tree, end: bool)
    decreases t, 0
  {
    match t
    case Empty => true
    case Leaf(atom) => LeafOk(atom)
    case Flow(parts) => PartsOk(parts) && LineOk(FlowText(parts))
    case Block(head, _) => BlockHead(head)
    case Branch(fields) => fields != [] && FieldsOk(fields, false, end)
    case Listing(elements) => elements != [] && ElementsOk(elements, false, end)
  }

  predicate LeafOk(a: Atom) {
    AtomOk(a) && LineOk(AtomText(a)) && !BlockHead(AtomText(a)) && !IsFlow(AtomText(a))
  }

  predicate FieldsOk(fields: seq<Field>, afterBlock: bool, end: bool)
    decreases fields, 0
  {
    fields == [] ||
    (var f := fields[0];
     && BeforeOk(f.style.before, afterBlock) && KeyOk(f.key) && TailOk(FieldText(f), f.style.tail)
     && ValueOk(f.value, end && |fields| == 1) && FieldsOk(fields[1..], EndsInBlock(f.value), end))
  }

  /** A value an item can have: text without a key in it, a nested block, or nothing if nothing
      follows. */
  predicate ItemOk(e: Element, end: bool)
    decreases e, 1
  {
    match e.value
    case Empty => end && TailOk("-", e.style.tail)
    case Leaf(atom) =>
      && AtomOk(atom) && LineOk(AtomText(atom)) && SplitKey(AtomText(atom)).NoPair?
      && TailOk(AtomText(atom), e.style.tail)
    case Branch(fields) => ValueOk(e.value, end) && fields[0].style.before == []
    case Listing(_) => ValueOk(e.value, end) && TailOk("-", e.style.tail)
    case _ => false
  }

  predicate ElementsOk(elements: seq<Element>, afterBlock: bool, end: bool)
    decreases elements, 0
  {
    elements == [] ||
    (var e := elements[0];
     && BeforeOk(e.style.before, afterBlock) && ItemOk(e, end && |elements| == 1)
     && ElementsOk(elements[1..], EndsInBlock(e.value), end))
  }

  // ---------------------------------------------------------------- meaning

  function Meaning(t: Tree): Node
    decreases t
  {
    match t
    case Empty => Nothing
    case Leaf(atom) => Scalar(atom.text)
    case Flow(parts) => Items(Scalars(parts))
    case Block(head, lines) => Scalar(Fold(head, Stripped(lines)))
    case Branch(fields) => Dict(FieldsMeaning(fields, map[]))
    case Listing(elements) => Items(ElementsMeaning(elements))
  }

  /** Quotes around a key are taken off; later fields win, as in the reader's dictionary. */
  function FieldsMeaning(fields: seq<Field>, entries: map<string, Node>): map<string, Node> {
    if fields == [] then entries
    else FieldsMeaning(fields[1..], entries[Unquoted(fields[0].key) := Meaning(fields[0].value)])
  }

  function ElementsMeaning(elements: seq<Element>): seq<Node>
    decreases elements
  {
    if elements == [] then []
    else
      assert elements[0].value < elements[0];
      [Meaning(elements[0].value)] + ElementsMeaning(elements[1..])
  }

  // ---------------------------------------------------------------- layout

  /** What a value writes on its key's line. */
  function ValueText(t: Tree): string {
    match t
    case Leaf(atom) => AtomText(atom)
    case Flow(parts) => FlowText(parts)
    case Block(head, _) => head
    case _ => ""
  }

  function FieldText(f: Field): string {
    if ValueText(f.value) == [] then f.key + ":" else f.key + ":" + Spaces(1 + f.style.pad) + ValueText(f.value)
  }

  function FieldLine(f: Field, indent: nat): string {
    Spaces(indent) + (FieldText(f) + f.style.tail)
  }

  /** A mapping with its keys in column `indent`. */
  function FieldLines(fields: seq<Field>, indent: nat): seq<string>
    decreases fields, 1
  {
    if fields == [] then []
    else fields[0].style.before + ([FieldLine(fields[0], indent)] + FieldRest(fields, indent))
  }

  /** What follows the line of the first field: its block and the other fields. */
  function FieldRest(fields: seq<Field>, indent: nat): seq<string>
    requires fields != []
    decreases fields, 0
  {
    BlockLines(fields[0].value, indent + 1 + fields[0].style.step) + FieldLines(fields[1..], indent)
  }

  /** What a value writes below its key's line, in column `column`. */
  function BlockLines(t: Tree, column: nat): seq<string>
    decreases t, 2
  {
    match t
    case Block(_, lines) => Indented(lines, column)
    case Branch(fields) => FieldLines(fields, column)
    case Listing(elements) => ElementLines(elements, column)
    case _ => []
  }

  /** A sequence with its dashes in column `indent`. */
  function ElementLines(elements: seq<Element>, indent: nat): seq<string>
    decreases elements, 1
  {
    if elements == [] then []
    else
      elements[0].style.before
      + ([ElementLine(elements[0], indent)] + (ElementBlock(elements[0], indent) + ElementLines(elements[1..], indent)))
  }

  /** The text of an element on its dash's line; a mapping starts there. */
  function ElementText(e: Element): string {
    match e.value
    case Leaf(atom) => Dash(e.style.pad) + AtomText(atom)
    case Branch(fields) => if fields == [] then "-" else Dash(e.style.pad) + FieldText(fields[0])
    case _ => "-"
  }

  function ElementLine(e: Element, indent: nat): string {
    var tail := if e.value.Branch? && e.value.fields != [] then e.value.fields[0].style.tail else e.style.tail;
    Spaces(indent) + (ElementText(e) + tail)
  }

  /** The lines of an element below its dash. */
  function ElementBlock(e: Element, indent: nat): seq<string>
    decreases e, 2
  {
    match e.value
    case Branch(fields) => if fields == [] then [] else FieldRest(fields, indent + 2 + e.style.pad)
    case Listing(inner) => ElementLines(inner, indent + 2)
    case _ => []
  }

  // ---------------------------------------------------------------- blank lines

  /** The lines from the first one with content on. */
  function Trim(lines: seq<string>): seq<string> {
    if lines != [] && Content(lines[0]) == [] then Trim(lines[1..]) else lines
  }

  /** The cursor is at `rest`, blank lines aside. */
  predicate At(lines: seq<string>, i: nat, rest: seq<string>) {
    i <= |lines| && Trim(lines[i..]) == Trim(rest)
  }

  lemma {:induction false} SkipIsTrim(lines: seq<string>, i: nat)
    requires i <= |lines|
    ensures lines[SkipBlanks(lines, i)..] == Trim(lines[i..])
    decreases |lines| - i
  {
    hide Content;
    if i < |lines| {
      assert lines[i..][0] == lines[i] && lines[i..][1..] == lines[i + 1..];
      if Content(lines[i]) == [] {
        SkipIsTrim(lines, i + 1);
      }
    }
  }

  lemma {:induction false} TrimBlanks(before: seq<string>, rest: seq<string>)
    requires Blanks(before)
    ensures Trim(before + rest) == Trim(rest)
  {
    hide Content;
    if before == [] {
      assert before + rest == rest;
    } else {
      TrimBlanks(before[1..], rest);
      assert (before + rest)[1..] == before[1..] + rest;
    }
  }

  /** The reader skips to the first line with content. */
  lemma Peel(lines: seq<string>, i: nat, before: seq<string>, first: string, rest: seq<string>)
    requires At(lines, i, before + ([first] + rest)) && Blanks(before) && Content(first) != []
    ensures
      var j := SkipBlanks(lines, i);
      j < |lines| && lines[j] == first && lines[j + 1..] == rest
  {
    hide Content, SkipBlanks, Trim, Blanks;
    TrimBlanks(before, [first] + rest);
    TrimContent(first, rest);
    SkipIsTrim(lines, i);
    TakeFirst(lines, SkipBlanks(lines, i), first, rest);
  }

  lemma TrimContent(first: string, rest: seq<string>)
    requires Content(first) != []
    ensures Trim([first] + rest) == [first] + rest
  {
    hide Content;
  }

  lemma TakeFirst(lines: seq<string>, j: nat, first: string, rest: seq<string>)
    requires j <= |lines| && lines[j..] == [first] + rest
    ensures j < |lines| && lines[j] == first && lines[j + 1..] == rest
  {
    assert lines[j] == lines[j..][0] && lines[j + 1..] == lines[j..][1..];
  }

  lemma AtItself(lines: seq<string>, i: nat)
    requires i <= |lines|
    ensures At(lines, i, lines[i..]) && At(lines, SkipBlanks(lines, i), lines[i..])
  {
    hide Content, SkipBlanks;
    SkipIsTrim(lines, i);
    TrimTwice(lines[i..]);
  }

  lemma {:induction false} TrimTwice(lines: seq<string>)
    ensures Trim(Trim(lines)) == Trim(lines)
  {
    hide Content;
    if lines != [] && Content(lines[0]) == [] {
      TrimTwice(lines[1..]);
    }
  }

  // ---------------------------------------------------------------- what may follow

  /** The next line with content, if any, is left of column `n`. */
  predicate Stops(post: seq<string>, n: nat) {
    Trim(post) == [] || Indent(Trim(post)[0]) < n
  }

  /** The very next line, if any, holds text left of column `n`. */
  predicate Clean(post: seq<string>, n: nat) {
    post == [] || (Strip(post[0]) != [] && Indent(post[0]) < n)
  }

  /** What may follow a block in column `n`. */
  predicate Follows(post: seq<string>, n: nat, afterBlock: bool, end: bool) {
    Stops(post, n) && (afterBlock ==> Clean(post, n + 1)) && (end ==> Trim(post) == [])
  }

  lemma FollowsDeeper(post: seq<string>, n: nat, m: nat, afterBlock: bool, end: bool)
    requires Follows(post, n, afterBlock, end) && n <= m
    ensures Follows(post, m, afterBlock, end)
  {
    hide Trim, Strip, Indent;
  }

  /** What follows an entry: the next entry in its column, or what follows them all. */
  lemma AfterEntry(before: seq<string>, line: string, rest: seq<string>, indent: nat, afterBlock: bool)
    requires BeforeOk(before, afterBlock) && Content(line) != [] && Indent(line) == indent
    ensures Follows(before + ([line] + rest), indent + 1, afterBlock, false)
    ensures afterBlock ==> Clean(before + ([line] + rest), indent + 1)
  {
    hide Indent, Content, Strip;
    TrimBlanks(before, [line] + rest);
    ContentMeansText(line);
  }

  // ---------------------------------------------------------------- single steps of the reader

  predicate LineAt(lines: seq<string>, i: nat, indent: nat, text: string) {
    i < |lines| && Content(lines[i]) == text && Indent(lines[i]) == indent && text != []
  }

  lemma MappingEnds(lines: seq<string>, i: nat, indent: nat, entries: map<string, Node>, post: seq<string>)
    requires At(lines, i, post) && Stops(post, indent)
    ensures ParseMapping(lines, i, indent, entries) == Read(Dict(entries), lines, SkipBlanks(lines, i))
    ensures At(lines, SkipBlanks(lines, i), post)
  {
    hide Content, Indent, ParseValue, SplitKey, Unquoted, SkipBlanks, Trim;
    SkipIsTrim(lines, i);
    AtItself(lines, i);
    var j := SkipBlanks(lines, i);
    assert j < |lines| ==> lines[j..][0] == lines[j];
  }

  lemma SequenceEnds(lines: seq<string>, i: nat, indent: nat, items: seq<Node>, post: seq<string>)
    requires At(lines, i, post) && Stops(post, indent)
    ensures ParseSequence(lines, i, indent, items) == Read(Items(items), lines, SkipBlanks(lines, i))
    ensures At(lines, SkipBlanks(lines, i), post)
  {
    hide Content, Indent, ParseItem, SkipBlanks, Trim;
    SkipIsTrim(lines, i);
    AtItself(lines, i);
    var j := SkipBlanks(lines, i);
    assert j < |lines| ==> lines[j..][0] == lines[j];
  }

  lemma MappingStep(
    lines: seq<string>, i: nat, indent: nat, entries: map<string, Node>, text: string, key: string, value: string)
    requires i <= |lines| && LineAt(lines, SkipBlanks(lines, i), indent, text)
    requires SplitKey(text) == Pair(key, value) && !DashLine(text)
    ensures
      var v := ParseValue(lines, SkipBlanks(lines, i) + 1, indent, value);
      ParseMapping(lines, i, indent, entries) == ParseMapping(v.lines, v.i, indent, entries[Unquoted(key) := v.node])
  {
    hide ParseValue, SplitKey, Unquoted, SkipBlanks, Content, Indent, Elsewhere;
  }

  /** The loop reads the item under the cursor and goes on. */
  lemma SequenceStep(lines: seq<string>, i: nat, indent: nat, items: seq<Node>, text: string)
    requires i <= |lines| && LineAt(lines, SkipBlanks(lines, i), indent, text) && text[0] == '-'
    ensures
      var item := ParseItem(lines, SkipBlanks(lines, i), indent);
      ParseSequence(lines, i, indent, items) == ParseSequence(item.lines, item.i, indent, items + [item.node])
  {
    hide ParseItem, SkipBlanks, Content, Indent, Elsewhere;
  }

  // ---------------------------------------------------------------- texts

  lemma FieldTextOk(f: Field, end: bool)
    requires KeyOk(f.key) && ValueOk(f.value, end)
    ensures LineOk(FieldText(f)) && !DashLine(FieldText(f))
    ensures SplitKey(FieldText(f)) == Pair(f.key, ValueText(f.value))
  {
    hide KeyOk, LineOk, SplitKey, DashLine;
    if ValueText(f.value) == [] {
      KeyAlone(f.key);
    } else {
      ValueTextOk(f.value, end);
      KeyWithValue(f.key, f.style.pad, ValueText(f.value));
    }
  }

  lemma ValueTextOk(t: Tree, end: bool)
    requires ValueOk(t, end) && ValueText(t) != []
    ensures LineOk(ValueText(t))
  {
    hide CommentStart, FlowText;
    if t.Block? {
      NoComment(t.head, 0, ' ');
    }
  }

  /** A text, indented and with its tail, is a line with that column and content. */
  lemma WrittenLine(indent: nat, text: string, tail: string)
    requires LineOk(text) && TailOk(text, tail)
    ensures Content(Spaces(indent) + (text + tail)) == text && Indent(Spaces(indent) + (text + tail)) == indent
    ensures text != []
  {
    hide Content, Indent, Spaces;
    LineIsContent(text);
    assert (text + tail)[0] == text[0];
    IndentedContent(indent, text + tail);
  }

  lemma FieldLineOk(f: Field, indent: nat, end: bool)
    requires KeyOk(f.key) && ValueOk(f.value, end) && TailOk(FieldText(f), f.style.tail)
    ensures Content(FieldLine(f, indent)) == FieldText(f) != [] && Indent(FieldLine(f, indent)) == indent
    ensures !DashLine(FieldText(f)) && SplitKey(FieldText(f)) == Pair(f.key, ValueText(f.value)) && LineOk(FieldText(f))
  {
    hide KeyOk, ValueOk, LineOk, SplitKey, DashLine, Content, Indent, Spaces, FieldText, TailOk;
    FieldTextOk(f, end);
    WrittenLine(indent, FieldText(f), f.style.tail);
  }

  /** A text behind a dash, written out. */
  lemma DashedLine(indent: nat, pad: nat, text: string, tail: string)
    requires LineOk(text) && TailOk(text, tail)
    ensures
      var line := Spaces(indent) + (Dash(pad) + text + tail);
      Content(line) == Dash(pad) + text && Indent(line) == indent
  {
    hide Content, Indent, Spaces, Dash, LineOk, TailOk, LStrip, AfterDash, DashLine;
    DashedText(pad, text, tail);
    assert Dash(pad) + (text + tail) == Dash(pad) + text + tail;
    IndentedContent(indent, Dash(pad) + (text + tail));
  }

  lemma ElementLineOk(e: Element, indent: nat, end: bool)
    requires ItemOk(e, end)
    ensures Content(ElementLine(e, indent)) == ElementText(e) && Indent(ElementLine(e, indent)) == indent
    ensures ElementText(e) != [] && ElementText(e)[0] == '-' && DashLine(ElementText(e))
  {
    hide KeyOk, LineOk, SplitKey, Content, Indent, Spaces, FieldText, TailOk, AtomText, Dash, AtomOk, AfterDash,
         LStrip;
    BareDash();
    match e.value
    case Leaf(atom) =>
      DashedLine(indent, e.style.pad, AtomText(atom), e.style.tail);
      DashedText(e.style.pad, AtomText(atom), e.style.tail);
      DashStarts(e.style.pad, AtomText(atom));
    case Branch(fields) =>
      var f := fields[0];
      assert FieldsOk(fields, false, end);
      FieldTextOk(f, end && |fields| == 1);
      DashedLine(indent, e.style.pad, FieldText(f), f.style.tail);
      DashedText(e.style.pad, FieldText(f), f.style.tail);
      DashStarts(e.style.pad, FieldText(f));
    case _ =>
      WrittenLine(indent, "-", e.style.tail);
  }

  lemma DashStarts(pad: nat, text: string)
    ensures Dash(pad) + text != [] && (Dash(pad) + text)[0] == '-'
  {
  }

  // ---------------------------------------------------------------- mappings

  lemma {:induction false} FieldsRead(
    lines: seq<string>, i: nat, indent: nat, fields: seq<Field>, post: seq<string>, entries: map<string, Node>,
    afterBlock: bool, end: bool)
    requires FieldsOk(fields, afterBlock, end)
    ensures
      && At(lines, i, FieldLines(fields, indent) + post)
      && Follows(post, indent, EndsInBlock(Branch(fields)), end) ==>
        var r := ParseMapping(lines, i, indent, entries);
        r.node == Dict(FieldsMeaning(fields, entries)) && At(r.lines, r.i, post)
    decreases fields, 1
  {
    hide ParseMapping, FieldsOk, Follows, FieldText, BlockLines, FieldRest, SkipBlanks, Content, Indent, Trim;
    if !At(lines, i, FieldLines(fields, indent) + post) || !Follows(post, indent, EndsInBlock(Branch(fields)), end) {
      return;
    }
    if fields == [] {
      assert FieldLines(fields, indent) + post == post;
      FollowsStops(post, indent, false, end);
      MappingEnds(lines, i, indent, entries, post);
    } else {
      FieldPeel(lines, i, indent, fields, post, afterBlock, end);
      MappingSkips(lines, i, indent, entries);
      FirstFieldRead(lines, SkipBlanks(lines, i), indent, fields, post, entries, afterBlock, end);
    }
  }

  lemma MappingSkips(lines: seq<string>, i: nat, indent: nat, entries: map<string, Node>)
    requires i <= |lines|
    ensures ParseMapping(lines, i, indent, entries) == ParseMapping(lines, SkipBlanks(lines, i), indent, entries)
  {
    hide Content, Indent, ParseValue, SplitKey, Unquoted, Elsewhere, SkipBlanks;
    SkipTwice(lines, i);
  }

  predicate AtFirstField(lines: seq<string>, j: nat, indent: nat, fields: seq<Field>, post: seq<string>)
    requires fields != []
  {
    LineAt(lines, j, indent, FieldText(fields[0])) && lines[j + 1..] == FieldRest(fields, indent) + post
  }

  /** The same with the first field under the cursor. The reader is here after it blanked out a
      dash, too: what matters of the line is its column and content. */
  lemma {:induction false} FirstFieldRead(
    lines: seq<string>, j: nat, indent: nat, fields: seq<Field>, post: seq<string>, entries: map<string, Node>,
    afterBlock: bool, end: bool)
    requires fields != [] && FieldsOk(fields, afterBlock, end)
    ensures AtFirstField(lines, j, indent, fields, post) && Follows(post, indent, EndsInBlock(Branch(fields)), end) ==>
      var r := ParseMapping(lines, j, indent, entries);
      r.node == Dict(FieldsMeaning(fields, entries)) && At(r.lines, r.i, post)
    decreases fields, 0
  {
    hide ParseMapping, ParseValue, KeyOk, ValueOk, SplitKey, Follows, FieldText, FieldLine, ValueText, LineOk,
         BlockLines, TailOk, Meaning, DashLine, Unquoted, Elsewhere, SkipBlanks, Content, Indent, Trim, BeforeOk,
         FieldLines, EndsInBlock, Clean;
    if !AtFirstField(lines, j, indent, fields, post) || !Follows(post, indent, EndsInBlock(Branch(fields)), end) {
      return;
    }
    var f, after := fields[0], FieldLines(fields[1..], indent) + post;
    NotSkipped(lines, j);
    FieldLineOk(f, indent, end && |fields| == 1);
    MappingStep(lines, j, indent, entries, FieldText(f), f.key, ValueText(f.value));
    FieldsAfter(fields, indent, post, afterBlock, end);
    var block := BlockLines(f.value, indent + 1 + f.style.step);
    assert block + FieldLines(fields[1..], indent) + post == block + after;
    ValueRead(lines, j + 1, indent, f.style.step, f.value, after, end && |fields| == 1);
    var r := ParseValue(lines, j + 1, indent, ValueText(f.value));
    FieldsRead(r.lines, r.i, indent, fields[1..], post, entries[Unquoted(f.key) := r.node], EndsInBlock(f.value), end);
  }

  lemma NotSkipped(lines: seq<string>, j: nat)
    requires j < |lines| && Content(lines[j]) != []
    ensures SkipBlanks(lines, j) == j
  {
    hide Content;
  }

  lemma FollowsStops(post: seq<string>, n: nat, afterBlock: bool, end: bool)
    requires Follows(post, n, afterBlock, end)
    ensures Stops(post, n)
  {
  }

  lemma FollowsClean(post: seq<string>, n: nat, afterBlock: bool, end: bool)
    requires Follows(post, n, afterBlock, end)
    ensures afterBlock ==> Clean(post, n + 1)
    ensures Follows(post, n, false, end)
  {
  }

  /** The last field is the last of what remains. */
  lemma LastField(fields: seq<Field>)
    requires fields != []
    ensures |fields| > 1 ==> EndsInBlock(Branch(fields)) == EndsInBlock(Branch(fields[1..]))
    ensures |fields| == 1 ==> fields[1..] == [] && EndsInBlock(Branch(fields)) == EndsInBlock(fields[0].value)
    ensures !EndsInBlock(Branch([]))
  {
  }

  lemma FieldPeel(
    lines: seq<string>, i: nat, indent: nat, fields: seq<Field>, post: seq<string>, afterBlock: bool, end: bool)
    requires FieldsOk(fields, afterBlock, end) && fields != []
    ensures At(lines, i, FieldLines(fields, indent) + post) ==>
      AtFirstField(lines, SkipBlanks(lines, i), indent, fields, post)
  {
    hide KeyOk, ValueOk, TailOk, FieldText, FieldLine, FieldRest, SkipBlanks, Content, Indent, Trim, Strip, LineOk,
         SplitKey, DashLine, EndsInBlock;
    if !At(lines, i, FieldLines(fields, indent) + post) {
      return;
    }
    var f, rest := fields[0], FieldRest(fields, indent);
    FieldLineOk(f, indent, end && |fields| == 1);
    Reassociate(f.style.before, [FieldLine(f, indent)], rest, post);
    Peel(lines, i, f.style.before, FieldLine(f, indent), rest + post);
  }

  lemma Reassociate(a: seq<string>, b: seq<string>, c: seq<string>, d: seq<string>)
    ensures a + (b + c) + d == a + (b + (c + d))
  {
  }

  /** What follows the first field's value. */
  lemma FieldsAfter(fields: seq<Field>, indent: nat, post: seq<string>, afterBlock: bool, end: bool)
    requires FieldsOk(fields, afterBlock, end) && fields != []
    requires Follows(post, indent, EndsInBlock(Branch(fields)), end)
    ensures
      var after := FieldLines(fields[1..], indent) + post;
      && Follows(after, indent + 1, EndsInBlock(fields[0].value), end && |fields| == 1)
      && (EndsInBlock(fields[0].value) ==> Clean(after, indent + 1))
    ensures Follows(post, indent, EndsInBlock(Branch(fields[1..])), end)
  {
    hide KeyOk, ValueOk, TailOk, FieldText, FieldLine, BlockLines, Content, Indent, Trim, Strip, EndsInBlock, LineOk,
         SplitKey, DashLine, BeforeOk, Stops, FieldRest, Follows, Clean;
    LastField(fields);
    if |fields| == 1 {
      assert FieldLines(fields[1..], indent) + post == post;
      FollowsDeeper(post, indent, indent + 1, EndsInBlock(fields[0].value), end);
      FollowsClean(post, indent, EndsInBlock(fields[0].value), end);
    } else {
      var g := fields[1];
      FieldLineOk(g, indent, end && |fields[1..]| == 1);
      AfterEntry(g.style.before, FieldLine(g, indent), FieldRest(fields[1..], indent) + post, indent,
                 EndsInBlock(fields[0].value));
      Reassociate(g.style.before, [FieldLine(g, indent)], FieldRest(fields[1..], indent), post);
    }
  }

  // ---------------------------------------------------------------- values

  /** The value behind a key is read as it is meant, and no line with content beyond it. */
  lemma {:induction false} ValueRead(
    lines: seq<string>, i: nat, indent: nat, step: nat, t: Tree, after: seq<string>, end: bool)
    requires ValueOk(t, end) && i <= |lines| && lines[i..] == BlockLines(t, indent + 1 + step) + after
    requires Follows(after, indent + 1, EndsInBlock(t), end) && (EndsInBlock(t) ==> Clean(after, indent + 1))
    ensures
      var r := ParseValue(lines, i, indent, ValueText(t));
      r.node == Meaning(t) && At(r.lines, r.i, after)
    decreases t, 2
  {
    hide Parse, ParseValue, LineOk, AtomText, FlowText, Indented, FieldLines, ElementLines, FieldsOk, ElementsOk,
         FieldsMeaning, ElementsMeaning, LeafOk, PartsOk, Fold, BlockHead, Trim, Content, Indent, Strip, SkipBlanks,
         Stripped, Stops;
    if !Nested(t) && !t.Block? {
      assert [] + after == after;
      AtItself(lines, i);
    }
    match t
    case Empty => NothingRead(lines, i, indent, after);
    case Leaf(atom) => LeafRead(lines, i, indent, atom);
    case Flow(parts) => FlowRead(lines, i, indent, parts);
    case Block(head, blockLines) =>
      BlockScalarRead(lines, i, indent, indent + 1 + step, head, blockLines, after);
      AtItself(lines, i + |blockLines|);
    case _ =>
      FollowsDeeper(after, indent + 1, indent + 1 + step, EndsInBlock(t), end);
      AtItself(lines, i);
      BlockRead(lines, i, indent + 1 + step, t, after, end);
      NestedValue(lines, i, indent, indent + 1 + step, t, after, end);
  }

  lemma NothingRead(lines: seq<string>, i: nat, indent: nat, after: seq<string>)
    requires i <= |lines| && lines[i..] == after && Stops(after, indent + 1)
    ensures ParseValue(lines, i, indent, "") == Read(Nothing, lines, SkipBlanks(lines, i))
  {
    hide Parse, Content, Indent, SkipBlanks, Trim;
    SkipIsTrim(lines, i);
    var j := SkipBlanks(lines, i);
    assert j < |lines| ==> lines[j..][0] == lines[j];
  }

  lemma LeafRead(lines: seq<string>, i: nat, indent: nat, atom: Atom)
    requires i <= |lines| && LeafOk(atom)
    ensures ParseValue(lines, i, indent, AtomText(atom)) == Read(Scalar(atom.text), lines, i)
  {
    hide Parse, AtomText, AtomOk, LineOk, BlockHead, IsFlow, Unquoted;
    AtomReads(atom);
  }

  lemma FlowRead(lines: seq<string>, i: nat, indent: nat, parts: seq<Atom>)
    requires i <= |lines| && PartsOk(parts)
    ensures ParseValue(lines, i, indent, FlowText(parts)) == Read(Items(Scalars(parts)), lines, i)
  {
    hide Parse, FlowText, PartsOk, BlockHead, IsFlow, FlowSequence;
    FlowReads(parts);
  }

  lemma BlockScalarRead(
    lines: seq<string>, i: nat, indent: nat, column: nat, head: string, blockLines: seq<string>, after: seq<string>)
    requires i <= |lines| && BlockHead(head) && column > indent
    requires lines[i..] == Indented(blockLines, column) + after && Clean(after, indent + 1)
    ensures ParseValue(lines, i, indent, head) ==
            Read(Scalar(Fold(head, Stripped(blockLines))), lines, i + |blockLines|)
    ensures lines[i + |blockLines|..] == after
  {
    hide Parse, BlockHead, Fold, Indented, Indent, Strip, BlockEnd, Stripped;
    BlockReads(lines, i, indent, column, blockLines, after);
  }

  lemma NestedValue(
    lines: seq<string>, i: nat, indent: nat, column: nat, t: Tree, after: seq<string>, end: bool)
    requires ValueOk(t, end) && Nested(t) && column > indent && At(lines, i, BlockLines(t, column) + after)
    ensures ParseValue(lines, i, indent, "") == Parse(lines, SkipBlanks(lines, i), column)
  {
    hide Parse, SkipBlanks, Content, Indent, ValueOk, BlockLines, Trim, DashLine;
    BlockStart(lines, i, column, t, after, end);
  }

  /** A nested block starts with a line of its own, in its own column. */
  lemma BlockStart(lines: seq<string>, i: nat, column: nat, t: Tree, after: seq<string>, end: bool)
    requires ValueOk(t, end) && Nested(t)
    ensures At(lines, i, BlockLines(t, column) + after) ==>
      var j := SkipBlanks(lines, i);
      j < |lines| && Indent(lines[j]) == column && (t.Listing? <==> DashLine(Content(lines[j])))
  {
    hide SkipBlanks, Content, Indent, Trim, FieldText, FieldLine, ElementLine, ElementText, ElementBlock, KeyOk,
         TailOk, LineOk, SplitKey, DashLine, ItemOk, Strip, EndsInBlock, FieldRest;
    if !At(lines, i, BlockLines(t, column) + after) {
      return;
    }
    if t.Branch? {
      var f := t.fields[0];
      FieldLineOk(f, column, end && |t.fields| == 1);
      assert BlockLines(t, column) + after ==
             f.style.before + ([FieldLine(f, column)] + (FieldRest(t.fields, column) + after));
      Peel(lines, i, f.style.before, FieldLine(f, column), FieldRest(t.fields, column) + after);
    } else {
      var e := t.elements[0];
      var rest := ElementBlock(e, column) + ElementLines(t.elements[1..], column);
      ElementLineOk(e, column, end && |t.elements| == 1);
      assert BlockLines(t, column) + after == e.style.before + ([ElementLine(e, column)] + (rest + after));
      Peel(lines, i, e.style.before, ElementLine(e, column), rest + after);
    }
  }

  lemma {:induction false} BlockRead(
    lines: seq<string>, i: nat, column: nat, t: Tree, post: seq<string>, end: bool)
    requires ValueOk(t, end) && Nested(t) && At(lines, i, BlockLines(t, column) + post)
    requires Follows(post, column, EndsInBlock(t), end)
    ensures
      var r := Parse(lines, SkipBlanks(lines, i), column);
      r.node == Meaning(t) && At(r.lines, r.i, post)
    decreases t, 1
  {
    hide ParseMapping, ParseSequence, SkipBlanks, Content, Indent, Follows, FieldsOk, ElementsOk, FieldLines,
         ElementLines, FieldsMeaning, ElementsMeaning, DashLine, Elsewhere, Trim, EndsInBlock;
    var j := SkipBlanks(lines, i);
    BlockStart(lines, i, column, t, post, end);
    SkipTwice(lines, i);
    AtLater(lines, i, BlockLines(t, column) + post);
    if t.Branch? {
      FieldsRead(lines, j, column, t.fields, post, map[], false, end);
    } else {
      ElementsRead(lines, j, column, t.elements, post, [], false, end);
      assert [] + ElementsMeaning(t.elements) == ElementsMeaning(t.elements);
    }
  }

  lemma AtLater(lines: seq<string>, i: nat, rest: seq<string>)
    requires At(lines, i, rest)
    ensures At(lines, SkipBlanks(lines, i), rest)
  {
    hide SkipBlanks, Trim;
    AtItself(lines, i);
  }

  // ---------------------------------------------------------------- sequences

  lemma {:induction false} ElementsRead(
    lines: seq<string>, i: nat, indent: nat, elements: seq<Element>, post: seq<string>, items: seq<Node>,
    afterBlock: bool, end: bool)
    requires ElementsOk(elements, afterBlock, end) && At(lines, i, ElementLines(elements, indent) + post)
    requires Follows(post, indent, EndsInBlock(Listing(elements)), end)
    ensures
      var r := ParseSequence(lines, i, indent, items);
      r.node == Items(items + ElementsMeaning(elements)) && At(r.lines, r.i, post)
    decreases elements, 0
  {
    hide ParseSequence, ParseItem, ItemOk, Follows, ElementText, ElementLine, ElementBlock, Meaning, Elsewhere,
         SkipBlanks, Content, Indent, Trim, BeforeOk, DashLine;
    if elements == [] {
      assert ElementLines(elements, indent) + post == post && items + [] == items;
      FollowsStops(post, indent, false, end);
      SequenceEnds(lines, i, indent, items, post);
    } else {
      var e, after := elements[0], ElementLines(elements[1..], indent) + post;
      assert items + ElementsMeaning(elements) == items + [Meaning(e.value)] + ElementsMeaning(elements[1..]);
      ElementLineOk(e, indent, end && |elements| == 1);
      ElementPeel(lines, i, indent, elements, post, afterBlock, end);
      var j := SkipBlanks(lines, i);
      SequenceStep(lines, i, indent, items, ElementText(e));
      ElementsAfter(elements, indent, post, afterBlock, end);
      ItemRead(lines, j, indent, e, after, end && |elements| == 1);
      var r := ParseItem(lines, j, indent);
      LastElement(elements);
      ElementsRead(r.lines, r.i, indent, elements[1..], post, items + [r.node], EndsInBlock(e.value), end);
    }
  }

  lemma LastElement(elements: seq<Element>)
    requires elements != []
    ensures |elements| > 1 ==> EndsInBlock(Listing(elements)) == EndsInBlock(Listing(elements[1..]))
    ensures |elements| == 1 ==>
      elements[1..] == [] && EndsInBlock(Listing(elements)) == EndsInBlock(elements[0].value)
    ensures !EndsInBlock(Listing([]))
  {
  }

  lemma ElementPeel(
    lines: seq<string>, i: nat, indent: nat, elements: seq<Element>, post: seq<string>, afterBlock: bool, end: bool)
    requires ElementsOk(elements, afterBlock, end) && elements != []
    ensures At(lines, i, ElementLines(elements, indent) + post) ==>
      var j := SkipBlanks(lines, i);
      && LineAt(lines, j, indent, ElementText(elements[0]))
      && lines[j + 1..] == ElementBlock(elements[0], indent) + (ElementLines(elements[1..], indent) + post)
  {
    hide ItemOk, ElementText, ElementLine, ElementBlock, SkipBlanks, Content, Indent, Trim, Strip, DashLine,
         EndsInBlock;
    if !At(lines, i, ElementLines(elements, indent) + post) {
      return;
    }
    var e := elements[0];
    var block, rest := ElementBlock(e, indent), ElementLines(elements[1..], indent);
    ElementLineOk(e, indent, end && |elements| == 1);
    Reassociate(e.style.before, [ElementLine(e, indent)], block + rest, post);
    Peel(lines, i, e.style.before, ElementLine(e, indent), block + rest + post);
    assert block + rest + post == block + (rest + post);
  }

  /** What follows the first element. */
  lemma ElementsAfter(elements: seq<Element>, indent: nat, post: seq<string>, afterBlock: bool, end: bool)
    requires ElementsOk(elements, afterBlock, end) && elements != []
    requires Follows(post, indent, EndsInBlock(Listing(elements)), end)
    ensures
      var after := ElementLines(elements[1..], indent) + post;
      && Follows(after, indent + 1, EndsInBlock(elements[0].value), end && |elements| == 1)
    ensures Follows(post, indent, EndsInBlock(Listing(elements[1..])), end)
  {
    hide ItemOk, ElementText, ElementLine, ElementBlock, Content, Indent, Trim, Strip, EndsInBlock, DashLine,
         BeforeOk, Stops;
    LastElement(elements);
    if |elements| == 1 {
      assert ElementLines(elements[1..], indent) + post == post;
      FollowsDeeper(post, indent, indent + 1, EndsInBlock(elements[0].value), end);
    } else {
      var g := elements[1];
      var rest := ElementBlock(g, indent) + ElementLines(elements[1..][1..], indent);
      ElementLineOk(g, indent, end && |elements[1..]| == 1);
      AfterEntry(g.style.before, ElementLine(g, indent), rest + post, indent, EndsInBlock(elements[0].value));
      Reassociate(g.style.before, [ElementLine(g, indent)], rest, post);
    }
  }

  /** One item, its dash under the cursor. */
  lemma {:induction false} ItemRead(lines: seq<string>, j: nat, indent: nat, e: Element, after: seq<string>, end: bool)
    requires ItemOk(e, end) && LineAt(lines, j, indent, ElementText(e))
    requires lines[j + 1..] == ElementBlock(e, indent) + after
    requires Follows(after, indent + 1, EndsInBlock(e.value), end)
    ensures
      var r := ParseItem(lines, j, indent);
      r.node == Meaning(e.value) && At(r.lines, r.i, after)
    decreases e, 3
  {
    hide ParseItem, Meaning, Elsewhere, Content, Indent, Trim, Dash, FieldText, KeyOk, LineOk, TailOk, SplitKey,
         AtomOk, AtomText, ValueOk, FieldLines, FieldRest, ElementLines, EndsInBlock;
    match e.value
    case Empty =>
      assert [] + after == after;
      EmptyItemRead(lines, j, indent, e, after);
    case Leaf(atom) =>
      assert [] + after == after;
      LeafItemRead(lines, j, indent, e, after);
    case Listing(_) => ListingItemRead(lines, j, indent, e, after, end);
    case Branch(_) => BranchItemRead(lines, j, indent, e, after, end);
  }

  lemma EmptyItemRead(lines: seq<string>, j: nat, indent: nat, e: Element, after: seq<string>)
    requires e.value.Empty? && LineAt(lines, j, indent, "-") && lines[j + 1..] == after && Trim(after) == []
    ensures
      var r := ParseItem(lines, j, indent);
      r.node == Meaning(e.value) && At(r.lines, r.i, after)
  {
    hide SkipBlanks, Content, Indent, Parse, ParseMapping, AfterDash;
    BareDash();
    SkipIsTrim(lines, j + 1);
    assert lines[|lines|..] == [];
  }

  lemma LeafItemRead(lines: seq<string>, j: nat, indent: nat, e: Element, after: seq<string>)
    requires e.value.Leaf? && AtomOk(e.value.atom) && LineOk(AtomText(e.value.atom))
    requires SplitKey(AtomText(e.value.atom)).NoPair? && TailOk(AtomText(e.value.atom), e.style.tail)
    requires LineAt(lines, j, indent, ElementText(e)) && lines[j + 1..] == after
    ensures
      var r := ParseItem(lines, j, indent);
      r.node == Meaning(e.value) && At(r.lines, r.i, after)
  {
    hide Content, Indent, Parse, ParseMapping, AfterDash, LineOk, TailOk, AtomText, AtomOk, SplitKey, Unquoted,
         LStrip, Dash, DashLine, SkipBlanks, Undashed, Trim;
    DashedText(e.style.pad, AtomText(e.value.atom), e.style.tail);
    AtomReads(e.value.atom);
  }

  lemma {:induction false} ListingItemRead(
    lines: seq<string>, j: nat, indent: nat, e: Element, after: seq<string>, end: bool)
    requires e.value.Listing? && ValueOk(e.value, end) && LineAt(lines, j, indent, "-")
    requires lines[j + 1..] == ElementBlock(e, indent) + after && Follows(after, indent + 1, EndsInBlock(e.value), end)
    ensures
      var r := ParseItem(lines, j, indent);
      r.node == Meaning(e.value) && At(r.lines, r.i, after)
    decreases e, 2
  {
    hide Content, Indent, Parse, ParseMapping, AfterDash, SkipBlanks, Trim, ValueOk, Meaning, ElementLines, Follows,
         EndsInBlock, Undashed, SplitKey, DashLine;
    BareDash();
    FollowsDeeper(after, indent + 1, indent + 2, EndsInBlock(e.value), end);
    AtItself(lines, j + 1);
    BlockStart(lines, j + 1, indent + 2, e.value, after, end);
    BlockRead(lines, j + 1, indent + 2, e.value, after, end);
  }

  lemma {:induction false} BranchItemRead(
    lines: seq<string>, j: nat, indent: nat, e: Element, after: seq<string>, end: bool)
    requires e.value.Branch? && ValueOk(e.value, end) && e.value.fields[0].style.before == []
    requires LineAt(lines, j, indent, ElementText(e)) && lines[j + 1..] == ElementBlock(e, indent) + after
    requires Follows(after, indent + 1, EndsInBlock(e.value), end)
    ensures
      var r := ParseItem(lines, j, indent);
      r.node == Meaning(e.value) && At(r.lines, r.i, after)
    decreases e, 2
  {
    hide Content, Indent, ParseItem, ParseMapping, AfterDash, SkipBlanks, Trim, FieldsOk, FieldsMeaning, FieldRest,
         Follows, EndsInBlock, SplitKey, DashLine, FieldText, Dash, FieldLines, Spaces;
    var fields, column := e.value.fields, indent + 2 + e.style.pad;
    DashKeyItem(lines, j, indent, e, end);
    var u := lines[j := Spaces(column) + FieldText(fields[0])];
    assert u[j + 1..] == lines[j + 1..];
    FollowsDeeper(after, indent + 1, column, EndsInBlock(e.value), end);
    FirstFieldRead(u, j, column, fields, after, map[], false, end);
  }

  /** A dash with a key behind it: the reader goes on with the key in its own column. */
  lemma DashKeyItem(lines: seq<string>, j: nat, indent: nat, e: Element, end: bool)
    requires e.value.Branch? && ValueOk(e.value, end) && LineAt(lines, j, indent, ElementText(e))
    ensures
      var column, text := indent + 2 + e.style.pad, FieldText(e.value.fields[0]);
      var u := lines[j := Spaces(column) + text];
      ParseItem(lines, j, indent) == ParseMapping(u, j, column, map[]) && LineAt(u, j, column, text)
  {
    hide Content, Indent, ParseMapping, AfterDash, SkipBlanks, SplitKey, DashLine, FieldText, Dash, Spaces, LineOk,
         KeyOk, TailOk, LStrip, Undashed, Parse, Unquoted;
    var f := e.value.fields[0];
    assert FieldsOk(e.value.fields, false, end);
    FieldTextOk(f, end && |e.value.fields| == 1);
    DashedText(e.style.pad, FieldText(f), f.style.tail);
    DashClosed(e.style.pad);
    NoTail(FieldText(f));
    WrittenLine(indent + 2 + e.style.pad, FieldText(f), "");
    assert FieldText(f) + "" == FieldText(f);
    UndashedIs(lines, j);
  }

  // ---------------------------------------------------------------- the round trip

  /** Every tree, written from the first column in any of these styles, is read back as itself, to
      the last line. */
  lemma RoundTrip(t: Tree, trailing: seq<string>)
    requires ValueOk(t, true) && Nested(t) && BeforeOk(trailing, EndsInBlock(t))
    ensures
      var lines := BlockLines(t, 0) + trailing;
      var r := Parse(lines, 0, 0);
      r.node == Meaning(t) && r.i == |lines|
  {
    hide Parse, BlockLines, Meaning, ValueOk, Content, Indent, SkipBlanks, EndsInBlock, Strip;
    var lines := BlockLines(t, 0) + trailing;
    assert lines[0..] == lines && trailing + [] == trailing;
    AtItself(lines, 0);
    TrimBlanks(trailing, []);
    BlockRead(lines, 0, 0, t, trailing, true);
    ParseSkips(lines, 0, 0);
    ReadReachesEndOrStray(lines, 0, 0);
    var r := Parse(lines, 0, 0);
    if r.i < |lines| {
      StrayIsContent(r.lines, r.i);
    }
  }

  lemma StrayIsContent(lines: seq<string>, i: nat)
    requires i < |lines|
    ensures Content(lines[i]) != [] ==> Trim(lines[i..]) != []
  {
    hide Content;
    assert lines[i..][0] == lines[i];
  }

  // ---------------------------------------------------------------- what items cannot hold

  /** Whatever stands behind a dash and is no key is text to the reader. */
  lemma ItemTextIsText(lines: seq<string>, j: nat, indent: nat, pad: nat, text: string)
    requires LineAt(lines, j, indent, Dash(pad) + text) && LineOk(text) && SplitKey(text).NoPair?
    ensures ParseItem(lines, j, indent) == Read(Scalar(Unquoted(text)), lines, j + 1)
  {
    hide Parse, ParseMapping, Content, Indent, SplitKey, Unquoted, AfterDash, LineOk, Dash, SkipBlanks, Undashed,
         LStrip, DashLine, TailOk;
    NoTail(text);
    LineIsContent(text);
    DashedText(pad, text, "");
  }

  /** So a flow list or the head of a block scalar behind a dash is read as the text it is. */
  lemma MarkedItemIsText(lines: seq<string>, j: nat, indent: nat, pad: nat, text: string)
    requires LineAt(lines, j, indent, Dash(pad) + text) && LineOk(text) && SplitKey(text).NoPair?
    requires IsFlow(text) || BlockHead(text)
    ensures ParseItem(lines, j, indent) == Read(Scalar(text), lines, j + 1)
  {
    hide ParseItem, Content, Indent, SplitKey, Dash, CommentStart, Strip, IsSpace;
    ItemTextIsText(lines, j, indent, pad, text);
    StripClean(text);
    MarkIsNoQuote(text);
  }

  lemma MarkIsNoQuote(text: string)
    requires IsFlow(text) || BlockHead(text)
    ensures text != [] && !IsQuote(text[0])
  {
    assert forall head :: head in ["|", ">", "|-", ">-", "|+", ">+"] ==> head[0] == '|' || head[0] == '>';
  }

  /** What a dash with nothing behind it is read as, in every file. Nothing, exactly when no line with
      content follows. Otherwise the reader looks two columns further in; if the next line is not
      there, it reads an empty list before a dash and an empty mapping before anything else. */
  lemma BareDashIs(lines: seq<string>, j: nat)
    requires j < |lines| && Content(lines[j]) == "-"
    ensures
      var k, r := SkipBlanks(lines, j + 1), ParseItem(lines, j, Indent(lines[j]));
      && (r.node == Nothing <==> k == |lines|)
      && (r.node.Items? <==> k < |lines| && DashLine(Content(lines[k])))
      && (r.node.Dict? <==> k < |lines| && !DashLine(Content(lines[k])))
      && (r.node == Items([]) <==>
            k < |lines| && DashLine(Content(lines[k])) && Indent(lines[k]) != Indent(lines[j]) + 2)
      && (k < |lines| && !DashLine(Content(lines[k])) && Indent(lines[k]) != Indent(lines[j]) + 2 ==>
            r == Read(Dict(map[]), lines, k))
  {
    hide Content, Indent, SkipBlanks, ParseMapping, ParseSequence, AfterDash, DashLine, SplitKey, Undashed, Unquoted;
    BareDash();
    var k, column := SkipBlanks(lines, j + 1), Indent(lines[j]) + 2;
    if k < |lines| {
      SkipTwice(lines, j + 1);
      SequenceKeepsItems(lines, k, column, []);
      FirstItem(lines, k, column);
      MappingIsDict(lines, k, column, map[]);
      NoFirstKey(lines, k, column);
    }
  }

  lemma {:induction false} SequenceKeepsItems(lines: seq<string>, i: nat, indent: nat, items: seq<Node>)
    requires i <= |lines|
    ensures
      var r := ParseSequence(lines, i, indent, items);
      r.node.Items? && items <= r.node.items
    decreases |lines| - i, if i < |lines| && Indent(lines[i]) == indent then 1 else 0
  {
    hide Content, Indent, ParseItem, Elsewhere;
    var j := SkipBlanks(lines, i);
    if j < |lines| && Indent(lines[j]) == indent && Content(lines[j])[0] == '-' {
      var item := ParseItem(lines, j, indent);
      SequenceKeepsItems(item.lines, item.i, indent, items + [item.node]);
    }
  }

  /** A dash in its column is an item. */
  lemma FirstItem(lines: seq<string>, k: nat, indent: nat)
    requires k < |lines| && Content(lines[k]) != []
    ensures DashLine(Content(lines[k])) ==>
      (ParseSequence(lines, k, indent, []).node == Items([]) <==> Indent(lines[k]) != indent)
  {
    hide Content, Indent, ParseItem, Elsewhere;
    NotSkipped(lines, k);
    if DashLine(Content(lines[k])) && Indent(lines[k]) == indent {
      var item := ParseItem(lines, k, indent);
      SequenceKeepsItems(item.lines, item.i, indent, [item.node]);
      assert [] + [item.node] == [item.node];
    }
  }

  lemma {:induction false} MappingIsDict(lines: seq<string>, i: nat, indent: nat, entries: map<string, Node>)
    requires i <= |lines|
    ensures ParseMapping(lines, i, indent, entries).node.Dict?
    decreases |lines| - i
  {
    hide Content, Indent, ParseValue, SplitKey, Unquoted, Elsewhere;
    var j := SkipBlanks(lines, i);
    if j < |lines| && Indent(lines[j]) == indent && !("- " <= Content(lines[j])) {
      var pair := SplitKey(Content(lines[j]));
      if pair.NoPair? {
        MappingIsDict(lines, j + 1, indent, entries);
      } else {
        var value := ParseValue(lines, j + 1, indent, pair.value);
        MappingIsDict(value.lines, value.i, indent, entries[Unquoted(pair.key) := value.node]);
      }
    }
  }

  lemma NoFirstKey(lines: seq<string>, k: nat, indent: nat)
    requires k < |lines| && Content(lines[k]) != []
    ensures Indent(lines[k]) != indent ==> ParseMapping(lines, k, indent, map[]) == Read(Dict(map[]), lines, k)
  {
    hide Content, Indent, ParseValue, SplitKey, Unquoted, Elsewhere;
    NotSkipped(lines, k);
  }

  /** A key whose items stand in its own column, as YAML allows, is read as if it had no value. */
  lemma KeyBeforeDashIsEmpty(lines: seq<string>, i: nat, indent: nat)
    requires i <= |lines| && SkipBlanks(lines, i) < |lines| && Indent(lines[SkipBlanks(lines, i)]) == indent
    ensures ParseValue(lines, i, indent, "").node == Nothing
  {
    hide Parse, SkipBlanks, Indent;
  }

  // ---------------------------------------------------------------- instances

  /** Texts with an inner colon, an inner hash or a leading dash need no quotes, behind a key or a
      dash. */
  lemma UnquotedSpellings(text: string, style: Style)
    requires text in ["docker://x", "a#b", "-1"] && TailOk(text, style.tail)
    ensures LeafOk(Bare(text)) && ItemOk(Element(Leaf(Bare(text)), style), false)
  {
    hide LineOk, LeafOk, ItemOk, SplitKey, AtomOk, CommentStart, KeyEnd, TailOk;
    NoComment("docker://x", 0, ' ');
    NoComment("-1", 0, ' ');
    InnerHash();
    InnerColon();
    NoColon("a#b", 0, ' ');
    NoColon("-1", 0, ' ');
    Unmarked(text, style);
  }

  /** Text that starts with none of the reader's marks. */
  lemma Unmarked(text: string, style: Style)
    requires text != [] && CleanEnds(text) && text[0] !in "[|>'\"" && CommentStart(text, 0, ' ') == |text|
    requires KeyEnd(text, 0, ' ') == |text| && TailOk(text, style.tail)
    ensures LeafOk(Bare(text)) && ItemOk(Element(Leaf(Bare(text)), style), false)
  {
    hide CommentStart, KeyEnd, Strip, IsSpace, TailOk;
    StripClean(text);
    assert !BlockHead(text) by {
      assert forall head :: head in ["|", ">", "|-", ">-", "|+", ">+"] ==> head[0] in "|>";
    }
  }

  lemma {:induction false} NoColon(text: string, i: nat, quote: char)
    requires i <= |text| && ':' !in text
    ensures KeyEnd(text, i, quote) == |text|
    decreases |text| - i
  {
    if i < |text| {
      assert text[i] in text;
      NoColon(text, i + 1, Quoting(quote, text[i]));
    }
  }

  lemma InnerHash()
    ensures CommentStart("a#b", 0, ' ') == 3
  {
    assert CommentStart("a#b", 3, ' ') == 3;
    assert CommentStart("a#b", 2, ' ') == 3;
    assert CommentStart("a#b", 1, ' ') == 3;
  }

  lemma InnerColon()
    ensures KeyEnd("docker://x", 0, ' ') == 10
  {
    var t := "docker://x";
    assert KeyEnd(t, 10, ' ') == 10;
    assert KeyEnd(t, 9, ' ') == 10;
    assert KeyEnd(t, 8, ' ') == 10;
    assert KeyEnd(t, 7, ' ') == 10;
    assert KeyEnd(t, 6, ' ') == 10;
    assert KeyEnd(t, 5, ' ') == 10;
    assert KeyEnd(t, 4, ' ') == 10;
    assert KeyEnd(t, 3, ' ') == 10;
    assert KeyEnd(t, 2, ' ') == 10;
    assert KeyEnd(t, 1, ' ') == 10;
  }

  /** A condition folded over any lines is read as if it stood on its key's line. */
  lemma FoldedConditionReadsAsOneLine(key: string, lines: seq<string>, style: Style, other: Style)
    requires KeyOk(key) && BeforeOk(style.before, false) && BeforeOk(other.before, false)
    requires LeafOk(Bare(Fold(">-", Stripped(lines))))
    requires TailOk(FieldText(Field(key, Block(">-", lines), style)), style.tail)
    requires TailOk(FieldText(Field(key, Leaf(Bare(Fold(">-", Stripped(lines)))), other)), other.tail)
    ensures
      var folded := Branch([Field(key, Block(">-", lines), style)]);
      var inline := Branch([Field(key, Leaf(Bare(Fold(">-", Stripped(lines)))), other)]);
      Parse(BlockLines(folded, 0), 0, 0).node == Parse(BlockLines(inline, 0), 0, 0).node
  {
    hide Parse, BlockLines, KeyOk, LeafOk, Fold, Stripped, FieldText, BeforeOk, TailOk;
    var folded := [Field(key, Block(">-", lines), style)];
    var inline := [Field(key, Leaf(Bare(Fold(">-", Stripped(lines)))), other)];
    OneField(folded[0]);
    OneField(inline[0]);
    NothingTrails();
    RoundTrip(Branch(folded), []);
    RoundTrip(Branch(inline), []);
    assert BlockLines(Branch(folded), 0) + [] == BlockLines(Branch(folded), 0);
    assert BlockLines(Branch(inline), 0) + [] == BlockLines(Branch(inline), 0);
  }

  /** A mapping of one field. */
  lemma OneField(f: Field)
    requires BeforeOk(f.style.before, false) && KeyOk(f.key) && TailOk(FieldText(f), f.style.tail)
    requires ValueOk(f.value, true)
    ensures ValueOk(Branch([f]), true)
    ensures Meaning(Branch([f])) == Dict(map[Unquoted(f.key) := Meaning(f.value)])
  {
    hide KeyOk, FieldText, BeforeOk, TailOk, Unquoted, EndsInBlock;
    var fields := [f];
    assert fields[1..] == [];
    assert FieldsOk(fields[1..], EndsInBlock(f.value), true);
    assert FieldsOk(fields, false, true);
    assert FieldsMeaning(fields, map[]) == map[Unquoted(f.key) := Meaning(f.value)];
  }

  lemma NothingTrails()
    ensures BeforeOk([], true) && BeforeOk([], false)
  {
  }
}
