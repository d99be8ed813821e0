/** What the workflow reader's text functions do to text that is put together: comments, keys and
    dashes, and the values written in place: plain and quoted text, flow lists and block scalars.
 */
module WorkflowText {
  import opened WorkflowReader

  // ---------------------------------------------------------------- blanks

  lemma LStripSpaces(n: nat, s: string)
    requires s == [] || !IsSpace(s[0])
    ensures LStrip(Spaces(n) + s) == s
  {
    LStripIndented(n, s);
  }

  predicate CleanEnds(s: string) {
    s == [] || (!IsSpace(s[0]) && !IsSpace(s[|s| - 1]))
  }

  lemma StripClean(s: string)
    requires CleanEnds(s)
    ensures Strip(s) == s && LStrip(s) == s
  {
  }

  lemma {:induction false} LStripIndented(n: nat, s: string)
    ensures LStrip(Spaces(n) + s) == LStrip(s)
  {
    if n > 0 {
      LStripIndented(n - 1, s);
      assert (Spaces(n) + s)[1..] == Spaces(n - 1) + s;
    } else {
      assert Spaces(0) + s == s;
    }
  }

  lemma StripIndented(n: nat, s: string)
    ensures Strip(Spaces(n) + s) == Strip(s)
  {
    hide LStrip, RStrip, Spaces;
    LStripIndented(n, s);
  }

  lemma {:induction false} RStripBehind(pre: string, s: string)
    requires RStrip(s) != []
    ensures RStrip(pre + s) == pre + RStrip(s)
  {
    hide IsSpace;
    if IsSpace(s[|s| - 1]) {
      RStripBehind(pre, s[..|s| - 1]);
      assert (pre + s)[..|pre + s| - 1] == pre + s[..|s| - 1];
    }
  }

  predicate Blank(s: string) {
    forall i :: 0 <= i < |s| ==> IsSpace(s[i])
  }

  lemma {:induction false} LStripBlank(s: string)
    ensures LStrip(s) == [] <==> Blank(s)
  {
    hide IsSpace;
    if s != [] {
      LStripBlank(s[1..]);
      assert s == [s[0]] + s[1..];
    }
  }

  lemma {:induction false} RStripKeeps(s: string)
    requires s != [] && !IsSpace(s[0])
    ensures RStrip(s) != []
  {
    hide IsSpace;
    if IsSpace(s[|s| - 1]) {
      RStripKeeps(s[..|s| - 1]);
    }
  }

  lemma StripBlank(s: string)
    ensures Strip(s) == [] <==> Blank(s)
  {
    hide IsSpace, LStrip, RStrip, Blank;
    LStripBlank(s);
    if LStrip(s) != [] {
      RStripKeeps(LStrip(s));
    }
  }

  /** A line with content is not blank. */
  lemma ContentMeansText(line: string)
    requires Content(line) != []
    ensures Strip(line) != []
  {
    hide Strip, CommentStart;
    StripBlank(line);
    StripBlank(StripComment(line));
  }

  /** A line that belongs to a block scalar whose key stands in column `parent`. */
  predicate InBlock(line: string, parent: nat) {
    Strip(line) == [] || Indent(line) > parent
  }

  // ---------------------------------------------------------------- comments

  /** The quote state after the characters from position `i`. */
  function QuoteFrom(text: string, i: nat, quote: char): char
    requires i <= |text|
    decreases |text| - i
  {
    if i == |text| then quote else QuoteFrom(text, i + 1, Quoting(quote, text[i]))
  }

  /** A line's text: starts and ends with something and holds no comment. */
  predicate LineOk(s: string) {
    s != [] && CleanEnds(s) && CommentStart(s, 0, ' ') == |s|
  }

  /** Text that holds no comment and leaves no quote open. */
  predicate Closed(s: string) {
    CommentStart(s, 0, ' ') == |s| && QuoteFrom(s, 0, ' ') == ' '
  }

  lemma {:induction false} NoComment(text: string, i: nat, quote: char)
    requires i <= |text| && forall k :: 0 <= k < |text| ==> text[k] != '#'
    ensures CommentStart(text, i, quote) == |text|
    decreases |text| - i
  {
    if i < |text| {
      NoComment(text, i + 1, Quoting(quote, text[i]));
    }
  }

  lemma {:induction false} CommentThrough(pre: string, s: string, i: nat, quote: char)
    requires i <= |pre| && CommentStart(pre, i, quote) == |pre|
    ensures CommentStart(pre + s, i, quote) == CommentStart(pre + s, |pre|, QuoteFrom(pre, i, quote))
    decreases |pre| - i
  {
    if i < |pre| {
      CommentThrough(pre, s, i + 1, Quoting(quote, pre[i]));
    }
  }

  lemma {:induction false} CommentShift(pre: string, s: string, i: nat, quote: char)
    requires i <= |s| && (i == 0 && s != [] ==> s[0] != '#')
    ensures CommentStart(pre + s, |pre| + i, quote) == |pre| + CommentStart(s, i, quote)
    decreases |s| - i
  {
    if i < |s| {
      CommentShift(pre, s, i + 1, Quoting(quote, s[i]));
    }
  }

  /** Text behind a closed prefix has its comment where it has it alone. */
  lemma CommentBehind(pre: string, s: string)
    requires Closed(pre) && s != [] && s[0] != '#'
    ensures StripComment(pre + s) == pre + StripComment(s)
  {
    hide Quoting, CommentStart, QuoteFrom;
    CommentThrough(pre, s, 0, ' ');
    CommentShift(pre, s, 0, ' ');
  }

  lemma {:induction false} QuotesStayClosed(text: string, i: nat)
    requires i <= |text| && forall k :: 0 <= k < |text| ==> !IsQuote(text[k])
    ensures QuoteFrom(text, i, ' ') == ' '
    decreases |text| - i
  {
    if i < |text| {
      QuotesStayClosed(text, i + 1);
    }
  }

  lemma SpacesClosed(n: nat)
    ensures Closed(Spaces(n))
  {
    hide CommentStart, QuoteFrom;
    NoComment(Spaces(n), 0, ' ');
    QuotesStayClosed(Spaces(n), 0);
  }

  /** Text that starts with something: neither blank nor comment. */
  predicate Starts(s: string) {
    s != [] && !IsSpace(s[0]) && s[0] != '#'
  }

  /** Indenting a text gives it a column and changes nothing else. */
  lemma IndentedContent(n: nat, s: string)
    requires Starts(s)
    ensures Content(Spaces(n) + s) == Content(s) && Indent(Spaces(n) + s) == n
  {
    hide CommentStart, Strip, Spaces, Closed, IsSpace;
    SpacesClosed(n);
    CommentBehind(Spaces(n), s);
    StripIndented(n, StripComment(s));
    IndentOfRewritten(n, s);
  }

  /** A closed prefix that starts with something stays in front of the content. */
  lemma ContentBehind(pre: string, s: string)
    requires Closed(pre) && pre != [] && !IsSpace(pre[0]) && Starts(s) && Content(s) != []
    ensures Content(pre + s) == pre + Content(s)
  {
    hide CommentStart, Closed, IsSpace, RStrip;
    CommentBehind(pre, s);
    var y := StripComment(s);
    StartKept(s);
    assert LStrip(y) == y && LStrip(pre + y) == pre + y;
    RStripBehind(pre, y);
  }

  lemma StartKept(s: string)
    requires Starts(s) && Content(s) != []
    ensures StripComment(s) != [] && !IsSpace(StripComment(s)[0])
  {
    hide CommentStart, IsSpace;
    assert Strip("") == "" by { StripClean(""); }
  }

  /** A line's text reads as itself. */
  lemma LineIsContent(s: string)
    requires LineOk(s)
    ensures Content(s) == s && Starts(s)
  {
    hide Strip, IsSpace;
    assert s[..|s|] == s;
    StripClean(s);
  }

  /** What may stand behind a line's text: whatever the reader takes off again. */
  predicate TailOk(text: string, tail: string) {
    Content(text + tail) == text
  }

  lemma NoTail(text: string)
    requires LineOk(text)
    ensures TailOk(text, "")
  {
    hide Content;
    LineIsContent(text);
    assert text + "" == text;
  }

  /** Any comment may follow a text that leaves no quote open. */
  lemma CommentTail(text: string, n: nat, note: string)
    requires LineOk(text) && Closed(text)
    ensures TailOk(text, Spaces(1 + n) + ("#" + note))
  {
    hide CommentStart, QuoteFrom, Quoting, Strip, Spaces;
    var pre := text + Spaces(1 + n);
    SpacesBehind(text, 1 + n);
    CommentThrough(pre, "#" + note, 0, ' ');
    CommentHere(pre, note);
    assert text + (Spaces(1 + n) + ("#" + note)) == pre + ("#" + note);
    assert (pre + ("#" + note))[..|pre|] == pre;
    StripBehind(text, 1 + n);
  }

  lemma CommentHere(pre: string, note: string)
    requires pre != [] && pre[|pre| - 1] == ' '
    ensures CommentStart(pre + ("#" + note), |pre|, ' ') == |pre|
  {
  }

  lemma SpacesBehind(text: string, n: nat)
    requires Closed(text)
    ensures Closed(text + Spaces(n))
  {
    hide CommentStart, QuoteFrom, Quoting, Spaces;
    SpacesClosed(n);
    QuoteAppend(text, Spaces(n), 0, ' ');
    QuoteShift(text, Spaces(n), 0, ' ');
    CommentThrough(text, Spaces(n), 0, ' ');
    CommentShift(text, Spaces(n), 0, ' ');
  }

  lemma {:induction false} StripBehind(text: string, n: nat)
    requires text != [] && CleanEnds(text)
    ensures Strip(text + Spaces(n)) == text
  {
    hide IsSpace;
    if n == 0 {
      assert text + Spaces(0) == text;
    } else {
      StripBehind(text, n - 1);
      LastSpace(n);
      assert (text + Spaces(n))[..|text| + n - 1] == text + Spaces(n - 1);
    }
  }

  lemma LastSpace(n: nat)
    requires n > 0
    ensures IsSpace(Spaces(n)[n - 1]) && Spaces(n)[..n - 1] == Spaces(n - 1)
  {
  }

  // ---------------------------------------------------------------- dashes

  /** A dash and the blanks that follow it. */
  function Dash(pad: nat): string {
    "-" + Spaces(1 + pad)
  }

  lemma DashClosed(pad: nat)
    ensures Closed(Dash(pad)) && |Dash(pad)| == 2 + pad && Dash(pad)[0] == '-' && Dash(pad)[1] == ' '
  {
    hide CommentStart, QuoteFrom;
    NoComment("-", 0, ' ');
    QuotesStayClosed("-", 0);
    SpacesBehind("-", 1 + pad);
  }

  /** A text behind a dash: what the reader finds there, and in which column. */
  lemma DashedText(pad: nat, text: string, tail: string)
    requires LineOk(text) && TailOk(text, tail)
    ensures Starts(Dash(pad) + (text + tail)) && Content(Dash(pad) + (text + tail)) == Dash(pad) + text
    ensures AfterDash(Dash(pad) + text) == text && |LStrip((Dash(pad) + text)[1..])| == |text|
    ensures DashLine(Dash(pad) + text)
  {
    hide CommentStart, QuoteFrom, Strip, LStrip, IsSpace, Content;
    DashClosed(pad);
    LineIsContent(text);
    DashIsNoSpace();
    assert (text + tail)[0] == text[0];
    ContentBehind(Dash(pad), text + tail);
    assert (Dash(pad) + text)[1..] == Spaces(1 + pad) + text;
    LStripSpaces(1 + pad, text);
    StripIndented(1 + pad, text);
    StripClean(text);
    assert (Dash(pad) + text)[..2] == "- ";
  }

  lemma DashIsNoSpace()
    ensures !IsSpace('-')
  {
  }

  lemma BareDash()
    ensures AfterDash("-") == "" && LineOk("-") && DashLine("-")
  {
    assert "-"[1..] == "";
    StripClean("");
    NoComment("-", 0, ' ');
  }

  // ---------------------------------------------------------------- keys

  /** A key the reader finds: it ends at its own colon, holds no comment, and starts no item. */
  predicate KeyOk(key: string) {
    && SplitKey(key + ":") == Pair(key, "") && CommentStart(key + ":", 0, ' ') == |key| + 1
    && !("- " <= key)
  }

  lemma KeyEndsAtColon(key: string)
    requires SplitKey(key + ":") == Pair(key, "")
    ensures KeyEnd(key + ":", 0, ' ') == |key| && CleanEnds(key)
  {
    hide SplitKey, KeyEnd, Strip, IsSpace;
    KeyIsStripped(key + ":", key);
  }

  lemma KeyIsStripped(text: string, key: string)
    requires SplitKey(text).Pair? && SplitKey(text).key == key
    ensures CleanEnds(key) && |key| <= KeyEnd(text, 0, ' ') < |text|
  {
    hide KeyEnd, Strip, IsSpace;
    var k := KeyEnd(text, 0, ' ');
    assert key == Strip(text[..k]);
  }

  /** The colon still ends the key when a blank and a value follow. */
  lemma {:induction false} KeyEndBefore(key: string, rest: string, i: nat, quote: char)
    requires i <= |key| && KeyEnd(key + ":", i, quote) == |key| && (rest == [] || IsBlankChar(rest[0]))
    ensures KeyEnd(key + ":" + rest, i, quote) == |key| && QuoteFrom(key, i, quote) == ' '
    decreases |key| - i
  {
    if i < |key| {
      KeyEndBefore(key, rest, i + 1, Quoting(quote, key[i]));
    }
  }

  lemma {:induction false} QuoteAppend(a: string, b: string, i: nat, quote: char)
    requires i <= |a|
    ensures QuoteFrom(a + b, i, quote) == QuoteFrom(a + b, |a|, QuoteFrom(a, i, quote))
    decreases |a| - i
  {
    if i < |a| {
      QuoteAppend(a, b, i + 1, Quoting(quote, a[i]));
    }
  }

  lemma {:induction false} QuoteShift(a: string, b: string, i: nat, quote: char)
    requires i <= |b|
    ensures QuoteFrom(a + b, |a| + i, quote) == QuoteFrom(b, i, quote)
    decreases |b| - i
  {
    if i < |b| {
      QuoteShift(a, b, i + 1, Quoting(quote, b[i]));
    }
  }

  /** A key, its colon and blanks leave nothing open. */
  lemma KeyPrefixClosed(key: string, n: nat)
    requires KeyOk(key)
    ensures Closed(key + ":" + Spaces(n))
  {
    hide CommentStart, KeyEnd, QuoteFrom, SplitKey;
    KeyEndsAtColon(key);
    KeyEndBefore(key, "", 0, ' ');
    QuoteAppend(key, ":", 0, ' ');
    QuoteShift(key, ":", 0, ' ');
    QuotesStayClosed(":", 0);
    SpacesBehind(key + ":", n);
  }

  lemma KeyIsNoDash(key: string, rest: string)
    requires !("- " <= key)
    ensures !DashLine(key + ":" + rest)
  {
    var s := key + ":" + rest;
    assert s[|key|] == ':';
    if |key| >= 2 {
      assert s[..2] == key[..2];
    }
  }

  lemma KeyAlone(key: string)
    requires KeyOk(key)
    ensures SplitKey(key + ":") == Pair(key, "") && LineOk(key + ":") && !DashLine(key + ":")
  {
    hide CommentStart, SplitKey;
    KeyEndsAtColon(key);
    assert key + ":" + "" == key + ":";
    KeyIsNoDash(key, "");
  }

  lemma KeyWithValue(key: string, pad: nat, value: string)
    requires KeyOk(key) && LineOk(value)
    ensures
      var s := key + ":" + Spaces(1 + pad) + value;
      SplitKey(s) == Pair(key, value) && LineOk(s) && !DashLine(s)
  {
    hide CommentStart, KeyEnd, QuoteFrom, Strip, DashLine, IsSpace, Closed, Spaces;
    var blanks := Spaces(1 + pad);
    var pre := key + ":" + blanks;
    var s := pre + value;
    KeyEndsAtColon(key);
    assert s == key + ":" + (blanks + value);
    KeyEndBefore(key, blanks + value, 0, ' ');
    KeyPrefixClosed(key, 1 + pad);
    LineIsContent(value);
    CommentBehind(pre, value);
    NoCommentIn(value);
    KeyIsNoDash(key, blanks + value);
    assert s[..|key|] == key && s[|key| + 1..] == blanks + value;
    StripClean(key);
    StripIndented(1 + pad, value);
    StripClean(value);
    ColonIsNoSpace();
    assert s[0] == (if key == [] then ':' else key[0]) && s[|s| - 1] == value[|value| - 1];
  }

  lemma NoCommentIn(s: string)
    requires LineOk(s)
    ensures StripComment(s) == s
  {
    assert s[..|s|] == s;
  }

  lemma ColonIsNoSpace()
    ensures !IsSpace(':') && !IsSpace('[') && !IsSpace(']') && !IsSpace('\'') && !IsSpace('"')
  {
  }

  // ---------------------------------------------------------------- text, plain or quoted

  datatype Atom = Bare(text: string) | Quoted(mark: char, text: string)

  function AtomText(a: Atom): string {
    match a
    case Bare(text) => text
    case Quoted(mark, text) => [mark] + text + [mark]
  }

  /** Plain text has clean ends and is not what quoted text looks like. */
  predicate AtomOk(a: Atom) {
    match a
    case Bare(text) => text != [] && CleanEnds(text) && Unquoted(text) == text
    case Quoted(mark, _) => IsQuote(mark)
  }

  lemma AtomReads(a: Atom)
    requires AtomOk(a)
    ensures AtomText(a) != [] && CleanEnds(AtomText(a)) && Unquoted(AtomText(a)) == a.text
  {
    hide Strip;
    ColonIsNoSpace();
    if a.Quoted? {
      var t := AtomText(a);
      StripClean(t);
      assert t[1..|t| - 1] == a.text;
    }
  }

  // ---------------------------------------------------------------- flow lists

  function AtomTexts(parts: seq<Atom>): (r: seq<string>)
    ensures |r| == |parts|
  {
    if parts == [] then [] else [AtomText(parts[0])] + AtomTexts(parts[1..])
  }

  function Scalars(parts: seq<Atom>): seq<Node> {
    if parts == [] then [] else [Scalar(parts[0].text)] + Scalars(parts[1..])
  }

  /** `[a, b, c]`. */
  function FlowText(parts: seq<Atom>): string {
    "[" + JoinWith(AtomTexts(parts), ", ") + "]"
  }

  /** The reader cuts at every comma, quoted or not. */
  predicate PartOk(a: Atom) {
    AtomOk(a) && ',' !in AtomText(a)
  }

  predicate PartsOk(parts: seq<Atom>) {
    forall i :: 0 <= i < |parts| ==> PartOk(parts[i])
  }

  lemma {:induction false} SplitOne(p: string, sep: char)
    requires sep !in p
    ensures SplitOn(p, sep) == [p]
  {
    if p != [] {
      SplitOne(p[1..], sep);
      assert [p[0]] + p[1..] == p;
    }
  }

  lemma {:induction false} SplitFirst(p: string, sep: char, rest: string)
    requires sep !in p
    ensures SplitOn(p + [sep] + rest, sep) == [p] + SplitOn(rest, sep)
  {
    var s := p + [sep] + rest;
    if p == [] {
      assert s[1..] == rest;
    } else {
      SplitFirst(p[1..], sep, rest);
      assert s[1..] == p[1..] + [sep] + rest;
      assert ([p[1..]] + SplitOn(rest, sep))[1..] == SplitOn(rest, sep);
      assert [p[0]] + p[1..] == p;
    }
  }

  /** A part behind its blank is read as the part. */
  lemma PartReads(n: nat, a: Atom, rest: seq<string>)
    requires PartOk(a)
    ensures FlowScalars([Spaces(n) + AtomText(a)] + rest) == [Scalar(a.text)] + FlowScalars(rest)
    ensures ',' !in Spaces(n) + AtomText(a)
  {
    hide Strip;
    AtomReads(a);
    StripIndented(n, AtomText(a));
    StripClean(AtomText(a));
    assert ([Spaces(n) + AtomText(a)] + rest)[1..] == rest;
  }

  lemma {:induction false} FlowParts(n: nat, parts: seq<Atom>)
    requires PartsOk(parts) && parts != []
    ensures FlowScalars(SplitOn(Spaces(n) + JoinWith(AtomTexts(parts), ", "), ',')) == Scalars(parts)
    decreases |parts|
  {
    hide SplitOn, FlowScalars, PartOk, AtomText, Spaces, JoinWith;
    var a, rest := parts[0], AtomTexts(parts[1..]);
    var first := Spaces(n) + AtomText(a);
    if |parts| == 1 {
      PartReads(n, a, []);
      assert [first] + [] == [first];
      SplitOne(first, ',');
      NoParts();
      JoinOne(AtomText(a));
      assert AtomTexts(parts) == [AtomText(a)] && Scalars(parts) == [Scalar(a.text)];
    } else {
      FlowParts(1, parts[1..]);
      var tail := JoinWith(rest, ", ");
      PartReads(n, a, SplitOn(Spaces(1) + tail, ','));
      SplitFirst(first, ',', Spaces(1) + tail);
      JoinFirst(AtomText(a), rest);
      FirstComma(Spaces(n), AtomText(a), tail);
    }
  }

  lemma JoinFirst(text: string, rest: seq<string>)
    requires rest != []
    ensures JoinWith([text] + rest, ", ") == text + ", " + JoinWith(rest, ", ")
  {
    assert ([text] + rest)[1..] == rest;
  }

  lemma FirstComma(lead: string, text: string, tail: string)
    ensures lead + (text + ", " + tail) == lead + text + "," + (Spaces(1) + tail)
  {
    OneSpace();
    assert lead + (text + ("," + Spaces(1)) + tail) == lead + text + "," + (Spaces(1) + tail);
  }

  lemma JoinOne(text: string)
    ensures JoinWith([text], ", ") == text
  {
  }

  lemma OneSpace()
    ensures "," + Spaces(1) == ", "
  {
    assert Spaces(0) == "";
  }

  lemma NoParts()
    ensures FlowScalars([]) == []
  {
  }

  /** A flow list is read as its parts, in order, quotes taken off. */
  lemma FlowReads(parts: seq<Atom>)
    requires PartsOk(parts)
    ensures IsFlow(FlowText(parts)) && FlowSequence(FlowText(parts)) == Items(Scalars(parts))
    ensures !BlockHead(FlowText(parts))
  {
    hide PartOk, AtomText, SplitOn, FlowScalars;
    var t, inner := FlowText(parts), JoinWith(AtomTexts(parts), ", ");
    assert t[0] == '[' && t[1..|t| - 1] == inner;
    if parts == [] {
      EmptyFlow();
    } else {
      FlowParts(0, parts);
      assert Spaces(0) + inner == inner;
    }
  }

  lemma EmptyFlow()
    ensures FlowScalars(SplitOn("", ',')) == []
  {
    StripClean("");
  }

  // ---------------------------------------------------------------- block scalars

  /** The lines of a block scalar in column `n`. Each may be indented further; an empty one is
      written empty. */
  function Indented(lines: seq<string>, n: nat): (r: seq<string>)
    ensures |r| == |lines|
  {
    if lines == [] then []
    else Indented(lines[..|lines| - 1], n) + [IndentedLine(lines[|lines| - 1], n)]
  }

  function IndentedLine(line: string, n: nat): string {
    if line == [] then "" else Spaces(n) + line
  }

  lemma {:induction false} IndentedAt(lines: seq<string>, n: nat, k: nat)
    requires k < |lines|
    ensures Indented(lines, n)[k] == IndentedLine(lines[k], n)
  {
    hide IndentedLine;
    if k < |lines| - 1 {
      IndentedAt(lines[..|lines| - 1], n, k);
    }
  }

  lemma LineStrips(line: string, n: nat)
    ensures Strip(IndentedLine(line, n)) == Strip(line)
  {
    hide Strip;
    if line != [] {
      StripIndented(n, line);
    }
  }

  lemma {:induction false} DeeperIndent(n: nat, line: string)
    ensures Indent(Spaces(n) + line) >= n
  {
    if n > 0 {
      DeeperIndent(n - 1, line);
      assert (Spaces(n) + line)[1..] == Spaces(n - 1) + line;
    }
  }

  lemma {:induction false} StrippedIndented(lines: seq<string>, n: nat)
    ensures Stripped(Indented(lines, n)) == Stripped(lines)
  {
    hide IndentedLine, Stripped, Indented, Strip;
    if lines == [] {
      NothingIndented(n);
    } else {
      var m := |lines| - 1;
      StrippedIndented(lines[..m], n);
      LineStrips(lines[m], n);
      StrippedPush(Indented(lines[..m], n), IndentedLine(lines[m], n));
      StrippedPush(lines[..m], lines[m]);
      IndentedLast(lines, n);
      assert lines == lines[..m] + [lines[m]];
    }
  }

  lemma NothingIndented(n: nat)
    ensures Indented([], n) == []
  {
  }

  lemma IndentedLast(lines: seq<string>, n: nat)
    requires lines != []
    ensures
      var m := |lines| - 1;
      Indented(lines, n) == Indented(lines[..m], n) + [IndentedLine(lines[m], n)]
  {
    hide IndentedLine;
  }

  /** A block ends where its lines end, if what follows is further left. */
  lemma {:induction false} BlockEndsAfter(all: seq<string>, i: nat, parent: nat, j: nat)
    requires i <= j <= |all|
    requires forall k :: i <= k < j ==> InBlock(all[k], parent)
    requires j < |all| ==> !InBlock(all[j], parent)
    ensures BlockEnd(all, i, parent) == j
    decreases j - i
  {
    hide Strip, Indent;
    if i < j {
      assert InBlock(all[i], parent);
      BlockEndsAfter(all, i + 1, parent, j);
    }
  }

  /** Every block scalar is collected to its last line, whatever its lines hold. */
  lemma BlockReads(all: seq<string>, i: nat, parent: nat, n: nat, lines: seq<string>, post: seq<string>)
    requires i <= |all| && all[i..] == Indented(lines, n) + post && parent < n
    requires post != [] ==> !InBlock(post[0], parent)
    ensures BlockEnd(all, i, parent) == i + |lines|
    ensures Stripped(all[i..i + |lines|]) == Stripped(lines) && all[i + |lines|..] == post
  {
    hide InBlock, IndentedLine, Indented, BlockEnd, Stripped;
    var j := i + |lines|;
    forall k | i <= k < j ensures InBlock(all[k], parent) {
      IndentedAt(lines, n, k - i);
      assert all[k] == all[i..][k - i];
      LineInBlock(lines[k - i], n, parent);
    }
    assert post != [] ==> all[j] == all[i..][|lines|] == post[0];
    BlockEndsAfter(all, i, parent, j);
    StrippedIndented(lines, n);
    assert all[i..j] == all[i..][..|lines|] == Indented(lines, n);
    assert all[j..] == all[i..][|lines|..];
  }

  lemma LineInBlock(line: string, n: nat, parent: nat)
    requires parent < n
    ensures InBlock(IndentedLine(line, n), parent)
  {
    hide Strip, Indent;
    if line == [] {
      StripClean("");
    } else {
      DeeperIndent(n, line);
    }
  }

  // ---------------------------------------------------------------- what a block scalar means

  /** A literal block keeps its lines: cutting the text at line feeds gives them back. */
  lemma {:induction false} LiteralKeepsLines(head: string, lines: seq<string>)
    requires head != [] && head[0] != '>' && lines != [] && forall k :: 0 <= k < |lines| ==> '\n' !in lines[k]
    ensures SplitOn(Fold(head, lines), '\n') == lines
    decreases |lines|
  {
    hide SplitOn;
    SplitOne(lines[0], '\n');
    if |lines| > 1 {
      LiteralKeepsLines(head, lines[1..]);
      SplitFirst(lines[0], '\n', JoinWith(lines[1..], "\n"));
    }
  }

  lemma {:induction false} NonEmptyAppend(a: seq<string>, b: seq<string>)
    ensures NonEmpty(a + b) == NonEmpty(a) + NonEmpty(b)
  {
    hide NonEmpty;
    if a == [] {
      assert a + b == b;
      NonEmptyNothing();
      assert [] + NonEmpty(b) == NonEmpty(b);
    } else {
      NonEmptyAppend(a[1..], b);
      NonEmptyFirst(a[0], a[1..]);
      NonEmptyFirst(a[0], a[1..] + b);
      assert a + b == [a[0]] + (a[1..] + b) && a == [a[0]] + a[1..];
      Regrouped(Kept(a[0]), NonEmpty(a[1..]), NonEmpty(b));
    }
  }

  function Kept(line: string): seq<string> {
    if line == [] then [] else [line]
  }

  lemma NonEmptyNothing()
    ensures NonEmpty([]) == []
  {
  }

  lemma NonEmptyFirst(line: string, rest: seq<string>)
    ensures NonEmpty([line] + rest) == Kept(line) + NonEmpty(rest)
  {
    assert ([line] + rest)[1..] == rest;
  }

  lemma Regrouped(a: seq<string>, b: seq<string>, c: seq<string>)
    ensures a + (b + c) == a + b + c
  {
  }

  lemma {:induction false} JoinAppend(a: seq<string>, b: seq<string>, sep: string)
    requires a != [] && b != []
    ensures JoinWith(a + b, sep) == JoinWith(a, sep) + sep + JoinWith(b, sep)
  {
    assert (a + b)[1..] == a[1..] + b;
    if |a| > 1 {
      JoinAppend(a[1..], b, sep);
    }
  }

  predicate AllEmpty(lines: seq<string>) {
    forall k :: 0 <= k < |lines| ==> lines[k] == []
  }

  lemma {:induction false} NonEmptyNone(lines: seq<string>)
    ensures NonEmpty(lines) == [] <==> AllEmpty(lines)
  {
    if lines != [] {
      NonEmptyNone(lines[1..]);
      assert lines == [lines[0]] + lines[1..];
    }
  }

  /** A folded block is one line: a line break reads as a blank, and empty lines do not show. */
  lemma FoldedIsOneLine(head: string, a: seq<string>, b: seq<string>)
    requires head != [] && head[0] == '>'
    ensures Fold(head, a + b) ==
      if AllEmpty(a) then Fold(head, b)
      else if AllEmpty(b) then Fold(head, a)
      else Fold(head, a) + " " + Fold(head, b)
    ensures forall line: string :: Fold(head, [line]) == line
  {
    hide JoinWith, AllEmpty;
    NonEmptyAppend(a, b);
    NonEmptyNone(a);
    NonEmptyNone(b);
    if AllEmpty(a) {
      assert [] + NonEmpty(b) == NonEmpty(b);
    } else if AllEmpty(b) {
      assert NonEmpty(a) + [] == NonEmpty(a);
    } else {
      JoinAppend(NonEmpty(a), NonEmpty(b), " ");
    }
    forall line: string ensures Fold(head, [line]) == line {
      OneLine(line);
    }
  }

  lemma OneLine(line: string)
    ensures JoinWith(NonEmpty([line]), " ") == line
  {
    assert [line][1..] == [];
  }
}
