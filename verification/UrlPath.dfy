/** Percent-encoded request paths: the validator, what decoding an accepted path can do, and
    what dot-segment removal (section 5.2.4 of RFC 3986) can do to the result.
 */
module UrlPath {
  import opened Bytes

  // ---------------------------------------------------------------- splitting and joining

  function Split(s: Bytes, sep: byte): (r: seq<Bytes>)
    ensures r != []
  {
    if s == [] then [[]]
    else
      var r := Split(s[1..], sep);
      if s[0] == sep then [[]] + r else Extend(s[0], r)
  }

  /** Put a byte in front of the first segment. */
  function Extend(b: byte, segments: seq<Bytes>): (r: seq<Bytes>)
    requires segments != []
    ensures |r| == |segments|
  {
    [[b] + segments[0]] + segments[1..]
  }

  lemma ExtendAppend(b: byte, r: seq<Bytes>, t: seq<Bytes>)
    requires r != []
    ensures Extend(b, r + t) == Extend(b, r) + t
  {
    assert (r + t)[1..] == r[1..] + t;
  }

  function Join(segments: seq<Bytes>, sep: byte): Bytes
    requires segments != []
  {
    if |segments| == 1 then segments[0]
    else segments[0] + [sep] + Join(segments[1..], sep)
  }

  lemma {:induction false} JoinSplit(s: Bytes, sep: byte)
    ensures Join(Split(s, sep), sep) == s
  {
    if s != [] {
      JoinSplit(s[1..], sep);
      var r := Split(s[1..], sep);
      if s[0] == sep {
        assert ([[]] + r)[1..] == r;
      } else {
        assert Extend(s[0], r)[1..] == r[1..];
      }
    }
  }

  /** A separator is a boundary whatever surrounds it. */
  lemma {:induction false} SplitAtSeparator(a: Bytes, b: Bytes, sep: byte)
    ensures Split(a + [sep] + b, sep) == Split(a, sep) + Split(b, sep)
  {
    hide Extend;
    var s := a + [sep] + b;
    if a == [] {
      assert s[1..] == b;
    } else {
      SplitAtSeparator(a[1..], b, sep);
      assert s[1..] == a[1..] + [sep] + b;
      if a[0] == sep {
        assert [[]] + (Split(a[1..], sep) + Split(b, sep)) == [[]] + Split(a[1..], sep) + Split(b, sep);
      } else {
        ExtendAppend(a[0], Split(a[1..], sep), Split(b, sep));
      }
    }
  }

  lemma {:induction false} JoinAppend(xs: seq<Bytes>, ys: seq<Bytes>, sep: byte)
    requires xs != [] && ys != []
    ensures Join(xs + ys, sep) == Join(xs, sep) + [sep] + Join(ys, sep)
  {
    if |xs| == 1 {
      assert (xs + ys)[1..] == ys;
    } else {
      JoinAppend(xs[1..], ys, sep);
      assert (xs + ys)[1..] == xs[1..] + ys;
    }
  }

  // ---------------------------------------------------------------- percent-decoding

  predicate PathByte(b: byte) {
    IsAlphanumeric(b) || b in "-._~!$&'()*+,;=:@/%"
  }

  function HexValue(b: byte): (r: Option<nat>)
    ensures r.Some? ==> r.value < 16
  {
    if IsDigit(b) then Some(b as int - '0' as int)
    else if 'a' <= b <= 'f' then Some(b as int - 'a' as int + 10)
    else if 'A' <= b <= 'F' then Some(b as int - 'A' as int + 10)
    else None
  }

  /** `u8::from_str_radix(pair, 16)`: a leading plus sign is accepted before one digit. */
  function ParsePair(c0: byte, c1: byte): (r: Option<byte>)
    ensures r.Some? && 0x21 <= r.value as int ==> HexValue(c0).Some? && HexValue(c1).Some?
  {
    var h0, h1 := HexValue(c0), HexValue(c1);
    if h1.None? then None
    else if c0 == '+' then Some(h1.value as char)
    else if h0.None? then None
    else Some((16 * h0.value + h1.value) as char)
  }

  /** The bytes an escape may stand for. */
  predicate EscapeAllowed(b: byte) {
    b !in "/.%\\;" && 0x21 <= b as int <= 0x7e
  }

  /** The byte at the front of an encoded path and how many bytes write it. */
  function NextByte(p: Bytes): (r: Option<(byte, nat)>)
    requires p != []
    ensures r.Some? ==> 1 <= r.value.1 <= |p| && (p[0] == '/' || forall i :: 0 <= i < r.value.1 ==> p[i] != '/')
    ensures r.Some? ==> (r.value.0 == '/' <==> p[0] == '/') && (p[0] == '/' ==> r.value.1 == 1)
  {
    if p[0] == '%' then
      if |p| < 3 then None
      else
        var b := ParsePair(p[1], p[2]);
        if b.None? || !EscapeAllowed(b.value) then None else Some((b.value, 3))
    else Some((p[0], 1))
  }

  lemma NextByteStable(p: Bytes, q: Bytes)
    requires p != [] && NextByte(p).Some?
    ensures NextByte(p + q) == NextByte(p)
  {
  }

  /** The decoded path, or `None` where the decoding loop refuses. */
  function Unescape(p: Bytes): Option<Bytes> {
    if p == [] then Some([])
    else
      var next := NextByte(p);
      if next.None? then None else Prepend(next.value.0, Unescape(p[next.value.1..]))
  }

  function Prepend(b: byte, rest: Option<Bytes>): Option<Bytes> {
    if rest.None? then None else Some([b] + rest.value)
  }

  function After(done: Bytes, rest: Option<Bytes>): Option<Bytes> {
    if rest.None? then None else Some(done + rest.value)
  }

  lemma AfterPrepend(done: Bytes, b: byte, rest: Option<Bytes>)
    ensures After(done, Prepend(b, rest)) == After(done + [b], rest)
  {
    if rest.Some? {
      assert done + ([b] + rest.value) == done + [b] + rest.value;
    }
  }

  // ---------------------------------------------------------------- the validator

  predicate DotSegment(segment: Bytes) {
    segment == "." || segment == ".."
  }

  /** A path parameter after `;` does not hide a dot segment. */
  predicate DotSegmentWithParameters(segment: Bytes) {
    DotSegment(Bare(segment))
  }

  predicate DoubleSlashAt(p: Bytes, i: int) {
    0 <= i && i + 1 < |p| && p[i] == '/' && p[i + 1] == '/'
  }

  ghost predicate ValidPath(p: Bytes) {
    && p != [] && p[0] == '/'
    && (forall i :: !DoubleSlashAt(p, i))
    && All(p, PathByte)
    && Unescape(p).Some?
    && forall seg :: seg in Split(Unescape(p).value, '/') ==> !DotSegmentWithParameters(seg)
  }

  /** The decoding loop of the validator. */
  method DecodePath(path: Bytes) returns (r: Option<Bytes>)
    ensures r == Unescape(path)
  {
    hide ParsePair, EscapeAllowed;
    var decoded: Bytes := [];
    assert path[0..] == path;
    AfterNothing(Unescape(path));
    var i := 0;
    while i < |path|
      invariant 0 <= i <= |path|
      invariant Unescape(path) == After(decoded, Unescape(path[i..]))
      decreases |path| - i
    {
      ghost var rest := path[i..];
      if path[i] == '%' {
        if |path| < i + 3 {
          return None;
        }
        var b := ParsePair(path[i + 1], path[i + 2]);
        if b.None? || !EscapeAllowed(b.value) {
          return None;
        }
        assert NextByte(rest) == Some((b.value, 3)) && rest[3..] == path[i + 3..];
        AfterPrepend(decoded, b.value, Unescape(rest[3..]));
        decoded := decoded + [b.value];
        i := i + 3;
      } else {
        assert NextByte(rest) == Some((path[i], 1)) && rest[1..] == path[i + 1..];
        AfterPrepend(decoded, path[i], Unescape(rest[1..]));
        decoded := decoded + [path[i]];
        i := i + 1;
      }
    }
    r := Some(decoded);
    assert path[i..] == [] && decoded + [] == decoded;
  }

  method ValidatePath(path: Bytes) returns (ok: bool)
    ensures ok <==> ValidPath(path)
  {
    hide PathByte, Unescape, Split;
    if path == [] || path[0] != '/' {
      return false;
    }
    for k := 0 to |path|
      invariant forall i :: i < k ==> !DoubleSlashAt(path, i)
      invariant forall i :: 0 <= i < k ==> PathByte(path[i])
    {
      if DoubleSlashAt(path, k) || !PathByte(path[k]) {
        return false;
      }
    }
    var decoded := DecodePath(path);
    if decoded.None? {
      return false;
    }
    var segments := Split(decoded.value, '/');
    for k := 0 to |segments|
      invariant forall j :: 0 <= j < k ==> !DotSegmentWithParameters(segments[j])
    {
      if DotSegmentWithParameters(segments[k]) {
        return false;
      }
    }
    ok := true;
  }

  // ---------------------------------------------------------------- what decoding can do

  /** Decoding distributes over concatenation at the end of a decodable prefix. */
  lemma {:induction false} UnescapeConcat(p: Bytes, q: Bytes)
    requires Unescape(p).Some?
    ensures Unescape(p + q) == After(Unescape(p).value, Unescape(q))
  {
    hide Unescape, NextByte, Prepend, After;
    if p == [] {
      assert p + q == q;
      UnescapeNothing();
      AfterNothing(Unescape(q));
    } else {
      UnescapeParts(p);
      NextByteStable(p, q);
      UnescapeStep(p + q);
      var b, k := NextByte(p).value.0, NextByte(p).value.1;
      UnescapeConcat(p[k..], q);
      assert (p + q)[k..] == p[k..] + q;
      AfterCons(b, Unescape(p[k..]).value, Unescape(q));
    }
  }

  lemma UnescapeParts(p: Bytes)
    requires p != [] && Unescape(p).Some?
    ensures NextByte(p).Some? && Unescape(p[NextByte(p).value.1..]).Some?
    ensures Unescape(p).value == [NextByte(p).value.0] + Unescape(p[NextByte(p).value.1..]).value
  {
    hide NextByte;
  }

  lemma UnescapeStep(p: Bytes)
    requires p != [] && NextByte(p).Some?
    ensures Unescape(p) == Prepend(NextByte(p).value.0, Unescape(p[NextByte(p).value.1..]))
  {
  }

  lemma AfterNothing(rest: Option<Bytes>)
    ensures After([], rest) == rest
  {
    if rest.Some? {
      assert [] + rest.value == rest.value;
    }
  }

  lemma AfterCons(b: byte, done: Bytes, rest: Option<Bytes>)
    ensures After([b] + done, rest) == Prepend(b, After(done, rest))
  {
    if rest.Some? {
      assert [b] + done + rest.value == [b] + (done + rest.value);
    }
  }

  /** Nothing is left to decode, and no byte reads as another separator. */
  lemma {:induction false} UnescapeLeavesNoEscape(p: Bytes)
    requires All(p, PathByte) && Unescape(p).Some?
    ensures '%' !in Unescape(p).value && '\\' !in Unescape(p).value
  {
    if p != [] {
      var k := NextByte(p).value.1;
      assert All(p[k..], PathByte) by {
        assert forall i :: 0 <= i < |p[k..]| ==> p[k..][i] == p[i + k];
      }
      UnescapeLeavesNoEscape(p[k..]);
    }
  }

  lemma {:induction false} UnescapeIdentity(p: Bytes)
    requires '%' !in p
    ensures Unescape(p) == Some(p)
  {
    if p != [] {
      UnescapeIdentity(p[1..]);
      assert p == [p[0]] + p[1..];
    }
  }

  lemma DecodeTwiceIsDecodeOnce(p: Bytes)
    requires All(p, PathByte) && Unescape(p).Some?
    ensures Unescape(Unescape(p).value) == Unescape(p)
  {
    UnescapeLeavesNoEscape(p);
    UnescapeIdentity(Unescape(p).value);
  }

  /** Decoding introduces no separator, dot or parameter mark, and takes none away. */
  lemma {:induction false} DecodingKeepsDelimiters(p: Bytes, b: byte)
    requires Unescape(p).Some? && (b == '/' || b == '.' || b == ';')
    ensures multiset(Unescape(p).value)[b] == multiset(p)[b]
  {
    hide Unescape, NextByte;
    if p == [] {
      UnescapeNothing();
    } else {
      UnescapeParts(p);
      var c, k := NextByte(p).value.0, NextByte(p).value.1;
      DecodingKeepsDelimiters(p[k..], b);
      OneByteKeepsDelimiters(p, b);
      assert p == p[..k] + p[k..];
    }
  }

  lemma OneByteKeepsDelimiters(p: Bytes, b: byte)
    requires p != [] && NextByte(p).Some? && (b == '/' || b == '.' || b == ';')
    ensures multiset([NextByte(p).value.0])[b] == multiset(p[..NextByte(p).value.1])[b]
  {
    if p[0] == '%' {
      assert p[..3] == [p[0], p[1], p[2]];
      assert HexValue(p[1]).Some? && HexValue(p[2]).Some?;
    } else {
      assert p[..1] == [p[0]];
    }
  }

  /** A segment without the parameters that follow its first `;`. */
  function Bare(segment: Bytes): Bytes {
    Split(segment, ';')[0]
  }

  function BareSegments(segments: seq<Bytes>): (r: seq<Bytes>)
    ensures |r| == |segments| && forall i :: 0 <= i < |r| ==> r[i] == Bare(segments[i])
  {
    if segments == [] then [] else [Bare(segments[0])] + BareSegments(segments[1..])
  }

  ghost predicate DecodesTo(raw: seq<Bytes>, decoded: seq<Bytes>) {
    |raw| == |decoded| && forall i :: 0 <= i < |raw| ==> Unescape(raw[i]) == Some(decoded[i])
  }

  /** Decoding commutes with splitting on `/`: segments are decoded one by one. */
  lemma {:induction false} UnescapeSegmentwise(p: Bytes)
    requires Unescape(p).Some?
    ensures DecodesTo(Split(p, '/'), Split(Unescape(p).value, '/'))
  {
    if p != [] {
      UnescapeStep(p);
      UnescapeSegmentwise(p[NextByte(p).value.1..]);
      SplitStep(p);
    }
  }

  lemma SplitStep(p: Bytes)
    requires p != [] && NextByte(p).Some? && Unescape(p[NextByte(p).value.1..]).Some?
    requires DecodesTo(Split(p[NextByte(p).value.1..], '/'), Split(Unescape(p[NextByte(p).value.1..]).value, '/'))
    ensures DecodesTo(Split(p, '/'), Split([NextByte(p).value.0] + Unescape(p[NextByte(p).value.1..]).value, '/'))
  {
    hide Unescape, NextByte, Extend;
    var b, k := NextByte(p).value.0, NextByte(p).value.1;
    var rest := Unescape(p[k..]).value;
    var rs, ds := Split(p[k..], '/'), Split(rest, '/');
    assert ([b] + rest)[1..] == rest;
    if p[0] == '/' {
      UnescapeNothing();
      assert Split(p, '/') == [[]] + rs && Split([b] + rest, '/') == [[]] + ds;
    } else {
      SplitSkip(p, k);
      SegmentHead(p, rs[0]);
      ExtendParts(b, ds);
    }
  }

  lemma UnescapeNothing()
    ensures Unescape([]) == Some([])
  {
  }

  lemma ExtendParts(b: byte, segments: seq<Bytes>)
    requires segments != []
    ensures Extend(b, segments)[0] == [b] + segments[0]
    ensures forall i :: 1 <= i < |segments| ==> Extend(b, segments)[i] == segments[i]
  {
  }

  /** The first byte of a segment decodes the same whatever follows it. */
  lemma SegmentHead(p: Bytes, s: Bytes)
    requires p != [] && NextByte(p).Some? && Unescape(s).Some?
    ensures Unescape(p[..NextByte(p).value.1] + s) == Prepend(NextByte(p).value.0, Unescape(s))
  {
    var k := NextByte(p).value.1;
    assert NextByte(p[..k]) == NextByte(p);
    NextByteStable(p[..k], s);
    assert (p[..k] + s)[k..] == s;
  }

  lemma {:induction false} SplitSkip(p: Bytes, k: nat)
    requires k <= |p| && forall i :: 0 <= i < k ==> p[i] != '/'
    ensures Split(p, '/') == [p[..k] + Split(p[k..], '/')[0]] + Split(p[k..], '/')[1..]
  {
    var r := Split(p[k..], '/');
    if k == 0 {
      assert p[0..] == p && p[..0] + r[0] == r[0];
      assert [r[0]] + r[1..] == r;
    } else {
      SplitSkip(p[1..], k - 1);
      assert p[1..][k - 1..] == p[k..];
      assert [p[0]] + (p[1..][..k - 1] + r[0]) == p[..k] + r[0];
    }
  }

  // ---------------------------------------------------------------- dot-segment removal

  /** Where the segment that starts at `i` ends: the next `/`, or the end. */
  function SegmentEnd(s: Bytes, i: nat): (k: nat)
    requires i <= |s|
    ensures i <= k <= |s|
    ensures forall j :: i <= j < k ==> s[j] != '/'
    ensures k < |s| ==> s[k] == '/'
    decreases |s| - i
  {
    if i == |s| || s[i] == '/' then i else SegmentEnd(s, i + 1)
  }

  /** Drop the last segment and the `/` before it from the output buffer. */
  function DropLast(output: Bytes): Bytes {
    if output == [] then []
    else if output[|output| - 1] == '/' then output[..|output| - 1]
    else DropLast(output[..|output| - 1])
  }

  /** Section 5.2.4 of RFC 3986, steps 2A to 2E, on an input and an output buffer. */
  function RemoveDots(input: Bytes, output: Bytes): Bytes
    decreases |input|
  {
    if input == [] then output
    else if "../" <= input then RemoveDots(input[3..], output)
    else if "./" <= input then RemoveDots(input[2..], output)
    else if "/./" <= input then RemoveDots(input[2..], output)
    else if input == "/." then RemoveDots("/", output)
    else if "/../" <= input then RemoveDots(input[3..], DropLast(output))
    else if input == "/.." then RemoveDots("/", DropLast(output))
    else if DotSegment(input) then output
    else
      var k := SegmentEnd(input, 1);
      RemoveDots(input[k..], output + input[..k])
  }

  ghost predicate NoDotSegment(s: Bytes) {
    forall seg :: seg in Split(s, '/') ==> !DotSegment(seg)
  }

  /** The first segment ends at the first separator; the others follow it. */
  lemma SplitFirst(s: Bytes, k: nat)
    requires k == SegmentEnd(s, 0)
    ensures Split(s, '/') == [s[..k]] + if k == |s| then [] else Split(s[k + 1..], '/')
  {
    SplitSkip(s, k);
    var r := Split(s[k..], '/');
    if k < |s| {
      assert s[k..][1..] == s[k + 1..];
      assert r == [[]] + Split(s[k + 1..], '/');
      assert r[1..] == Split(s[k + 1..], '/') && s[..k] + r[0] == s[..k];
    } else {
      assert s[k..] == [] && s[..k] + r[0] == s[..k];
    }
  }

  /** Without dot segments, removal copies the path through. */
  lemma {:induction false} RemoveDotsIdentity(t: Bytes, output: Bytes)
    requires NoDotSegment(t)
    ensures RemoveDots("/" + t, output) == output + "/" + t
    decreases |t|
  {
    hide RemoveDots, Split, DotSegment;
    var k := SegmentEnd(t, 0);
    NoDotSegmentTail(t, k);
    MoveSegment(t, k, output);
    var moved := output + "/" + t[..k];
    if k < |t| {
      var u := t[k + 1..];
      assert t[k..] == "/" + u;
      RemoveDotsIdentity(u, moved);
      assert moved + "/" + u == output + "/" + t;
    } else {
      assert t[k..] == [] && t[..k] == t;
      RemoveDotsDone(moved);
    }
  }

  lemma NoDotSegmentTail(t: Bytes, k: nat)
    requires k == SegmentEnd(t, 0) && NoDotSegment(t)
    ensures !DotSegment(t[..k]) && (k < |t| ==> NoDotSegment(t[k + 1..]))
  {
    hide Split;
    SplitFirst(t, k);
    assert Split(t, '/')[0] == t[..k];
    if k < |t| {
      forall seg | seg in Split(t[k + 1..], '/') ensures !DotSegment(seg) {
        assert seg in Split(t, '/');
      }
    }
  }

  lemma RemoveDotsDone(output: Bytes)
    ensures RemoveDots([], output) == output
  {
  }

  /** Step 2E applies to a path whose first segment is not a dot segment. */
  lemma MoveSegment(t: Bytes, k: nat, output: Bytes)
    requires k == SegmentEnd(t, 0) && !DotSegment(t[..k])
    ensures RemoveDots("/" + t, output) == RemoveDots(t[k..], output + "/" + t[..k])
  {
    var input := "/" + t;
    PatternMeansDots(t, k);
    SegmentEndShift(t, 0);
    assert input[0] == '/';
    assert input[k + 1..] == t[k..];
    assert output + input[..k + 1] == output + "/" + t[..k];
  }

  lemma {:induction false} SegmentEndShift(t: Bytes, i: nat)
    requires i <= |t|
    ensures SegmentEnd("/" + t, i + 1) == SegmentEnd(t, i) + 1
    decreases |t| - i
  {
    if i < |t| && t[i] != '/' {
      SegmentEndShift(t, i + 1);
    }
  }

  /** Where one of the removal patterns applies, the first segment is a dot segment. */
  lemma PatternMeansDots(t: Bytes, k: nat)
    requires k == SegmentEnd(t, 0)
    ensures "/./" <= "/" + t || "/" + t == "/." || "/../" <= "/" + t || "/" + t == "/.." ==> DotSegment(t[..k])
  {
    var s := "/" + t;
    assert s[1..] == t;
    if "/./" <= s {
      assert s[1] == "/./"[1] && s[2] == "/./"[2] && t[0] == s[1] && t[1] == s[2];
      assert k == 1 && t[..k] == ".";
    } else if "/../" <= s {
      assert s[1] == "/../"[1] && s[2] == "/../"[2] && s[3] == "/../"[3];
      assert t[0] == s[1] && t[1] == s[2] && t[2] == s[3];
      assert k == 2 && t[..k] == "..";
    } else if s == "/." {
      assert t == "." && k == 1 && t[..k] == ".";
    } else if s == "/.." {
      assert t == ".." && k == 2 && t[..k] == "..";
    }
  }
}
