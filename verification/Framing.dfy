/** Length-prefixed fields: the byte layout shared by the audit MAC and the secret codecs.

    A field is its length as eight little-endian bytes followed by its bytes. An optional
    field is a tag byte followed, when present, by the field. The layout is prefix-free:
    no continuation of one encoding can be read as another list of fields.
 */
module Framing {
  import opened Bytes

  function Frame(field: Field): (r: Bytes)
    ensures |r| == 8 + |field|
  {
    LeBytes(|field|, 8) + field
  }

  /** One read of a field off the front of `b`: the field and what is left, if both fit. */
  function Unframe(b: Bytes): Option<(Field, Bytes)> {
    if |b| < 8 then None
    else
      var n := LeValue(b[..8]);
      if |b| - 8 < n then None
      else
        Pow256Is64Bits();
        Some((b[8..8 + n], b[8 + n..]))
  }

  lemma UnframeFrame(field: Field, rest: Bytes)
    ensures Unframe(Frame(field) + rest) == Some((field, rest))
  {
    var b := Frame(field) + rest;
    assert b[..8] == LeBytes(|field|, 8);
    Pow256Is64Bits();
    LeRoundTrip(|field|, 8);
  }

  lemma UnframeExact(b: Bytes)
    requires Unframe(b).Some?
    ensures b == Frame(Unframe(b).value.0) + Unframe(b).value.1
  {
    LeExact(b[..8]);
  }

  // ---------------------------------------------------------------- several fields in a row

  function Concat<T>(encode: T -> Bytes, items: seq<T>): Bytes {
    if items == [] then [] else encode(items[0]) + Concat(encode, items[1..])
  }

  /** However both are continued, the encodings of `x` and `y` cannot be confused. */
  ghost predicate Separable<T>(encode: T -> Bytes, x: T, y: T) {
    forall r, s :: encode(x) + r == encode(y) + s ==> x == y && r == s
  }

  /** Lists of one length whose elements are pairwise separable are separable. */
  lemma {:induction false} ConcatPrefixFree<T>(encode: T -> Bytes, a: seq<T>, b: seq<T>, r: Bytes, s: Bytes)
    requires |a| == |b| && forall i :: 0 <= i < |a| ==> Separable(encode, a[i], b[i])
    requires Concat(encode, a) + r == Concat(encode, b) + s
    ensures a == b && r == s
    decreases |a|
  {
    if a == [] {
      assert Concat(encode, a) + r == r && Concat(encode, b) + s == s;
    } else {
      var ra, rb := Concat(encode, a[1..]) + r, Concat(encode, b[1..]) + s;
      assert encode(a[0]) + ra == Concat(encode, a) + r;
      assert encode(b[0]) + rb == Concat(encode, b) + s;
      assert Separable(encode, a[0], b[0]);
      ConcatPrefixFree(encode, a[1..], b[1..], r, s);
      assert a == [a[0]] + a[1..] && b == [b[0]] + b[1..];
    }
  }

  lemma {:induction false} ConcatAppend<T>(encode: T -> Bytes, a: seq<T>, b: seq<T>)
    ensures Concat(encode, a + b) == Concat(encode, a) + Concat(encode, b)
  {
    if a == [] {
      assert a + b == b;
    } else {
      ConcatAppend(encode, a[1..], b);
      assert (a + b)[1..] == a[1..] + b;
    }
  }

  lemma ConcatPush<T>(encode: T -> Bytes, a: seq<T>, x: T)
    ensures Concat(encode, a + [x]) == Concat(encode, a) + encode(x)
  {
    ConcatAppend(encode, a, [x]);
    assert Concat(encode, [x]) == encode(x) + [];
  }

  lemma FrameSeparable(x: Field, y: Field)
    ensures Separable(Frame, x, y)
  {
    forall r, s | Frame(x) + r == Frame(y) + s ensures x == y && r == s {
      UnframeFrame(x, r);
      UnframeFrame(y, s);
    }
  }

  /** Two field lists of one length that continue to the same bytes are the same list. */
  lemma FramesPrefixFree(a: seq<Field>, b: seq<Field>, r: Bytes, s: Bytes)
    requires |a| == |b| && Concat(Frame, a) + r == Concat(Frame, b) + s
    ensures a == b && r == s
  {
    forall i | 0 <= i < |a| ensures Separable(Frame, a[i], b[i]) {
      FrameSeparable(a[i], b[i]);
    }
    ConcatPrefixFree(Frame, a, b, r, s);
  }
}
