/** Standard padded base64 (section 4 of RFC 4648): the encoder of the push body and the lenient
    streaming decoder of the signing-key body.
 */
module Base64 {
  import opened Arithmetic
  import opened Bytes
  import opened BitStream

  /** Character `n` of the standard alphabet. */
  function Letter(n: nat): byte
    requires n < 64
  {
    if n < 26 then ('A' as int + n) as char
    else if n < 52 then ('a' as int + (n - 26)) as char
    else if n < 62 then ('0' as int + (n - 52)) as char
    else if n == 62 then '+' else '/'
  }

  /** The position of a byte in the standard alphabet. */
  function Position(b: byte): (r: Option<nat>)
    ensures r.Some? ==> r.value < 64
  {
    if IsUpper(b) then Some(b as int - 'A' as int)
    else if IsLower(b) then Some(b as int - 'a' as int + 26)
    else if IsDigit(b) then Some(b as int - '0' as int + 52)
    else if b == '+' then Some(62)
    else if b == '/' then Some(63)
    else None
  }

  predicate Skipped(b: byte) {
    b == '=' || b == ' ' || 9 <= b as int <= 10 || 12 <= b as int <= 13
  }

  // ---------------------------------------------------------------- decoding

  /** The sextets of a text, padding and whitespace left out; `None` if it holds another byte. */
  function Sextets(s: Bytes): (r: Option<seq<nat>>)
    ensures r.Some? ==> Digits(64, r.value)
  {
    if s == [] then Some([])
    else
      var n := |s| - 1;
      var r := Sextets(s[..n]);
      if r.None? then None
      else if Skipped(s[n]) then r
      else if Position(s[n]).None? then None
      else Some(r.value + [Position(s[n]).value])
  }

  function Decoded(s: Bytes): Option<Bytes> {
    if Sextets(s).None? then None else Some(Run(6, Sextets(s).value).out)
  }

  lemma {:induction false} SextetsOfPrefix(s: Bytes, i: nat)
    requires i <= |s| && Sextets(s[..i]).None?
    ensures Sextets(s).None?
    decreases |s| - i
  {
    if i < |s| {
      assert s[..i + 1][..i] == s[..i];
      SextetsOfPrefix(s, i + 1);
    } else {
      assert s[..i] == s;
    }
  }

  method Base64DecodeStandard(s: Bytes) returns (r: Option<Bytes>)
    ensures r == Decoded(s)
  {
    hide Position, Skipped, Run, Sextets, Pow, BitOr;
    var out: Bytes := [];
    var acc: nat, bits: nat := 0, 0;
    NoSextets();
    for i := 0 to |s|
      invariant Sextets(s[..i]).Some?
      invariant Run(6, Sextets(s[..i]).value) == Stream(acc, bits, out)
    {
      NextSextet(s, i);
      if !Skipped(s[i]) {
        var value := Position(s[i]);
        if value.None? {
          SextetsOfPrefix(s, i + 1);
          return None;
        }
        RunPush(6, Sextets(s[..i]).value, value.value);
        SixBits();
        acc := BitOr((acc * 64) % U32, value.value);
        bits := bits + 6;
        if bits >= 8 {
          bits := bits - 8;
          out := out + [(acc / Pow(2, bits) % 256) as char];
        }
      }
    }
    assert s[..|s|] == s;
    r := Some(out);
  }

  lemma NoSextets()
    ensures Sextets([]) == Some([]) && Run(6, []) == EMPTY
  {
  }

  lemma NextSextet(s: Bytes, i: nat)
    requires i < |s| && Sextets(s[..i]).Some?
    ensures
      var before, value := Sextets(s[..i]).value, Position(s[i]);
      Sextets(s[..i + 1]) ==
      if Skipped(s[i]) then Some(before) else if value.None? then None else Some(before + [value.value])
  {
    hide Position, Skipped;
    assert s[..i + 1][..i] == s[..i];
  }

  lemma SixBits()
    ensures Pow(2, 6) == 64
  {
  }

  /** What the decoder computes: the leading bytes of the base-64 number its sextets write. */
  lemma DecodedIsBigInteger(s: Bytes)
    requires Sextets(s).Some?
    ensures
      var ds := Sextets(s).value;
      var b := Decoded(s).value;
      |b| == 6 * |ds| / 8 && BeValue(b) == Value(64, ds) / Pow(2, 6 * |ds| % 8)
  {
    hide Sextets, Run, Value, Pow, BeValue;
    SixBits();
    RunTracks(6, Sextets(s).value);
    WholeBytes(|Decoded(s).value|, Run(6, Sextets(s).value).bits, 6 * |Sextets(s).value|);
  }

  lemma WholeBytes(n: nat, bits: nat, total: nat)
    requires 8 * n + bits == total && bits < 8
    ensures n == total / 8 && bits == total % 8
  {
  }

  // ---------------------------------------------------------------- encoding

  /** The 24 bits of a chunk of one to three bytes, missing bytes read as zero. */
  function Word(c: Bytes): nat
    requires 1 <= |c| <= 3
  {
    var b1 := if |c| > 1 then c[1] as int else 0;
    var b2 := if |c| > 2 then c[2] as int else 0;
    BitOr(BitOr(c[0] as int * 65536, b1 * 256), b2)
  }

  /** The three bytes do not overlap. */
  lemma WordIsSum(c: Bytes)
    requires 1 <= |c| <= 3
    ensures Word(c) ==
      c[0] as int * 65536 + (if |c| > 1 then c[1] as int else 0) * 256 + (if |c| > 2 then c[2] as int else 0)
  {
    hide BitOr, Pow;
    var b1 := if |c| > 1 then c[1] as int else 0;
    var b2 := if |c| > 2 then c[2] as int else 0;
    Pow8();
    PowAdd(2, 8, 8);
    OrBelow(c[0] as int, b1 * 256, 16);
    OrBelow(c[0] as int * 256 + b1, b2, 8);
  }

  function Sextet(n: nat, d: nat): (r: nat)
    requires d > 0
    ensures r < 64
  {
    n / d % 64
  }

  function ChunkSextets(c: Bytes): (r: seq<nat>)
    requires 1 <= |c| <= 3
    ensures |r| == |c| + 1 && Digits(64, r)
  {
    var n := Word(c);
    [Sextet(n, 262144), Sextet(n, 4096)]
    + (if |c| > 1 then [Sextet(n, 64)] else [])
    + (if |c| > 2 then [Sextet(n, 1)] else [])
  }

  function Letters(ds: seq<nat>): (r: Bytes)
    requires Digits(64, ds)
    ensures |r| == |ds|
  {
    if ds == [] then [] else Letters(ds[..|ds| - 1]) + [Letter(ds[|ds| - 1])]
  }

  /** The four characters of a chunk of one to three bytes, missing bytes read as zero. */
  function EncodedChunk(c: Bytes): Bytes
    requires 1 <= |c| <= 3
  {
    var n := Word(c);
    [Letter(Sextet(n, 262144)), Letter(Sextet(n, 4096)),
     if |c| > 1 then Letter(Sextet(n, 64)) else '=',
     if |c| > 2 then Letter(Sextet(n, 1)) else '=']
  }

  function Chunk(b: Bytes): Bytes
    requires b != []
  {
    if |b| < 3 then b else b[..3]
  }

  function Encoded(b: Bytes): Bytes {
    if b == [] then [] else EncodedChunk(Chunk(b)) + Encoded(b[|Chunk(b)|..])
  }

  method Base64Standard(bytes: Bytes) returns (out: Bytes)
    ensures out == Encoded(bytes)
  {
    hide EncodedChunk, Letter;
    out := [];
    var i := 0;
    assert bytes[0..] == bytes;
    while i < |bytes|
      invariant 0 <= i <= |bytes|
      invariant out + Encoded(bytes[i..]) == Encoded(bytes)
    {
      var next := if i + 3 <= |bytes| then i + 3 else |bytes|;
      var chunk := bytes[i..next];
      assert chunk == Chunk(bytes[i..]) && bytes[i..][|chunk|..] == bytes[next..];
      assert out + EncodedChunk(chunk) + Encoded(bytes[next..]) == out + (EncodedChunk(chunk) + Encoded(bytes[next..]));
      out := out + EncodedChunk(chunk);
      i := next;
    }
    assert bytes[i..] == [] && out + [] == out;
  }

  /** A chunk's characters are the letters of its sextets, then padding. */
  lemma FourLetters(c: Bytes)
    requires 1 <= |c| <= 3
    ensures EncodedChunk(c) == Letters(ChunkSextets(c)) + (if |c| == 1 then "==" else if |c| == 2 then "=" else "")
  {
    hide Letter, Sextet, Word;
    var ds := ChunkSextets(c);
    assert Letters(ds[..1]) == [Letter(ds[0])] by { assert ds[..1][..0] == []; }
    assert Letters(ds[..2]) == [Letter(ds[0]), Letter(ds[1])] by { assert ds[..2][..1] == ds[..1]; }
    if |c| > 1 {
      assert Letters(ds[..3]) == [Letter(ds[0]), Letter(ds[1]), Letter(ds[2])] by { assert ds[..3][..2] == ds[..2]; }
    }
    if |c| > 2 {
      assert Letters(ds[..4]) == [Letter(ds[0]), Letter(ds[1]), Letter(ds[2]), Letter(ds[3])] by {
        assert ds[..4][..3] == ds[..3];
      }
    }
    assert ds[..|ds|] == ds;
  }

  // ---------------------------------------------------------------- round trip

  /** All sextets of an encoding, in order. */
  function EncodedSextets(b: Bytes): (r: seq<nat>)
    ensures Digits(64, r)
  {
    if b == [] then [] else ChunkSextets(Chunk(b)) + EncodedSextets(b[|Chunk(b)|..])
  }

  function Pad(b: Bytes): (r: nat)
    ensures r < 8
  {
    match |b| % 3 case 0 => 0 case 1 => 4 case _ => 2
  }

  lemma ChunkValue(c: Bytes)
    requires 1 <= |c| <= 3
    ensures Value(64, ChunkSextets(c)) == Pow(2, Pad(c)) * BeValue(c)
  {
    hide Value, BeValue, Pow, Sextet, ChunkSextets, Word;
    WordIsSum(c);
    PadPowers();
    ThreeBytes(c);
    FewDigits(ChunkSextets(c));
    SextetsOf(c);
    SextetArithmetic(c[0] as int, if |c| > 1 then c[1] as int else 0, if |c| > 2 then c[2] as int else 0);
    Scaled(Pow(2, Pad(c)), BeValue(c), Value(64, ChunkSextets(c)));
  }

  lemma Scaled(factor: nat, x: nat, y: nat)
    requires (factor == 1 && y == x) || (factor == 4 && y == 4 * x) || (factor == 16 && y == 16 * x)
    ensures y == factor * x
  {
  }

  lemma SextetsOf(c: Bytes)
    requires 1 <= |c| <= 3
    ensures
      var n, ds := Word(c), ChunkSextets(c);
      && ds[0] == Sextet(n, 262144) && ds[1] == Sextet(n, 4096)
      && (|c| > 1 ==> ds[2] == Sextet(n, 64)) && (|c| > 2 ==> ds[3] == Sextet(n, 1))
  {
    hide Word, Sextet;
  }

  lemma PadPowers()
    ensures Pow(2, 0) == 1 && Pow(2, 2) == 4 && Pow(2, 4) == 16
  {
  }

  /** The sextets of three bytes carry all 24 bits; the unused ones are zero. */
  lemma SextetArithmetic(b0: nat, b1: nat, b2: nat)
    requires b0 < 256 && b1 < 256 && b2 < 256
    ensures
      var n := b0 * 65536 + b1 * 256 + b2;
      var d0, d1, d2, d3 := Sextet(n, 262144), Sextet(n, 4096), Sextet(n, 64), Sextet(n, 1);
      && 262144 * d0 + 4096 * d1 + 64 * d2 + d3 == n
      && (b2 == 0 ==> 4096 * d0 + 64 * d1 + d2 == 4 * (256 * b0 + b1))
      && (b2 == 0 && b1 == 0 ==> 64 * d0 + d1 == 16 * b0)
  {
    hide Sextet;
    var n := b0 * 65536 + b1 * 256 + b2;
    var x0, y0, x1, y1, x2, y2 := b0 / 4, b0 % 4, b1 / 16, b1 % 16, b2 / 64, b2 % 64;
    SextetAt(n, 262144, 0, x0, 65536 * y0 + 256 * b1 + b2);
    SextetAt(n, 4096, x0, 16 * y0 + x1, 256 * y1 + b2);
    SextetAt(n, 64, 64 * x0 + 16 * y0 + x1, 4 * y1 + x2, y2);
    SextetAt(n, 1, 4096 * x0 + 1024 * y0 + 64 * x1 + 4 * y1 + x2, y2, 0);
  }

  lemma SextetAt(n: nat, d: nat, above: nat, digit: nat, below: nat)
    requires n == d * (64 * above + digit) + below && digit < 64 && below < d
    ensures Sextet(n, d) == digit
  {
    QuotientUnique(n, d, 64 * above + digit, below);
  }

  lemma FewDigits(ds: seq<nat>)
    requires 2 <= |ds| <= 4
    ensures |ds| == 2 ==> Value(64, ds) == 64 * ds[0] + ds[1]
    ensures |ds| == 3 ==> Value(64, ds) == 4096 * ds[0] + 64 * ds[1] + ds[2]
    ensures |ds| == 4 ==> Value(64, ds) == 262144 * ds[0] + 4096 * ds[1] + 64 * ds[2] + ds[3]
  {
    assert Value(64, ds[..1]) == ds[0] by { assert ds[..1][..0] == []; }
    assert Value(64, ds[..2]) == 64 * ds[0] + ds[1] by { assert ds[..2][..1] == ds[..1]; }
    if |ds| > 2 {
      assert Value(64, ds[..3]) == 4096 * ds[0] + 64 * ds[1] + ds[2] by { assert ds[..3][..2] == ds[..2]; }
    }
    if |ds| > 3 {
      assert ds[..4] == ds && ds[..4][..3] == ds[..3];
    }
    assert ds[..|ds|] == ds;
  }

  lemma ThreeBytes(c: Bytes)
    requires 1 <= |c| <= 3
    ensures |c| == 1 ==> BeValue(c) == c[0] as int
    ensures |c| == 2 ==> BeValue(c) == 256 * c[0] as int + c[1] as int
    ensures |c| == 3 ==> BeValue(c) == 65536 * c[0] as int + 256 * c[1] as int + c[2] as int
  {
    assert c[..1][..0] == [];
    assert BeValue(c[..1]) == c[0] as int;
    if |c| >= 2 {
      assert c[..2][..1] == c[..1];
      assert BeValue(c[..2]) == 256 * c[0] as int + c[1] as int;
    }
    assert c[..|c|] == c;
  }

  /** The encoding writes the input's bits, then zero bits up to the last sextet. */
  lemma {:induction false} EncodedValue(b: Bytes)
    ensures 6 * |EncodedSextets(b)| == 8 * |b| + Pad(b)
    ensures Value(64, EncodedSextets(b)) == Pow(2, Pad(b)) * BeValue(b)
    decreases |b|
  {
    hide Value, Pow, BeValue, ChunkSextets;
    if |b| > 3 {
      EncodedValue(b[3..]);
      FullChunkFirst(b);
    } else if b != [] {
      assert Chunk(b) == b && ChunkSextets(b) + [] == ChunkSextets(b);
      ChunkValue(b);
    } else {
      NothingEncoded();
    }
  }

  lemma NothingEncoded()
    ensures Value(64, []) == 0 && BeValue([]) == 0
  {
  }

  lemma FullChunkFirst(b: Bytes)
    requires |b| > 3
    requires 6 * |EncodedSextets(b[3..])| == 8 * |b[3..]| + Pad(b[3..])
    requires Value(64, EncodedSextets(b[3..])) == Pow(2, Pad(b[3..])) * BeValue(b[3..])
    ensures 6 * |EncodedSextets(b)| == 8 * |b| + Pad(b)
    ensures Value(64, EncodedSextets(b)) == Pow(2, Pad(b)) * BeValue(b)
  {
    hide Value, Pow, BeValue, ChunkSextets, Pad;
    var c, rest := b[..3], b[3..];
    PadOfRest(b);
    ChunkValue(c);
    PowZero();
    assert EncodedSextets(b) == ChunkSextets(c) + EncodedSextets(rest);
    ValueAppend(64, ChunkSextets(c), EncodedSextets(rest));
    BeAppend(c, rest);
    assert b == c + rest;
    JoinValues(BeValue(c), BeValue(rest), |rest|, |EncodedSextets(rest)|, Pad(b));
  }

  lemma PadOfRest(b: Bytes)
    requires |b| > 3
    ensures Pad(b[..3]) == 0 && Pad(b[3..]) == Pad(b)
  {
  }

  lemma PowZero()
    ensures Pow(2, 0) == 1
  {
  }

  lemma JoinValues(x: nat, y: nat, n: nat, m: nat, pad: nat)
    requires 6 * m == 8 * n + pad
    ensures x * Pow(64, m) + Pow(2, pad) * y == Pow(2, pad) * (x * Pow(256, n) + y)
  {
    hide Pow;
    PowMultiply(6, m);
    PowMultiply(8, n);
    SixBits();
    Pow8();
    PowAdd(2, 8 * n, pad);
    var p, q := Pow(256, n), Pow(2, pad);
    Regroup(x, p, q);
    Distribute(q, x * p, y);
  }

  lemma {:induction false} SextetsOfLetters(s: Bytes, ds: seq<nat>)
    requires Digits(64, ds) && Sextets(s).Some?
    ensures Sextets(s + Letters(ds)) == Some(Sextets(s).value + ds)
    decreases |ds|
  {
    hide Letter, Position, Skipped, Sextets;
    if ds == [] {
      assert s + Letters(ds) == s && Sextets(s).value + ds == Sextets(s).value;
    } else {
      var n := |ds| - 1;
      SextetsOfLetters(s, ds[..n]);
      var t := s + Letters(ds[..n]);
      SextetsPush(t, ds[n]);
      assert t + [Letter(ds[n])] == s + Letters(ds);
      assert Sextets(s).value + ds[..n] + [ds[n]] == Sextets(s).value + ds;
    }
  }

  lemma SextetsPush(t: Bytes, d: nat)
    requires Sextets(t).Some? && d < 64
    ensures Sextets(t + [Letter(d)]) == Some(Sextets(t).value + [d])
  {
    hide Letter, Position, Skipped;
    PositionOfLetter(d);
    assert (t + [Letter(d)])[..|t|] == t;
  }

  lemma PositionOfLetter(n: nat)
    requires n < 64
    ensures Position(Letter(n)) == Some(n) && !Skipped(Letter(n))
  {
  }

  lemma SextetsOfChunk(s: Bytes, c: Bytes)
    requires 1 <= |c| <= 3 && Sextets(s).Some?
    ensures Sextets(s + EncodedChunk(c)) == Some(Sextets(s).value + ChunkSextets(c))
  {
    hide Letters, ChunkSextets, EncodedChunk;
    FourLetters(c);
    var ls := Letters(ChunkSextets(c));
    SextetsOfLetters(s, ChunkSextets(c));
    if |c| < 3 {
      assert (s + (ls + "=")) [..|s + ls|] == s + ls;
    }
    if |c| == 1 {
      assert (s + (ls + "=="))[..|s + ls| + 1] == s + (ls + "=");
    } else if |c| == 3 {
      assert ls + "" == ls;
    }
  }

  lemma {:induction false} SextetsOfEncoded(s: Bytes, b: Bytes)
    requires Sextets(s).Some?
    ensures Sextets(s + Encoded(b)) == Some(Sextets(s).value + EncodedSextets(b))
    decreases |b|
  {
    hide EncodedChunk, ChunkSextets, Sextets;
    if b == [] {
      assert s + Encoded(b) == s && Sextets(s).value + EncodedSextets(b) == Sextets(s).value;
    } else {
      var c := Chunk(b);
      SextetsOfChunk(s, c);
      SextetsOfEncoded(s + EncodedChunk(c), b[|c|..]);
      assert s + EncodedChunk(c) + Encoded(b[|c|..]) == s + Encoded(b);
      assert Sextets(s).value + ChunkSextets(c) + EncodedSextets(b[|c|..]) == Sextets(s).value + EncodedSextets(b);
    }
  }

  /** Decoding an encoding returns the bytes, for every byte string. */
  lemma RoundTrip(b: Bytes)
    ensures Decoded(Encoded(b)) == Some(b)
  {
    hide Encoded, EncodedSextets, Value, Pow, BeValue, Run;
    SextetsOfEncoded([], b);
    assert [] + Encoded(b) == Encoded(b) && [] + EncodedSextets(b) == EncodedSextets(b);
    EncodedValue(b);
    SixBits();
    RunIs(6, EncodedSextets(b), b, Pad(b));
  }
}
