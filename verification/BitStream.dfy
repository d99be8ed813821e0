/** Streaming radix decoding: `k`-bit digits shifted into a 32-bit accumulator that is never
    masked, with a byte taken off whenever eight bits are waiting. Both the base64 and the base32
    decoder are this machine; here it is proved to compute the big-integer decoding.
 */
module BitStream {
  import opened Arithmetic
  import opened Bytes

  datatype Stream = Stream(acc: nat, bits: nat, out: Bytes)

  const EMPTY := Stream(0, 0, [])

  /** One digit: `acc = (acc << k) | d` in `u32`, then at most one byte out. */
  function Push(k: nat, st: Stream, d: nat): Stream {
    Emit(st.out, BitOr((st.acc * Pow(2, k)) % U32, d), st.bits + k)
  }

  function Emit(out: Bytes, acc: nat, bits: nat): Stream {
    if bits >= 8 then Stream(acc, bits - 8, out + [(acc / Pow(2, bits - 8) % 256) as char])
    else Stream(acc, bits, out)
  }

  function Run(k: nat, ds: seq<nat>): Stream {
    if ds == [] then EMPTY else Push(k, Run(k, ds[..|ds| - 1]), ds[|ds| - 1])
  }

  /** The number a digit string denotes in base `b`. */
  function Value(b: nat, ds: seq<nat>): nat {
    if ds == [] then 0 else b * Value(b, ds[..|ds| - 1]) + ds[|ds| - 1]
  }

  ghost predicate Digits(b: nat, ds: seq<nat>) {
    forall i :: 0 <= i < |ds| ==> ds[i] < b
  }

  /** The machine's invariant against the number `v` read so far. */
  ghost predicate Tracks(st: Stream, v: nat) {
    && st.acc == v % U32 && st.bits < 8
    && BeValue(st.out) == v / Pow(2, st.bits)
  }

  /** The machine holds the leading bytes of the number read; what the accumulator loses off its
      top was already written out. */
  lemma {:induction false} RunTracks(k: nat, ds: seq<nat>)
    requires 1 <= k <= 8 && Digits(Pow(2, k), ds)
    ensures Tracks(Run(k, ds), Value(Pow(2, k), ds))
    ensures 8 * |Run(k, ds).out| + Run(k, ds).bits == k * |ds|
  {
    hide Push, Tracks, Pow;
    if ds != [] {
      var n := |ds| - 1;
      assert Digits(Pow(2, k), ds[..n]);
      RunTracks(k, ds[..n]);
      PushTracks(k, Run(k, ds[..n]), ds[n], Value(Pow(2, k), ds[..n]));
      PushCounts(k, Run(k, ds[..n]), ds[n]);
      Distribute(k, n, 1);
    } else {
      EmptyTracks();
    }
  }

  lemma EmptyTracks()
    ensures Tracks(EMPTY, 0)
  {
  }

  lemma PushCounts(k: nat, st: Stream, d: nat)
    ensures 8 * |Push(k, st, d).out| + Push(k, st, d).bits == 8 * |st.out| + st.bits + k
  {
  }

  lemma PushTracks(k: nat, st: Stream, d: nat, v: nat)
    requires 1 <= k <= 8 && d < Pow(2, k) && Tracks(st, v)
    ensures Tracks(Push(k, st, d), Pow(2, k) * v + d)
  {
    hide Pow, BeValue, Emit, BitOr;
    ShiftIn(k, v, d);
    PowAdd(2, k, st.bits);
    KeepBits(Pow(2, k), Pow(2, st.bits), v, d);
    EmitTracks(st.out, Pow(2, k) * v + d, st.bits + k);
  }

  /** Eight bits that wait become the next byte of the number. */
  lemma EmitTracks(out: Bytes, w: nat, bits: nat)
    requires bits < 16 && BeValue(out) == w / Pow(2, bits)
    ensures Tracks(Emit(out, w % U32, bits), w)
  {
    hide Pow, BeValue;
    if bits >= 8 {
      var q := Pow(2, bits - 8);
      PowAdd(2, 8, bits - 8);
      Pow8();
      QuotientOfQuotient(w, q, 256);
      DivMod(w / q, 256);
      ByteOfAccumulator(w, bits - 8);
      BePush(out, (w / q % 256) as char);
    }
  }

  lemma KeepBits(b: nat, p: nat, v: nat, d: nat)
    requires p > 0 && d < b && b * p > 0
    ensures (b * v + d) / (b * p) == v / p
  {
    Leftover(b, p, v, d);
    QuotientUnique(b * v + d, b * p, v / p, b * (v % p) + d);
  }

  /** After a shift: the bytes already out, and the bits that wait. */
  lemma Leftover(b: nat, p: nat, v: nat, d: nat)
    requires b > 0 && p > 0 && d < b
    ensures b * v + d == b * p * (v / p) + (b * (v % p) + d)
    ensures b * (v % p) + d < b * p
  {
    DivMod(v, p);
    Distribute(b, p * (v / p), v % p);
    Regroup(b, p, v / p);
    LowPartFits(b, p, v % p, d);
  }

  lemma BePush(s: Bytes, b: byte)
    ensures BeValue(s + [b]) == 256 * BeValue(s) + b as int
  {
    assert (s + [b])[..|s|] == s;
  }

  /** Or-ing a digit into the shifted, truncated accumulator is shifting it in and truncating: the
      low bits are free. */
  lemma ShiftIn(k: nat, v: nat, d: nat)
    requires 1 <= k <= 8 && d < Pow(2, k)
    ensures BitOr((v % U32 * Pow(2, k)) % U32, d) == (Pow(2, k) * v + d) % U32
  {
    hide Pow, BitOr;
    PowAdd(2, k, 32 - k);
    Pow32();
    ShiftModulo(Pow(2, k), Pow(2, 32 - k), U32, v, d);
    DropTop(Pow(2, k), U32, v);
    OrBelow(v % Pow(2, 32 - k), d, k);
  }

  lemma ShiftModulo(b: nat, c: nat, m: nat, v: nat, d: nat)
    requires c > 0 && b * c == m && d < b
    ensures m > 0 && (b * v) % m == b * (v % c) && (b * v + d) % m == b * (v % c) + d
  {
    DivMod(v, c);
    Distribute(b, c * (v / c), v % c);
    Regroup(b, c, v / c);
    LowPartFits(b, c, v % c, d);
    QuotientUnique(b * v, m, v / c, b * (v % c));
    QuotientUnique(b * v + d, m, v / c, b * (v % c) + d);
  }

  lemma DropTop(b: nat, m: nat, v: nat)
    requires m > 0
    ensures (v % m * b) % m == (b * v) % m
  {
    DivMod(v, m);
    DropMultiple(b, m, v / m, v % m);
  }

  lemma DropMultiple(b: nat, m: nat, q: nat, r: nat)
    requires m > 0
    ensures (r * b) % m == (b * (m * q + r)) % m
  {
    Distribute(b, m * q, r);
    Regroup(b, m, q);
    RemainderOfSum(m, b * q, b * r);
  }

  /** A byte taken off at most seven bits up is not touched by the truncation to 32 bits. */
  lemma ByteOfAccumulator(w: nat, s: nat)
    requires s < 8
    ensures (w % U32) / Pow(2, s) % 256 == w / Pow(2, s) % 256
  {
    hide Pow;
    PowAdd(2, s, 24 - s);
    PowAdd(2, 8, 24);
    Pow8();
    Pow32();
    MiddleByte(w, Pow(2, s), Pow(2, 24 - s), U32, w / U32, w % U32);
  }

  lemma MiddleByte(w: nat, p: nat, e: nat, m: nat, q: nat, acc: nat)
    requires p > 0 && m == 256 * (p * e) && w == m * q + acc
    ensures acc / p % 256 == w / p % 256
  {
    var y: nat := Product(e, q);
    FactorOut(p, e, m, q);
    MultipleAbove(w, p, y, acc);
  }

  function Product(a: nat, b: nat): nat {
    a * b
  }

  lemma MultipleAbove(w: nat, p: nat, y: nat, acc: nat)
    requires p > 0 && w == p * (256 * y) + acc
    ensures acc / p % 256 == w / p % 256
  {
    DivMod(acc, p);
    QuotientOfSum(w, p, 256 * y, acc / p, acc % p);
    RemainderOfSum(256, y, acc / p);
  }

  lemma FactorOut(p: nat, e: nat, m: nat, q: nat)
    requires m == 256 * (p * e)
    ensures m * q == p * (256 * (e * q))
  {
    Regroup(256, p * e, q);
    Regroup(p, e, q);
    Regroup(p, 256, e * q);
  }

  lemma Pow8()
    ensures Pow(2, 8) == 256
  {
  }

  lemma Pow32()
    ensures Pow(2, 32) == U32
  {
    Pow8();
    PowAdd(2, 8, 8);
    PowAdd(2, 16, 16);
  }

  // ---------------------------------------------------------------- values of concatenations

  lemma {:induction false} ValueAppend(b: nat, xs: seq<nat>, ys: seq<nat>)
    ensures Value(b, xs + ys) == Value(b, xs) * Pow(b, |ys|) + Value(b, ys)
  {
    if ys == [] {
      assert xs + ys == xs;
    } else {
      var n := |ys| - 1;
      ValueAppend(b, xs, ys[..n]);
      assert (xs + ys)[..|xs + ys| - 1] == xs + ys[..n];
      var x, p := Value(b, xs), Pow(b, n);
      Distribute(b, x * p, Value(b, ys[..n]));
      Regroup(b, x, p);
    }
  }

  lemma {:induction false} BeAppend(x: Bytes, y: Bytes)
    ensures BeValue(x + y) == BeValue(x) * Pow(256, |y|) + BeValue(y)
  {
    if y == [] {
      assert x + y == x;
    } else {
      var n := |y| - 1;
      BeAppend(x, y[..n]);
      assert (x + y)[..|x + y| - 1] == x + y[..n];
      Regroup(256, BeValue(x), Pow(256, n));
    }
  }

  /** The output is the one byte string of the right length that denotes the leading bits. */
  lemma RunIs(k: nat, ds: seq<nat>, b: Bytes, pad: nat)
    requires 1 <= k <= 8 && Digits(Pow(2, k), ds)
    requires k * |ds| == 8 * |b| + pad && pad < 8
    ensures Value(Pow(2, k), ds) == Pow(2, pad) * BeValue(b) ==> Run(k, ds).out == b
  {
    hide Run, Value, Pow, BeValue;
    RunTracks(k, ds);
    SameCount(|Run(k, ds).out|, Run(k, ds).bits, |b|, pad);
    if Value(Pow(2, k), ds) == Pow(2, pad) * BeValue(b) {
      QuotientUnique(Value(Pow(2, k), ds), Pow(2, pad), BeValue(b), 0);
      BeInjective(Run(k, ds).out, b);
    }
  }

  lemma SameCount(m: nat, r: nat, n: nat, s: nat)
    requires 8 * m + r == 8 * n + s && r < 8 && s < 8
    ensures m == n && r == s
  {
  }

  lemma RunPush(k: nat, ds: seq<nat>, d: nat)
    ensures Run(k, ds + [d]) == Push(k, Run(k, ds), d)
  {
    assert (ds + [d])[..|ds|] == ds;
  }
}
