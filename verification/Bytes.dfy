/** Byte strings, fixed-width integers and failure values shared by every component. */
module Bytes {
  import opened Arithmetic

  /** A byte is written as the character that carries its code, so that text constants stay readable. */
  type byte = c: char | c as int < 256 witness 'a'
  type Bytes = seq<byte>

  const U32: int := 0x1_0000_0000
  const U64: int := 0x1_0000_0000_0000_0000

  /** A byte string whose length fits a `u64` length prefix; every Rust slice does. */
  type Field = s: Bytes | |s| < 0x1_0000_0000_0000_0000

  type u64 = n: int | 0 <= n < 0x1_0000_0000_0000_0000
  type i64 = n: int | -0x8000_0000_0000_0000 <= n < 0x8000_0000_0000_0000

  datatype Option<+T> = None | Some(value: T)

  datatype Result<+T, +E> = Ok(value: T) | Err(error: E) {
    predicate IsFailure() { Err? }
    function PropagateFailure<U>(): Result<U, E>
      requires Err?
    {
      Err(error)
    }
    function Extract(): T
      requires Ok?
    {
      value
    }
  }

  // ---------------------------------------------------------------- ASCII classes

  predicate IsLower(b: byte) { 'a' <= b <= 'z' }
  predicate IsUpper(b: byte) { 'A' <= b <= 'Z' }
  predicate IsDigit(b: byte) { '0' <= b <= '9' }
  predicate IsAlphanumeric(b: byte) { IsLower(b) || IsUpper(b) || IsDigit(b) }
  predicate IsLowerHex(b: byte) { IsDigit(b) || 'a' <= b <= 'f' }

  predicate All(s: Bytes, p: byte -> bool) {
    forall i :: 0 <= i < |s| ==> p(s[i])
  }

  // ---------------------------------------------------------------- little-endian integers

  /** The `k` low bytes of `n`, least significant first (`to_le_bytes`). */
  function LeBytes(n: nat, k: nat): (r: Bytes)
    ensures |r| == k
  {
    if k == 0 then [] else [(n % 256) as char] + LeBytes(n / 256, k - 1)
  }

  /** The number a little-endian byte string denotes (`from_le_bytes`). */
  function LeValue(s: Bytes): (n: nat)
    ensures n < Pow(256, |s|)
  {
    if s == [] then 0 else s[0] as int + 256 * LeValue(s[1..])
  }

  lemma {:induction false} LeRoundTrip(n: nat, k: nat)
    requires n < Pow(256, k)
    ensures LeValue(LeBytes(n, k)) == n
  {
    if k > 0 {
      LeRoundTrip(n / 256, k - 1);
      assert LeBytes(n, k)[1..] == LeBytes(n / 256, k - 1);
    }
  }

  lemma {:induction false} LeExact(s: Bytes)
    ensures LeBytes(LeValue(s), |s|) == s
  {
    if s != [] {
      LeExact(s[1..]);
      QuotientUnique(LeValue(s), 256, LeValue(s[1..]), s[0] as int);
    }
  }

  lemma Pow256Is64Bits()
    ensures Pow(256, 8) == U64
  {
    assert Pow(256, 4) == 0x1_0000_0000;
    PowAdd(256, 4, 4);
  }

  /** Two's complement little-endian bytes of an `i64`. */
  function I64Bytes(n: i64): (r: Field)
    ensures |r| == 8
  {
    LeBytes(if n < 0 then n + U64 else n, 8)
  }

  lemma I64BytesInjective(m: i64, n: i64)
    requires I64Bytes(m) == I64Bytes(n)
    ensures m == n
  {
    Pow256Is64Bits();
    LeRoundTrip(if m < 0 then m + U64 else m, 8);
    LeRoundTrip(if n < 0 then n + U64 else n, 8);
  }

  // ---------------------------------------------------------------- big-endian integers

  /** The number a big-endian byte string denotes (`from_be_bytes`). */
  function BeValue(s: Bytes): nat {
    if s == [] then 0 else 256 * BeValue(s[..|s| - 1]) + s[|s| - 1] as int
  }

  lemma {:induction false} BeInjective(s: Bytes, t: Bytes)
    requires |s| == |t| && BeValue(s) == BeValue(t)
    ensures s == t
  {
    if s != [] {
      var n := |s| - 1;
      BeInjective(s[..n], t[..n]);
      assert s == s[..n] + [s[n]] && t == t[..n] + [t[n]];
    }
  }
}
