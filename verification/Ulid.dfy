/** Request ids: 48 bits of time and 80 random bits written as 26 Crockford base32 characters. */
module Ulid {
  import opened Arithmetic
  import opened Bytes
  import opened BitStream
  import opened Scope

  const TIME_LIMIT: nat := 0x1_0000_0000_0000

  type Entropy = r: Bytes | |r| == 10 witness seq(10, i => 'a')

  /** Character `n` of the alphabet, which leaves out I, L, O and U. */
  function Symbol(n: nat): byte
    requires n < 32
  {
    if n < 10 then ('0' as int + n) as char
    else if n < 18 then ('A' as int + (n - 10)) as char
    else if n < 20 then ('J' as int + (n - 18)) as char
    else if n < 22 then ('M' as int + (n - 20)) as char
    else if n < 27 then ('P' as int + (n - 22)) as char
    else ('V' as int + (n - 27)) as char
  }

  function SymbolValue(b: byte): (r: Option<nat>)
    ensures r.Some? ==> r.value < 32
  {
    if IsDigit(b) then Some(b as int - '0' as int)
    else if 'A' <= b <= 'H' then Some(b as int - 'A' as int + 10)
    else if 'J' <= b <= 'K' then Some(b as int - 'J' as int + 18)
    else if 'M' <= b <= 'N' then Some(b as int - 'M' as int + 20)
    else if 'P' <= b <= 'T' then Some(b as int - 'P' as int + 22)
    else if 'V' <= b <= 'Z' then Some(b as int - 'V' as int + 27)
    else None
  }

  /** The low `5 * n` bits of `v`, most significant character first. */
  function Text(v: nat, n: nat): (s: Bytes)
    ensures |s| == n
  {
    if n == 0 then [] else Text(v / 32, n - 1) + [Symbol(v % 32)]
  }

  /** The number a text of symbols denotes. */
  function TextValue(s: Bytes): Option<nat> {
    if s == [] then Some(0)
    else
      var high, low := TextValue(s[..|s| - 1]), SymbolValue(s[|s| - 1]);
      if high.None? || low.None? then None else Some(32 * high.value + low.value)
  }

  /** The 128-bit value of an id. */
  function IdValue(time: nat, random: Entropy): nat {
    Pow(256, 10) * time + BeValue(random)
  }

  method RequestId(nowMs: i64, random: Option<Entropy>) returns (r: Result<Bytes, ValidationError>)
    ensures r.Ok? <==> 0 <= nowMs < TIME_LIMIT && random.Some?
    ensures r.Ok? ==> r.value == Text(IdValue(nowMs, random.value), 26)
  {
    if nowMs < 0 || nowMs >= TIME_LIMIT || random.None? {
      return Err(InvalidParams);
    }
    var value := Assemble(nowMs, random.value);
    var text := WriteText(value);
    r := Ok(text);
  }

  /** Time above, random bytes below, or-ed in one by one. */
  method Assemble(time: nat, random: Entropy) returns (value: nat)
    ensures value == IdValue(time, random)
  {
    hide Pow, BeValue, BitOr;
    value := Pow(256, 10) * time;
    NoBytes();
    for i := 0 to 10
      invariant value == Pow(256, 10) * time + Pow(256, 10 - i) * BeValue(random[..i])
    {
      AddByte(random, i);
      OrByte(time, BeValue(random[..i]), random[i], i);
      value := BitOr(value, random[i] as int * Pow(256, 9 - i));
    }
    assert random[..10] == random;
  }

  /** The bits or-ed in lie below all bits written so far. */
  lemma OrByte(time: nat, above: nat, b: byte, i: nat)
    requires i < 10
    ensures
      var value, shifted := Pow(256, 10) * time + Pow(256, 10 - i) * above, b as int * Pow(256, 9 - i);
      BitOr(value, shifted) == value + shifted
  {
    hide Pow, BitOr;
    PowStep(9 - i);
    Pow8();
    PowMultiply(8, 10 - i);
    PowAdd(256, 10 - i, i);
    OrShifted(time, above, b, Pow(256, i), Pow(256, 9 - i), Pow(256, 10 - i), Pow(256, 10), 8 * (10 - i));
  }

  lemma OrShifted(time: nat, above: nat, b: byte, hi: nat, q: nat, p: nat, top: nat, k: nat)
    requires p == Pow(2, k) && p == 256 * q && top == p * hi && q > 0
    ensures BitOr(top * time + p * above, b as int * q) == top * time + p * above + b as int * q
  {
    hide Pow, BitOr;
    Regroup(p, hi, time);
    var x: nat := Product(hi, time) + above;
    Distribute(p, hi * time, above);
    assert top * time + p * above == x * p;
    ByteBelow(b as int, q);
    OrBelow(x, b as int * q, k);
  }

  lemma ByteBelow(b: nat, q: nat)
    requires b < 256 && q > 0
    ensures b * q < 256 * q
  {
    Distribute(q, b, 256 - b);
  }

  lemma NoBytes()
    ensures BeValue([]) == 0 && Pow(256, 0) == 1
  {
  }

  /** The characters, written from the last to the first. */
  method WriteText(v: nat) returns (s: Bytes)
    ensures s == Text(v, 26)
  {
    hide Symbol;
    var value := v;
    var text := new byte[26](i => '0');
    assert text[26..] == [];
    var j: nat := 26;
    while j > 0
      invariant j <= 26 && text.Length == 26
      invariant Text(v, 26) == Text(value, j) + text[j..]
    {
      j := j - 1;
      text[j] := Symbol(value % 32);
      assert text[j..] == [Symbol(value % 32)] + text[j + 1..];
      value := value / 32;
    }
    s := text[..];
  }

  lemma AddByte(bytes: Bytes, i: nat)
    requires |bytes| == 10 && i < 10
    ensures Pow(256, 9 - i) * BeValue(bytes[..i + 1]) ==
      Pow(256, 10 - i) * BeValue(bytes[..i]) + bytes[i] as int * Pow(256, 9 - i)
  {
    hide Pow, BeValue;
    assert bytes[..i + 1] == bytes[..i] + [bytes[i]];
    BePush(bytes[..i], bytes[i]);
    PowStep(9 - i);
    var p, v := Pow(256, 9 - i), BeValue(bytes[..i]);
    Distribute(p, 256 * v, bytes[i] as int);
    Regroup(p, 256, v);
  }

  lemma PowStep(n: nat)
    ensures Pow(256, n + 1) == 256 * Pow(256, n)
  {
  }

  // ---------------------------------------------------------------- lossless

  lemma SymbolRoundTrip(n: nat)
    requires n < 32
    ensures SymbolValue(Symbol(n)) == Some(n)
  {
  }

  lemma {:induction false} TextRoundTrip(v: nat, n: nat)
    requires v < Pow(32, n)
    ensures TextValue(Text(v, n)) == Some(v)
  {
    if n > 0 {
      TextRoundTrip(v / 32, n - 1);
      assert Text(v, n)[..n - 1] == Text(v / 32, n - 1);
      SymbolRoundTrip(v % 32);
    }
  }

  /** 128 bits fit 26 characters with the first one below 8. */
  lemma IdValueBound(time: nat, random: Entropy)
    requires time < TIME_LIMIT
    ensures IdValue(time, random) < 8 * Pow(32, 25) && 8 * Pow(32, 25) <= Pow(32, 26)
  {
    BeBound(random);
    hide Pow;
    Widths();
    LowPartFits(Pow(256, 10), TIME_LIMIT, time, BeValue(random));
  }

  lemma Widths()
    ensures Pow(256, 10) * TIME_LIMIT == 8 * Pow(32, 25)
    ensures Pow(32, 26) == 32 * Pow(32, 25)
  {
    assert Pow(256, 5) == 0x100_0000_0000;
    PowAdd(256, 5, 5);
    assert Pow(32, 5) == 0x200_0000;
    PowAdd(32, 5, 5);
    PowAdd(32, 10, 10);
    PowAdd(32, 20, 5);
  }

  lemma {:induction false} BeBound(s: Bytes)
    ensures BeValue(s) < Pow(256, |s|)
  {
    if s != [] {
      BeBound(s[..|s| - 1]);
    }
  }

  /** The characters decode back to the 128-bit value. */
  lemma IdLossless(time: nat, random: Entropy)
    requires time < TIME_LIMIT
    ensures TextValue(Text(IdValue(time, random), 26)) == Some(IdValue(time, random))
  {
    IdValueBound(time, random);
    TextRoundTrip(IdValue(time, random), 26);
  }

  lemma IdInjective(t1: nat, r1: Entropy, t2: nat, r2: Entropy)
    requires t1 < TIME_LIMIT && t2 < TIME_LIMIT
    ensures Text(IdValue(t1, r1), 26) == Text(IdValue(t2, r2), 26) <==> t1 == t2 && r1 == r2
  {
    hide Text, Pow, IdValue;
    IdLossless(t1, r1);
    IdLossless(t2, r2);
    IdParts(t1, r1);
    IdParts(t2, r2);
    if BeValue(r1) == BeValue(r2) {
      BeInjective(r1, r2);
    }
  }

  lemma IdParts(time: nat, random: Entropy)
    ensures IdValue(time, random) / Pow(256, 10) == time && IdValue(time, random) % Pow(256, 10) == BeValue(random)
  {
    hide Pow, BeValue;
    BeBound(random);
    QuotientUnique(IdValue(time, random), Pow(256, 10), time, BeValue(random));
  }

  // ---------------------------------------------------------------- ordered

  ghost predicate LexLessAt(s: Bytes, t: Bytes, k: nat) {
    k < |s| && k < |t| && s[..k] == t[..k] && s[k] < t[k]
  }

  ghost predicate LexLess(s: Bytes, t: Bytes) {
    exists k: nat :: LexLessAt(s, t, k)
  }

  lemma SymbolIncreasing(m: nat, n: nat)
    requires m < n < 32
    ensures Symbol(m) < Symbol(n)
  {
  }

  lemma {:induction false} TextIncreasing(v: nat, w: nat, n: nat)
    requires v < w < Pow(32, n)
    ensures LexLess(Text(v, n), Text(w, n))
  {
    var s, t := Text(v, n), Text(w, n);
    if v / 32 < w / 32 {
      TextIncreasing(v / 32, w / 32, n - 1);
      var k: nat :| LexLessAt(Text(v / 32, n - 1), Text(w / 32, n - 1), k);
      assert s[..k] == Text(v / 32, n - 1)[..k] && t[..k] == Text(w / 32, n - 1)[..k];
      assert LexLessAt(s, t, k);
    } else {
      SymbolIncreasing(v % 32, w % 32);
      assert s[..n - 1] == Text(v / 32, n - 1) && t[..n - 1] == Text(w / 32, n - 1);
      assert LexLessAt(s, t, n - 1);
    }
  }

  /** Text order follows time, whatever the random suffixes are. */
  lemma IdOrderFollowsTime(t1: nat, r1: Entropy, t2: nat, r2: Entropy)
    requires t1 < t2 < TIME_LIMIT
    ensures LexLess(Text(IdValue(t1, r1), 26), Text(IdValue(t2, r2), 26))
  {
    hide Text, Pow, BeValue;
    BeBound(r1);
    IdValueBound(t2, r2);
    LowPartFits(Pow(256, 10), t2, t1, BeValue(r1));
    TextIncreasing(IdValue(t1, r1), IdValue(t2, r2), 26);
  }

  // ---------------------------------------------------------------- the approval envelope's check

  predicate IdByte(b: byte) { SymbolValue(b).Some? }

  /** The shape an approval envelope demands of every request id. */
  predicate RequestIdOk(id: Bytes) {
    |id| == 26 && id[0] <= '7' && All(id, IdByte)
  }

  lemma {:induction false} TextShape(v: nat, n: nat)
    requires n > 0
    ensures All(Text(v, n), IdByte)
    ensures v < 8 * Pow(32, n - 1) ==> Text(v, n)[0] <= '7'
  {
    SymbolRoundTrip(v % 32);
    if n > 1 {
      TextShape(v / 32, n - 1);
      assert Text(v, n)[..n - 1] == Text(v / 32, n - 1);
    } else {
      assert Pow(32, 0) == 1;
    }
  }

  /** Every id the vault issues passes that check. */
  lemma IssuedIdAccepted(time: nat, random: Entropy)
    requires time < TIME_LIMIT
    ensures RequestIdOk(Text(IdValue(time, random), 26))
  {
    IdValueBound(time, random);
    TextShape(IdValue(time, random), 26);
  }
}
