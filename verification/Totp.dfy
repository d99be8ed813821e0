/** One-time passwords from a stored `otpauth` URI: the URI validator, the streaming base32 seed
    decoder (section 6 of RFC 4648), the counter, and dynamic truncation (section 5.3 of RFC 4226,
    used by RFC 6238).

    URL parsing is a library's, so the URI arrives split into its parts (`None` if it did not
    parse). The HMAC is an arbitrary function whose output has at least 20 bytes.
 */
module Totp {
  import opened Arithmetic
  import opened Bytes
  import opened BitStream
  import opened Scope

  const MIN_SECRET_TOTP_PERIOD := 15
  const MAX_SECRET_TOTP_PERIOD := 120

  datatype OtpUrl = OtpUrl(
    scheme: Bytes, host: Option<Bytes>, path: Bytes, username: Bytes, password: Option<Bytes>,
    port: Option<nat>, fragment: Option<Bytes>, query: seq<(Bytes, Bytes)>)

  datatype Algorithm = Sha1 | Sha256 | Sha512

  type Hash = h: Bytes | |h| >= 20 witness seq(20, i => 'a')
  type Hmac = (Algorithm, Bytes, Bytes) -> Hash

  // ---------------------------------------------------------------- base32

  function Quintet(b: byte): (r: Option<nat>)
    ensures r.Some? ==> r.value < 32
  {
    if IsUpper(b) then Some(b as int - 'A' as int)
    else if '2' <= b <= '7' then Some(b as int - '2' as int + 26)
    else None
  }

  predicate Base32Byte(b: byte) { Quintet(b).Some? }

  function TrimPadding(s: Bytes): Bytes {
    if s != [] && s[|s| - 1] == '=' then TrimPadding(s[..|s| - 1]) else s
  }

  function Quintets(s: Bytes): (r: seq<nat>)
    requires All(s, Base32Byte)
    ensures |r| == |s| && Digits(32, r)
  {
    if s == [] then []
    else
      assert All(s[..|s| - 1], Base32Byte);
      assert Base32Byte(s[|s| - 1]);
      Quintets(s[..|s| - 1]) + [Quintet(s[|s| - 1]).value]
  }

  lemma QuintetsPush(s: Bytes, b: byte)
    requires All(s, Base32Byte)
    ensures All(s + [b], Base32Byte) <==> Quintet(b).Some?
    ensures Quintet(b).Some? ==> Quintets(s + [b]) == Quintets(s) + [Quintet(b).value]
  {
    var t := s + [b];
    assert t[|s|] == b && t[..|s|] == s;
    if Quintet(b).Some? {
      assert forall i :: 0 <= i < |t| ==> i == |s| || t[i] == s[i];
    }
  }

  method DecodeSeed(text: Bytes) returns (r: Option<Bytes>)
    ensures r.Some? <==> All(text, Base32Byte)
    ensures r.Some? ==> r.value == Run(5, Quintets(text)).out
  {
    hide Run, Quintets, Quintet, Base32Byte, Pow, BitOr;
    var acc: nat, bits: nat := 0, 0;
    var seed: Bytes := [];
    NoQuintets();
    for i := 0 to |text|
      invariant All(text[..i], Base32Byte)
      invariant Run(5, Quintets(text[..i])) == Stream(acc, bits, seed)
    {
      assert text[..i + 1] == text[..i] + [text[i]];
      QuintetsPush(text[..i], text[i]);
      var n := Quintet(text[i]);
      if n.None? {
        PrefixRefused(text, i + 1);
        return None;
      }
      RunPush(5, Quintets(text[..i]), n.value);
      FiveBits();
      acc := BitOr((acc * 32) % U32, n.value);
      bits := bits + 5;
      if bits >= 8 {
        bits := bits - 8;
        seed := seed + [(acc / Pow(2, bits) % 256) as char];
      }
    }
    assert text[..|text|] == text;
    r := Some(seed);
  }

  lemma NoQuintets()
    ensures Run(5, Quintets([])) == EMPTY
  {
  }

  lemma PrefixRefused(text: Bytes, k: nat)
    requires k <= |text| && !All(text[..k], Base32Byte)
    ensures !All(text, Base32Byte)
  {
    var i :| 0 <= i < k && !Base32Byte(text[..k][i]);
    assert !Base32Byte(text[i]);
  }

  lemma FiveBits()
    ensures Pow(2, 5) == 32
  {
  }

  /** The streamed seed is the big-integer decoding: floor(5n/8) bytes, the leading bits. */
  lemma SeedIsBigInteger(text: Bytes)
    requires All(text, Base32Byte)
    ensures
      var seed := Run(5, Quintets(text)).out;
      |seed| == 5 * |text| / 8 && BeValue(seed) == Value(32, Quintets(text)) / Pow(2, 5 * |text| % 8)
  {
    hide Run, Quintets, Value, Pow, BeValue;
    FiveBits();
    RunTracks(5, Quintets(text));
  }

  // ---------------------------------------------------------------- the URI validator

  predicate HeadOk(url: OtpUrl) {
    && url.scheme == "otpauth" && url.host == Some("totp") && |url.path| > 1 && url.username == []
    && url.password.None? && url.port.None? && url.fragment.None?
  }

  predicate SecretOk(value: Bytes) {
    var unpadded := TrimPadding(value);
    unpadded != [] && All(unpadded, Base32Byte) && |unpadded| % 8 in {0, 2, 4, 5, 7}
  }

  predicate PeriodOk(value: Bytes) {
    var period := ParseUnsigned(value, U64 - 1);
    period.Some? && MIN_SECRET_TOTP_PERIOD <= period.value <= MAX_SECRET_TOTP_PERIOD
  }

  predicate PairOk(key: Bytes, value: Bytes) {
    if key == "secret" then SecretOk(value)
    else if key == "algorithm" then value in ["SHA1", "SHA256", "SHA512"]
    else if key == "digits" then value in ["6", "8"]
    else if key == "period" then PeriodOk(value)
    else key == "issuer"
  }

  ghost predicate DistinctKeys(query: seq<(Bytes, Bytes)>) {
    forall i, j :: 0 <= i < j < |query| ==> query[i].0 != query[j].0
  }

  ghost predicate HasKey(query: seq<(Bytes, Bytes)>, key: Bytes) {
    exists i :: 0 <= i < |query| && query[i].0 == key
  }

  ghost predicate ValidOtpauth(url: OtpUrl) {
    && HeadOk(url) && DistinctKeys(url.query) && HasKey(url.query, "secret")
    && forall i :: 0 <= i < |url.query| ==> PairOk(url.query[i].0, url.query[i].1)
  }

  method ValidateOtpauth(url: Option<OtpUrl>) returns (r: Result<(), ValidationError>)
    ensures r.Ok? <==> url.Some? && ValidOtpauth(url.value)
  {
    hide PairOk, HeadOk;
    if url.None? || !HeadOk(url.value) {
      return Err(InvalidParams);
    }
    var query := url.value.query;
    var seen: set<Bytes> := {};
    var secret := false;
    for k := 0 to |query|
      invariant seen == set i | 0 <= i < k :: query[i].0
      invariant DistinctKeys(query[..k])
      invariant secret <==> HasKey(query[..k], "secret")
      invariant forall i :: 0 <= i < k ==> PairOk(query[i].0, query[i].1)
    {
      var (key, value) := query[k];
      if key in seen {
        return Err(InvalidParams);
      }
      seen := seen + {key};
      if !PairOk(key, value) {
        return Err(InvalidParams);
      }
      if key == "secret" {
        assert query[..k + 1][k].0 == "secret";
        secret := true;
      }
    }
    assert query[..|query|] == query;
    r := if secret then Ok(()) else Err(InvalidParams);
  }

  // ---------------------------------------------------------------- the code

  /** The query as a hash map: of equal keys the last one counts. */
  function Lookup(query: seq<(Bytes, Bytes)>, key: Bytes): Option<Bytes> {
    if query == [] then None
    else if query[|query| - 1].0 == key then Some(query[|query| - 1].1)
    else Lookup(query[..|query| - 1], key)
  }

  lemma {:induction false} LookupFinds(query: seq<(Bytes, Bytes)>, key: Bytes)
    ensures Lookup(query, key).Some? <==> HasKey(query, key)
    ensures Lookup(query, key).Some? ==> (key, Lookup(query, key).value) in query
  {
    if query != [] {
      LookupFinds(query[..|query| - 1], key);
    }
  }

  function BeBytes(n: nat, k: nat): (r: Bytes)
    ensures |r| == k
  {
    if k == 0 then [] else BeBytes(n / 256, k - 1) + [(n % 256) as char]
  }

  lemma {:induction false} BeBytesValue(n: nat, k: nat)
    requires n < Pow(256, k)
    ensures BeValue(BeBytes(n, k)) == n
  {
    if k > 0 {
      BeBytesValue(n / 256, k - 1);
      BePush(BeBytes(n / 256, k - 1), (n % 256) as char);
    }
  }

  /** Dynamic truncation: the low 31 bits of the four bytes the last nibble points at. */
  function Truncated(hash: Hash): (code: nat)
    ensures code < 0x8000_0000
  {
    var offset := hash[|hash| - 1] as int % 16;
    BeValue(hash[offset..offset + 4]) % 0x8000_0000
  }

  /** `format!("{:0width$}", n)`. */
  function ZeroPadded(n: nat, width: nat): (s: Bytes)
    ensures |s| == width
  {
    if width == 0 then [] else ZeroPadded(n / 10, width - 1) + [('0' as int + n % 10) as char]
  }

  lemma {:induction false} ZeroPaddedValue(n: nat, width: nat)
    requires n < Pow(10, width)
    ensures All(ZeroPadded(n, width), IsDigit) && DecimalValue(ZeroPadded(n, width)) == n
  {
    if width > 0 {
      ZeroPaddedValue(n / 10, width - 1);
      DecimalPush(ZeroPadded(n / 10, width - 1), ('0' as int + n % 10) as char);
    }
  }

  /** The values a validated URI is read for passed their checks. */
  lemma LookupValid(url: OtpUrl)
    requires ValidOtpauth(url)
    ensures Lookup(url.query, "secret").Some? && SecretOk(Lookup(url.query, "secret").value)
    ensures Lookup(url.query, "period").Some? ==> PeriodOk(Lookup(url.query, "period").value)
  {
    hide HeadOk, Lookup, SecretOk, PeriodOk;
    LookupFinds(url.query, "secret");
    LookupFinds(url.query, "period");
    assert PairOk("secret", Lookup(url.query, "secret").value);
    assert Lookup(url.query, "period").Some? ==> PairOk("period", Lookup(url.query, "period").value);
  }

  /** The parameters of a validated URI, defaults filled in. */
  datatype Parameters = Parameters(seed: Bytes, period: nat, digits: nat, algorithm: Algorithm)

  ghost function ParametersOf(url: OtpUrl): (p: Parameters)
    requires ValidOtpauth(url)
    ensures 15 <= p.period <= 120 && (p.digits == 6 || p.digits == 8)
  {
    hide ValidOtpauth, Lookup, ParseUnsigned, Run, Quintets, TrimPadding;
    LookupValid(url);
    var secret, period := Lookup(url.query, "secret").value, Lookup(url.query, "period");
    Parameters(
      Run(5, Quintets(TrimPadding(secret))).out,
      if period.None? then 30 else ParseUnsigned(period.value, U64 - 1).value,
      if Lookup(url.query, "digits") == Some("8") then 8 else 6,
      AlgorithmOf(Lookup(url.query, "algorithm")))
  }

  function AlgorithmOf(name: Option<Bytes>): Algorithm {
    if name == Some("SHA256") then Sha256 else if name == Some("SHA512") then Sha512 else Sha1
  }

  /** The truncated HMAC of the period counter under the decoded seed. */
  ghost function CodeAt(p: Parameters, nowMs: nat, hmac: Hmac): nat
    requires p.period > 0
  {
    Truncated(hmac(p.algorithm, p.seed, BeBytes(Counter(nowMs, p.period), 8)))
  }

  /** Whole periods since the epoch. */
  function Counter(nowMs: nat, period: nat): nat
    requires period > 0
  {
    nowMs / 1000 / period
  }

  lemma CounterBytes(nowMs: i64, period: nat)
    requires nowMs >= 0 && period > 0
    ensures BeValue(BeBytes(Counter(nowMs, period), 8)) == Counter(nowMs, period)
  {
    Pow256Is64Bits();
    assert 0 <= nowMs / 1000 / period <= nowMs;
    BeBytesValue(nowMs / 1000 / period, 8);
  }

  lemma CodeText(code: nat, digits: nat)
    ensures Pow(10, digits) > 0
    ensures
      var s := ZeroPadded(code % Pow(10, digits), digits);
      |s| == digits && All(s, IsDigit) && DecimalValue(s) == code % Pow(10, digits)
  {
    ZeroPaddedValue(code % Pow(10, digits), digits);
  }

  /** Total on validated URIs from the epoch on: the code has exactly the asked number of decimal
      digits and is the truncated HMAC reduced to that many. */
  method OneTimePassword(url: Option<OtpUrl>, nowMs: i64, hmac: Hmac) returns (r: Result<Bytes, ValidationError>)
    ensures r.Ok? <==> url.Some? && ValidOtpauth(url.value) && nowMs >= 0
    ensures r.Ok? ==> |r.value| == ParametersOf(url.value).digits && All(r.value, IsDigit)
    ensures r.Ok? ==>
      var p := ParametersOf(url.value);
      DecimalValue(r.value) == CodeAt(p, nowMs, hmac) % Pow(10, p.digits)
  {
    hide ValidOtpauth, Run, Truncated, Quintets, Pow, BeBytes, ZeroPadded, ParseUnsigned, TrimPadding, Lookup,
         AlgorithmOf, Counter, DecimalValue, All;
    var valid := ValidateOtpauth(url);
    if valid.Err? {
      return Err(valid.error);
    }
    var query := url.value.query;
    LookupValid(url.value);
    var secret := Lookup(query, "secret");
    var seed := DecodeSeed(TrimPadding(secret.value));
    var periodText := Lookup(query, "period");
    var period := if periodText.None? then Some(30) else ParseUnsigned(periodText.value, U64 - 1);
    var digits := if Lookup(query, "digits") == Some("8") then 8 else 6;
    if nowMs < 0 {
      return Err(InvalidParams);
    }
    var counter := BeBytes(Counter(nowMs, period.value), 8);
    var hash := hmac(AlgorithmOf(Lookup(query, "algorithm")), seed.value, counter);
    CodeText(Truncated(hash), digits);
    assert ParametersOf(url.value) ==
      Parameters(seed.value, period.value, digits, AlgorithmOf(Lookup(query, "algorithm")));
    r := Ok(ZeroPadded(Truncated(hash) % Pow(10, digits), digits));
  }
}
