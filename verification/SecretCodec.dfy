/** Agent-secret byte formats: the deposit plaintext, the sealed body, the deposit AAD and the
    record binding. All but the last are runs of length-prefixed fields.

    The cipher envelope around a sealed body is not part of this model: `OpenBody` starts from the
    bytes the envelope authenticated.
 */
module SecretCodec {
  import opened Bytes
  import opened Framing
  import opened Scope
  import opened UrlPath

  const DEPOSIT_AAD_TAG: Field := "ck-secret-deposit-aad/v1"
  const DEPOSIT_PLAINTEXT_TAG: Field := "ck-secret-deposit-plaintext/v1"
  const SEALED_BODY_TAG: Field := "ck-secret-sealed-body/v1"
  const API_KEY_KIND: Field := "agent_api_key"
  const SITE_LOGIN_KIND: Field := "site_login"
  const MAX_SECRET_NAME_BYTES := 64

  // ---------------------------------------------------------------- text

  predicate Between(b: byte, lo: int, hi: int) { lo <= b as int <= hi }

  /** How many bytes the character at the front takes; 0 when it is not well formed. */
  function CharWidth(s: Bytes): (w: nat)
    requires s != []
    ensures w <= |s|
  {
    var b := s[0] as int;
    if b < 0x80 then 1
    else if 0xC2 <= b <= 0xDF && |s| >= 2 && Between(s[1], 0x80, 0xBF) then 2
    else if |s| >= 3 && Between(s[2], 0x80, 0xBF) && (
      || (b == 0xE0 && Between(s[1], 0xA0, 0xBF))
      || ((0xE1 <= b <= 0xEC || 0xEE <= b <= 0xEF) && Between(s[1], 0x80, 0xBF))
      || (b == 0xED && Between(s[1], 0x80, 0x9F))) then 3
    else if |s| >= 4 && Between(s[2], 0x80, 0xBF) && Between(s[3], 0x80, 0xBF) && (
      || (b == 0xF0 && Between(s[1], 0x90, 0xBF))
      || (0xF1 <= b <= 0xF3 && Between(s[1], 0x80, 0xBF))
      || (b == 0xF4 && Between(s[1], 0x80, 0x8F))) then 4
    else 0
  }

  predicate IsUtf8(s: Bytes) {
    s == [] || (CharWidth(s) > 0 && IsUtf8(s[CharWidth(s)..]))
  }

  type Text = s: Field | IsUtf8(s)

  // ---------------------------------------------------------------- material and fields

  datatype SecretMaterial =
    | ApiKey(key: Field)
    | SiteLogin(username: Text, password: Text, otpauth: Option<Text>)

  function ScopeKind(scope: SecretScope): Field {
    if scope.ApiKeyScope? then API_KEY_KIND else SITE_LOGIN_KIND
  }

  function MaterialKind(m: SecretMaterial): Field {
    if m.ApiKey? then API_KEY_KIND else SITE_LOGIN_KIND
  }

  /** The stored form of an optional text: absent is written as empty. */
  function OrEmpty(o: Option<Field>): Field {
    if o.None? then [] else o.value
  }

  function ScopeFields(scope: SecretScope): seq<Field> {
    match scope
    case ApiKeyScope(host, pathPrefix, location) => [host, OrEmpty(pathPrefix), location]
    case SiteLoginScope(origin) => [origin]
  }

  function MaterialFields(m: SecretMaterial): seq<Field> {
    match m
    case ApiKey(key) => [key]
    case SiteLogin(username, password, otpauth) => [username, password, if otpauth.None? then [] else otpauth.value]
  }

  /** A scope the encoder takes: an API key cannot be stored without a location. */
  predicate Encodable(scope: SecretScope) {
    scope.ApiKeyScope? ==> scope.location != []
  }

  predicate Fits(m: SecretMaterial, scope: SecretScope) {
    m.ApiKey? == scope.ApiKeyScope?
  }

  /** Absent and empty one-time-password URIs are stored alike; decoding yields this form. */
  function NormalForm(m: SecretMaterial): SecretMaterial {
    if m.SiteLogin? && m.otpauth == Some([]) then m.(otpauth := None) else m
  }

  predicate Normal(m: SecretMaterial) {
    NormalForm(m) == m
  }

  function Frames(fields: seq<Field>): Bytes {
    Concat(Frame, fields)
  }

  function PlaintextBytes(m: SecretMaterial): Bytes {
    Frames([DEPOSIT_PLAINTEXT_TAG] + MaterialFields(m))
  }

  function SealedBytes(scope: SecretScope, m: SecretMaterial): Bytes {
    Frames([SEALED_BODY_TAG, ScopeKind(scope)] + ScopeFields(scope) + MaterialFields(m))
  }

  function AadBytes(depositId: Field, member: Field, name: Field, scope: SecretScope): Bytes {
    Frames([DEPOSIT_AAD_TAG, depositId, member, name, ScopeKind(scope)] + ScopeFields(scope))
  }

  // ---------------------------------------------------------------- encoders

  /** The growing output vector. */
  class Buffer {
    var bytes: Bytes

    constructor ()
      ensures bytes == []
    {
      bytes := [];
    }

    method PushField(field: Field)
      modifies this
      ensures bytes == old(bytes) + Frame(field)
    {
      bytes := bytes + LeBytes(|field|, 8);
      bytes := bytes + field;
    }

    method PushFields(fields: seq<Field>)
      modifies this
      ensures bytes == old(bytes) + Frames(fields)
    {
      hide Frame, Frames;
      NoFrames();
      assert bytes + [] == bytes && fields[..0] == [];
      for i := 0 to |fields|
        invariant bytes == old(bytes) + Frames(fields[..i])
      {
        FramesNext(fields, i);
        PushField(fields[i]);
      }
      assert fields[..|fields|] == fields;
    }

    method PushScope(scope: SecretScope) returns (r: Result<(), ValidationError>)
      modifies this
      ensures r.Ok? <==> Encodable(scope)
      ensures bytes == if r.Ok? then old(bytes) + Frames(ScopeFields(scope)) else old(bytes)
    {
      hide Frame, Frames;
      match scope
      case ApiKeyScope(host, pathPrefix, location) =>
        if location == [] {
          return Err(InvalidParams);
        }
        PushField(host);
        PushField(OrEmpty(pathPrefix));
        PushField(location);
        ThreeFrames(host, OrEmpty(pathPrefix), location);
        return Ok(());
      case SiteLoginScope(origin) =>
        PushField(origin);
        OneFrame(origin);
        return Ok(());
    }

    method PushMaterial(m: SecretMaterial)
      modifies this
      ensures bytes == old(bytes) + Frames(MaterialFields(m))
    {
      hide Frame, Frames;
      match m
      case ApiKey(key) =>
        PushField(key);
        OneFrame(key);
      case SiteLogin(username, password, otpauth) =>
        var uri: Field := if otpauth.None? then [] else otpauth.value;
        PushField(username);
        PushField(password);
        PushField(uri);
        ThreeFrames(username, password, uri);
    }
  }

  lemma NoFrames()
    ensures Frames([]) == []
  {
  }

  lemma FramesNext(fields: seq<Field>, i: nat)
    requires i < |fields|
    ensures Frames(fields[..i + 1]) == Frames(fields[..i]) + Frame(fields[i])
  {
    hide Frame;
    ConcatPush(Frame, fields[..i], fields[i]);
    assert fields[..i + 1] == fields[..i] + [fields[i]];
  }

  lemma OneFrame(field: Field)
    ensures Frames([field]) == Frame(field)
  {
    hide Frame;
    ConcatPush(Frame, [], field);
    assert [] + [field] == [field];
  }

  lemma ThreeFrames(a: Field, b: Field, c: Field)
    ensures Frames([a, b, c]) == Frame(a) + Frame(b) + Frame(c)
  {
    hide Frame;
    OneFrame(a);
    ConcatPush(Frame, [a], b);
    ConcatPush(Frame, [a, b], c);
    assert [a] + [b] == [a, b] && [a, b] + [c] == [a, b, c];
  }

  method DepositPlaintext(m: SecretMaterial) returns (r: Bytes)
    ensures r == PlaintextBytes(m)
  {
    hide Frame, Frames;
    var out := new Buffer();
    out.PushField(DEPOSIT_PLAINTEXT_TAG);
    out.PushMaterial(m);
    FramesAppend([DEPOSIT_PLAINTEXT_TAG], MaterialFields(m));
    OneFrame(DEPOSIT_PLAINTEXT_TAG);
    r := out.bytes;
  }

  method SealedBody(scope: SecretScope, m: SecretMaterial) returns (r: Result<Bytes, ValidationError>)
    ensures r.Ok? <==> Fits(m, scope) && Encodable(scope)
    ensures r.Ok? ==> r.value == SealedBytes(scope, m)
  {
    hide Frame, Frames, SealedBytes, ScopeKind, ScopeFields, MaterialFields, Encodable, Fits;
    if !Fits(m, scope) {
      return Err(InvalidParams);
    }
    var out := new Buffer();
    out.PushField(SEALED_BODY_TAG);
    assert out.bytes == Frame(SEALED_BODY_TAG);
    out.PushField(ScopeKind(scope));
    var encoded := out.PushScope(scope);
    if encoded.Err? {
      return Err(encoded.error);
    }
    out.PushMaterial(m);
    SealedParts(scope, m);
    r := Ok(out.bytes);
  }

  /** The layout of a sealed body. */
  lemma SealedParts(scope: SecretScope, m: SecretMaterial)
    ensures SealedBytes(scope, m) ==
      Frame(SEALED_BODY_TAG) + Frame(ScopeKind(scope)) + Frames(ScopeFields(scope)) + Frames(MaterialFields(m))
    ensures SealedBytes(scope, m) ==
      Frames([SEALED_BODY_TAG, ScopeKind(scope)]) + (Frames(ScopeFields(scope)) + Frames(MaterialFields(m)))
  {
    hide Frame, Frames, ScopeKind, ScopeFields, MaterialFields;
    var tag, kind, s, f := SEALED_BODY_TAG, ScopeKind(scope), ScopeFields(scope), MaterialFields(m);
    FramesAppend([tag, kind] + s, f);
    FramesAppend([tag, kind], s);
    FramesAppend([tag], [kind]);
    assert [tag] + [kind] == [tag, kind];
    OneFrame(tag);
    OneFrame(kind);
  }

  lemma FramesAppend(a: seq<Field>, b: seq<Field>)
    ensures Frames(a + b) == Frames(a) + Frames(b)
  {
    ConcatAppend(Frame, a, b);
  }

  // ---------------------------------------------------------------- decoders

  /** One field that must equal `expected`; what follows it. */
  function Expect(b: Bytes, expected: Field): Option<Bytes> {
    var next := Unframe(b);
    if next.Some? && next.value.0 == expected then Some(next.value.1) else None
  }

  function ParseText(b: Bytes): Option<(Text, Bytes)> {
    var next := Unframe(b);
    if next.Some? && IsUtf8(next.value.0) then Some((next.value.0, next.value.1)) else None
  }

  function ParseLogin(b: Bytes): Option<(SecretMaterial, Bytes)> {
    var u := ParseText(b);
    if u.None? then None
    else
      var p := ParseText(u.value.1);
      if p.None? then None
      else
        var o := ParseText(p.value.1);
        if o.None? then None
        else Some((SiteLogin(u.value.0, p.value.0, if o.value.0 == [] then None else Some(o.value.0)), o.value.1))
  }

  function ParseMaterial(kind: Bytes, b: Bytes): Option<(SecretMaterial, Bytes)> {
    if kind == API_KEY_KIND then
      var next := Unframe(b);
      if next.None? then None else Some((ApiKey(next.value.0), next.value.1))
    else if kind == SITE_LOGIN_KIND then ParseLogin(b)
    else None
  }

  function Finish(parsed: Option<(SecretMaterial, Bytes)>): Result<SecretMaterial, ValidationError> {
    if parsed.Some? && parsed.value.1 == [] then Ok(parsed.value.0) else Err(InvalidParams)
  }

  function DecodePlaintext(kind: Bytes, bytes: Bytes): Result<SecretMaterial, ValidationError> {
    var rest := Expect(bytes, DEPOSIT_PLAINTEXT_TAG);
    if rest.None? then Err(InvalidParams) else Finish(ParseMaterial(kind, rest.value))
  }

  /** What opening an authenticated body under `scope` yields. */
  function OpenResult(scope: SecretScope, body: Bytes): Result<SecretMaterial, ValidationError> {
    var afterTag := Expect(body, SEALED_BODY_TAG);
    if afterTag.None? then Err(InvalidParams)
    else
      var afterKind := Expect(afterTag.value, ScopeKind(scope));
      var expected := Frames(ScopeFields(scope));
      if afterKind.None? || !Encodable(scope) || !(expected <= afterKind.value) then Err(InvalidParams)
      else Finish(ParseMaterial(ScopeKind(scope), afterKind.value[|expected|..]))
  }

  /** The reader: a slice that every read shortens. */
  class Fields {
    var rest: Bytes

    constructor (bytes: Bytes)
      ensures rest == bytes
    {
      rest := bytes;
    }

    method Next() returns (r: Result<Field, ValidationError>)
      modifies this
      ensures r.Ok? <==> Unframe(old(rest)).Some?
      ensures r.Ok? ==> Unframe(old(rest)) == Some((r.value, rest))
    {
      if |rest| < 8 {
        return Err(InvalidParams);
      }
      var len := LeValue(rest[..8]);
      Pow256Is64Bits();
      rest := rest[8..];
      if |rest| < len {
        return Err(InvalidParams);
      }
      assert old(rest)[8..][..len] == old(rest)[8..8 + len] && old(rest)[8..][len..] == old(rest)[8 + len..];
      r := Ok(rest[..len]);
      rest := rest[len..];
    }

    method ExpectField(expected: Field) returns (r: Result<(), ValidationError>)
      modifies this
      ensures r.Ok? <==> Expect(old(rest), expected).Some?
      ensures r.Ok? ==> Expect(old(rest), expected) == Some(rest)
    {
      hide Unframe;
      var next := Next();
      r := if next.Ok? && next.value == expected then Ok(()) else Err(InvalidParams);
    }

    method NextText() returns (r: Result<Text, ValidationError>)
      modifies this
      ensures r.Ok? <==> ParseText(old(rest)).Some?
      ensures r.Ok? ==> ParseText(old(rest)) == Some((r.value, rest))
    {
      hide Unframe, IsUtf8;
      var next := Next();
      if next.Err? || !IsUtf8(next.value) {
        return Err(InvalidParams);
      }
      r := Ok(next.value);
    }

    method Material(kind: Bytes) returns (r: Result<SecretMaterial, ValidationError>)
      modifies this
      ensures r.Ok? <==> ParseMaterial(kind, old(rest)).Some?
      ensures r.Ok? ==> ParseMaterial(kind, old(rest)) == Some((r.value, rest))
    {
      hide Unframe, ParseText;
      if kind == API_KEY_KIND {
        var key := Next();
        return if key.Ok? then Ok(ApiKey(key.value)) else Err(InvalidParams);
      } else if kind == SITE_LOGIN_KIND {
        var username := NextText();
        if username.Err? {
          return Err(InvalidParams);
        }
        var password := NextText();
        if password.Err? {
          return Err(InvalidParams);
        }
        var uri := NextText();
        if uri.Err? {
          return Err(InvalidParams);
        }
        return Ok(SiteLogin(username.value, password.value, if uri.value == [] then None else Some(uri.value)));
      } else {
        return Err(InvalidParams);
      }
    }
  }

  method DecodeDepositPlaintext(kind: Bytes, bytes: Bytes) returns (r: Result<SecretMaterial, ValidationError>)
    ensures r == DecodePlaintext(kind, bytes)
  {
    hide Expect, ParseMaterial;
    var reader := new Fields(bytes);
    var tag := reader.ExpectField(DEPOSIT_PLAINTEXT_TAG);
    if tag.Err? {
      return Err(InvalidParams);
    }
    var material := reader.Material(kind);
    if material.Err? || reader.rest != [] {
      return Err(InvalidParams);
    }
    r := material;
  }

  method OpenBody(scope: SecretScope, body: Bytes) returns (r: Result<SecretMaterial, ValidationError>)
    ensures r == OpenResult(scope, body)
  {
    hide Expect, ParseMaterial, Frames;
    var reader := new Fields(body);
    var tag := reader.ExpectField(SEALED_BODY_TAG);
    if tag.Err? {
      return Err(InvalidParams);
    }
    var kind := reader.ExpectField(ScopeKind(scope));
    if kind.Err? {
      return Err(InvalidParams);
    }
    var expected := new Buffer();
    var encoded := expected.PushScope(scope);
    if encoded.Err? {
      return Err(InvalidParams);
    }
    var prefix := expected.bytes;
    assert prefix == Frames(ScopeFields(scope));
    if !(prefix <= reader.rest) {
      return Err(InvalidParams);
    }
    reader.rest := reader.rest[|prefix|..];
    var material := reader.Material(ScopeKind(scope));
    if material.Err? || reader.rest != [] {
      return Err(InvalidParams);
    }
    r := material;
  }

  // ---------------------------------------------------------------- exactness of the codecs

  lemma ExpectExact(b: Bytes, expected: Field, rest: Bytes)
    ensures Expect(b, expected) == Some(rest) <==> b == Frame(expected) + rest
  {
    hide Frame, Unframe;
    UnframeFrame(expected, rest);
    if Unframe(b).Some? {
      UnframeExact(b);
    }
  }

  lemma ParseTextExact(b: Bytes, t: Text, rest: Bytes)
    ensures ParseText(b) == Some((t, rest)) <==> b == Frame(t) + rest
  {
    hide Frame, Unframe, IsUtf8;
    UnframeFrame(t, rest);
    if Unframe(b).Some? {
      UnframeExact(b);
    }
  }

  /** Reading material inverts writing it, with whatever follows left over. */
  lemma ParseMaterialExact(kind: Bytes, b: Bytes, m: SecretMaterial, rest: Bytes)
    ensures ParseMaterial(kind, b) == Some((m, rest)) <==>
      kind == MaterialKind(m) && Normal(m) && b == Frames(MaterialFields(m)) + rest
  {
    if m.ApiKey? {
      ParseApiKeyExact(kind, b, m.key, rest);
    } else {
      ParseLoginExact(b, m, rest);
      KindsDiffer();
      assert ParseMaterial(API_KEY_KIND, b) != Some((m, rest));
    }
  }

  lemma KindsDiffer()
    ensures API_KEY_KIND != SITE_LOGIN_KIND
  {
    assert |API_KEY_KIND| == 13 && |SITE_LOGIN_KIND| == 10;
  }

  lemma ParseApiKeyExact(kind: Bytes, b: Bytes, key: Field, rest: Bytes)
    ensures ParseMaterial(kind, b) == Some((ApiKey(key), rest)) <==> kind == API_KEY_KIND && b == Frames([key]) + rest
  {
    hide Frame, Frames, Unframe, ParseText;
    OneFrame(key);
    UnframeFrame(key, rest);
    if Unframe(b).Some? {
      UnframeExact(b);
    }
  }

  lemma ParseLoginExact(b: Bytes, m: SecretMaterial, rest: Bytes)
    requires m.SiteLogin?
    ensures ParseLogin(b) == Some((m, rest)) <==> Normal(m) && b == Frames(MaterialFields(m)) + rest
  {
    hide Frame, Frames, ParseText;
    var uri: Text := if m.otpauth.None? then [] else m.otpauth.value;
    ThreeFrames(m.username, m.password, uri);
    var r1, r2 := Frame(m.password) + (Frame(uri) + rest), Frame(uri) + rest;
    assert Frames(MaterialFields(m)) + rest == Frame(m.username) + r1;
    ParseTextExact(b, m.username, r1);
    ParseTextExact(r1, m.password, r2);
    ParseTextExact(r2, uri, rest);
    if ParseLogin(b) == Some((m, rest)) {
      var u := ParseText(b).value;
      var p := ParseText(u.1).value;
      ParseTextExact(b, u.0, u.1);
      ParseTextExact(u.1, p.0, p.1);
      ParseTextExact(p.1, uri, rest);
    }
  }

  /** The deposit codec is exact both ways: what decodes is the encoding of what it decodes to,
      so every truncation, trailing byte or other framing is refused. */
  lemma DepositCodecExact(kind: Bytes, bytes: Bytes, m: SecretMaterial)
    ensures DecodePlaintext(kind, bytes) == Ok(m) <==>
      kind == MaterialKind(m) && Normal(m) && bytes == PlaintextBytes(m)
  {
    hide Expect, Frame, Frames, ParseMaterial, MaterialFields, Normal, MaterialKind;
    var tag := DEPOSIT_PLAINTEXT_TAG;
    FramesAppend([tag], MaterialFields(m));
    OneFrame(tag);
    var rest := Frames(MaterialFields(m)) + [];
    assert PlaintextBytes(m) == Frame(tag) + rest;
    ExpectExact(bytes, tag, rest);
    ParseMaterialExact(kind, rest, m, []);
    if DecodePlaintext(kind, bytes) == Ok(m) {
      ParseMaterialExact(kind, Expect(bytes, tag).value, m, []);
    }
  }

  lemma DepositRoundTrip(m: SecretMaterial)
    ensures DecodePlaintext(MaterialKind(m), PlaintextBytes(m)) == Ok(NormalForm(m))
  {
    assert MaterialFields(NormalForm(m)) == MaterialFields(m);
    DepositCodecExact(MaterialKind(m), PlaintextBytes(m), NormalForm(m));
  }

  /** Opening is exact: a body opens under a scope only if it was sealed under its fields. */
  lemma OpenExact(scope: SecretScope, body: Bytes, m: SecretMaterial)
    ensures OpenResult(scope, body) == Ok(m) <==>
      Encodable(scope) && Fits(m, scope) && Normal(m) && body == SealedBytes(scope, m)
  {
    hide Expect, Frame, Frames, ParseMaterial, MaterialFields, ScopeFields, Normal, Encodable, SealedBytes;
    var tag, kind, s := SEALED_BODY_TAG, ScopeKind(scope), Frames(ScopeFields(scope));
    var mat := Frames(MaterialFields(m)) + [];
    SealedParts(scope, m);
    KindsDiffer();
    assert SealedBytes(scope, m) == Frame(tag) + (Frame(kind) + (s + mat));
    ExpectExact(body, tag, Frame(kind) + (s + mat));
    ExpectExact(Frame(kind) + (s + mat), kind, s + mat);
    assert (s + mat)[|s|..] == mat;
    ParseMaterialExact(kind, mat, m, []);
    if OpenResult(scope, body) == Ok(m) {
      var afterTag := Expect(body, tag).value;
      var afterKind := Expect(afterTag, kind).value;
      ParseMaterialExact(kind, afterKind[|s|..], m, []);
      assert afterKind == s + afterKind[|s|..];
      ExpectExact(afterTag, kind, afterKind);
      ExpectExact(body, tag, afterTag);
    }
  }

  // ---------------------------------------------------------------- scope check by prefix

  /** Scopes the encoder cannot tell apart: a missing and an empty path prefix are written alike. */
  predicate SameFields(s: SecretScope, t: SecretScope) {
    s.ApiKeyScope? == t.ApiKeyScope? && ScopeFields(s) == ScopeFields(t)
  }

  /** A body sealed under `s` opens under `t` exactly when `s` and `t` are written alike, and then
      yields the sealed material. The encoded-prefix test accepts nothing else. */
  lemma SealedOpensIffSameFields(s: SecretScope, m: SecretMaterial, t: SecretScope)
    requires Encodable(s) && Fits(m, s)
    ensures OpenResult(t, SealedBytes(s, m)).Ok? <==> SameFields(s, t)
    ensures SameFields(s, t) ==> OpenResult(t, SealedBytes(s, m)) == Ok(NormalForm(m))
  {
    var body := SealedBytes(s, m);
    if SameFields(s, t) {
      assert MaterialFields(NormalForm(m)) == MaterialFields(m);
      assert SealedBytes(t, NormalForm(m)) == body;
      OpenExact(t, body, NormalForm(m));
    }
    if OpenResult(t, body).Ok? {
      var n := OpenResult(t, body).value;
      OpenExact(t, body, n);
      SealedInjective(s, m, t, n);
    }
  }

  lemma SealedInjective(s: SecretScope, m: SecretMaterial, t: SecretScope, n: SecretMaterial)
    requires Fits(m, s) && Fits(n, t) && SealedBytes(s, m) == SealedBytes(t, n)
    ensures SameFields(s, t) && MaterialFields(m) == MaterialFields(n)
  {
    hide Frame, Frames, SealedBytes;
    SealedParts(s, m);
    SealedParts(t, n);
    var tag := SEALED_BODY_TAG;
    var rs := Frames(ScopeFields(s)) + Frames(MaterialFields(m));
    var rt := Frames(ScopeFields(t)) + Frames(MaterialFields(n));
    HeadInjective([tag, ScopeKind(s)], rs, [tag, ScopeKind(t)], rt, SealedBytes(s, m));
    assert [tag, ScopeKind(s)][1] == [tag, ScopeKind(t)][1];
    KindsDiffer();
    HeadInjective(ScopeFields(s), Frames(MaterialFields(m)), ScopeFields(t), Frames(MaterialFields(n)), rs);
    FramesInjective(MaterialFields(m), MaterialFields(n));
  }

  lemma HeadInjective(a: seq<Field>, r: Bytes, b: seq<Field>, s: Bytes, whole: Bytes)
    requires |a| == |b| && whole == Frames(a) + r && whole == Frames(b) + s
    ensures a == b && r == s
  {
    FramesPrefixFree(a, b, r, s);
  }

  lemma FramesInjective(a: seq<Field>, b: seq<Field>)
    requires |a| == |b| && Frames(a) == Frames(b)
    ensures a == b
  {
    assert Frames(a) + [] == Frames(b) + [];
    FramesPrefixFree(a, b, [], []);
  }

  /** Validation excludes the aliasing pair, so between accepted scopes the check is equality. */
  lemma ValidScopesSameFields(s: SecretScope, t: SecretScope)
    requires ScopeVerdict(s).Ok? && ScopeVerdict(t).Ok?
    ensures Encodable(s)
    ensures SameFields(s, t) <==> s == t
  {
    hide ValidateHost, CanonicalOrigin, LocationVerdict;
    if s.ApiKeyScope? {
      EmptyLocationRefused();
      if SameFields(s, t) {
        assert ScopeFields(s)[0] == ScopeFields(t)[0] && ScopeFields(s)[1] == ScopeFields(t)[1];
        assert ScopeFields(s)[2] == ScopeFields(t)[2];
      }
    } else if SameFields(s, t) {
      assert ScopeFields(s)[0] == ScopeFields(t)[0];
    }
  }

  lemma EmptyLocationRefused()
    ensures LocationVerdict([]).Err?
  {
    assert |"authorization_bearer"| == 20;
  }

  /** The headline: between accepted scopes, a sealed body opens only under its own scope. */
  lemma SealedOpensOnlyUnderItsScope(s: SecretScope, m: SecretMaterial, t: SecretScope)
    requires ScopeVerdict(s).Ok? && ScopeVerdict(t).Ok? && Fits(m, s)
    ensures OpenResult(t, SealedBytes(s, m)) == if s == t then Ok(NormalForm(m)) else Err(InvalidParams)
  {
    hide ScopeVerdict, SealedBytes, OpenResult;
    ValidScopesSameFields(s, t);
    SealedOpensIffSameFields(s, m, t);
    OpenErrors(t, SealedBytes(s, m));
  }

  lemma OpenErrors(scope: SecretScope, body: Bytes)
    ensures OpenResult(scope, body).Err? ==> OpenResult(scope, body).error == InvalidParams
  {
    hide Expect, ParseMaterial, Frames;
  }

  /** Without validation the aliasing is real: an empty prefix opens what no prefix sealed. */
  lemma EmptyPrefixAliasesNone(host: Field, location: Field, key: Field)
    requires location != []
    ensures
      var s, t := ApiKeyScope(host, None, location), ApiKeyScope(host, Some([]), location);
      s != t && OpenResult(t, SealedBytes(s, ApiKey(key))) == Ok(ApiKey(key))
  {
    SealedOpensIffSameFields(ApiKeyScope(host, None, location), ApiKey(key), ApiKeyScope(host, Some([]), location));
  }

  // ---------------------------------------------------------------- names, AAD and bindings

  predicate NameByte(b: byte) { IsAlphanumeric(b) || b in "._-" }

  function ValidateName(name: Bytes): Result<(), ValidationError> {
    if name == [] || !IsAlphanumeric(name[0]) || !All(name, NameByte) then Err(InvalidParams)
    else if |name| > MAX_SECRET_NAME_BYTES then Err(LimitExceeded)
    else Ok(())
  }

  method DepositAad(depositId: Field, member: Field, name: Field, scope: SecretScope)
    returns (r: Result<Bytes, ValidationError>)
    ensures r.Ok? <==> ValidateName(name).Ok? && Encodable(scope)
    ensures r.Ok? ==> r.value == AadBytes(depositId, member, name, scope)
  {
    hide Frame, Frames, ScopeFields;
    var valid := ValidateName(name);
    if valid.Err? {
      return Err(valid.error);
    }
    var out := new Buffer();
    var fields := [DEPOSIT_AAD_TAG, depositId, member, name, ScopeKind(scope)];
    out.PushFields(fields);
    var encoded := out.PushScope(scope);
    if encoded.Err? {
      return Err(encoded.error);
    }
    FramesAppend(fields, ScopeFields(scope));
    r := Ok(out.bytes);
  }

  /** The AAD determines who deposits what, where, for which accepted scope. */
  lemma AadInjective(d1: Field, m1: Field, n1: Field, s1: SecretScope, d2: Field, m2: Field, n2: Field, s2: SecretScope)
    requires AadBytes(d1, m1, n1, s1) == AadBytes(d2, m2, n2, s2)
    ensures d1 == d2 && m1 == m2 && n1 == n2 && SameFields(s1, s2)
    ensures ScopeVerdict(s1).Ok? && ScopeVerdict(s2).Ok? ==> s1 == s2
  {
    hide Frame, Frames, ScopeVerdict;
    var a := [DEPOSIT_AAD_TAG, d1, m1, n1, ScopeKind(s1)];
    var b := [DEPOSIT_AAD_TAG, d2, m2, n2, ScopeKind(s2)];
    FramesAppend(a, ScopeFields(s1));
    FramesAppend(b, ScopeFields(s2));
    HeadInjective(a, Frames(ScopeFields(s1)), b, Frames(ScopeFields(s2)), AadBytes(d1, m1, n1, s1));
    assert a[1] == b[1] && a[2] == b[2] && a[3] == b[3] && a[4] == b[4];
    KindsDiffer();
    FramesInjective(ScopeFields(s1), ScopeFields(s2));
    if ScopeVerdict(s1).Ok? && ScopeVerdict(s2).Ok? {
      ValidScopesSameFields(s1, s2);
    }
  }

  function BindingText(kind: Bytes, incarnation: Bytes, name: Bytes): Bytes {
    "secret" + ['|'] + (kind + ['|'] + (incarnation + ['|'] + name))
  }

  function RecordBinding(kind: Bytes, incarnation: Bytes, name: Bytes): Result<Bytes, ValidationError> {
    var _ :- ValidateName(name);
    if !(kind == API_KEY_KIND || kind == SITE_LOGIN_KIND) || |incarnation| != 32 || !All(incarnation, IsLowerHex)
    then Err(InvalidParams)
    else Ok(BindingText(kind, incarnation, name))
  }

  /** No component of a binding holds `|`, so the binding splits back into its components. */
  lemma BindingSplits(kind: Bytes, incarnation: Bytes, name: Bytes)
    requires RecordBinding(kind, incarnation, name).Ok?
    ensures Split(RecordBinding(kind, incarnation, name).value, '|') == ["secret", kind, incarnation, name]
  {
    hide Split;
    assert '|' !in API_KEY_KIND && '|' !in SITE_LOGIN_KIND && '|' !in "secret";
    assert '|' !in incarnation && '|' !in name;
    SplitWithout("secret", '|');
    SplitWithout(kind, '|');
    SplitWithout(incarnation, '|');
    SplitWithout(name, '|');
    SplitAtSeparator(incarnation, name, '|');
    SplitAtSeparator(kind, incarnation + ['|'] + name, '|');
    SplitAtSeparator("secret", kind + ['|'] + (incarnation + ['|'] + name), '|');
  }

  lemma RecordBindingInjective(k1: Bytes, i1: Bytes, n1: Bytes, k2: Bytes, i2: Bytes, n2: Bytes)
    requires RecordBinding(k1, i1, n1).Ok? && RecordBinding(k1, i1, n1) == RecordBinding(k2, i2, n2)
    ensures k1 == k2 && i1 == i2 && n1 == n2
  {
    hide RecordBinding;
    BindingSplits(k1, i1, n1);
    BindingSplits(k2, i2, n2);
    var a, b: seq<Bytes> := ["secret", k1, i1, n1], ["secret", k2, i2, n2];
    assert a[1] == b[1] && a[2] == b[2] && a[3] == b[3];
  }

  const DEPOSIT_KEY_PREFIX: Bytes := "kem:secret-deposit:"

  predicate IsDepositKey(id: Bytes) {
    DEPOSIT_KEY_PREFIX <= id && '|' !in id
  }

  /** An operator's `secret|name` target and a record binding never name the deposit key. */
  lemma DepositKeysAreNoBindings(id: Bytes, rest: Bytes)
    requires IsDepositKey(id)
    ensures id != "secret" + ['|'] + rest
  {
    assert ("secret" + ['|'] + rest)[6] == '|';
  }
}
