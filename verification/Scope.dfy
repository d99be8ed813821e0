/** Release scopes and release targets: where a secret may be sent, and whether a request goes there. */
module Scope {
  import opened Arithmetic
  import opened Bytes
  import opened UrlPath

  datatype ValidationError = InvalidParams | LimitExceeded

  const MAX_SECRET_HOST_BYTES := 253
  const MAX_SECRET_PATH_PREFIX_BYTES := 1024
  const MAX_SECRET_HEADER_BYTES := 64
  const MAX_SECRET_QUERY_BYTES := 64
  const MAX_SECRET_POINTER_BYTES := 256

  datatype SecretScope =
    | ApiKeyScope(host: Field, pathPrefix: Option<Field>, location: Field)
    | SiteLoginScope(origin: Field)

  datatype UseTarget =
    | ApiKeyTarget(scheme: Bytes, targetHost: Bytes, port: nat, path: Bytes)
    | SiteLoginTarget(targetOrigin: Bytes)

  // ---------------------------------------------------------------- text helpers

  /** `str::parse` for an unsigned integer of at most `max`: an optional plus sign, then digits. */
  function ParseUnsigned(s: Bytes, max: nat): Option<nat> {
    var digits := if s != [] && s[0] == '+' then s[1..] else s;
    if digits == [] || !All(digits, IsDigit) then None
    else if DecimalValue(digits) > max then None
    else Some(DecimalValue(digits))
  }

  function DecimalValue(s: Bytes): nat {
    if s == [] || !IsDigit(s[|s| - 1]) then 0
    else 10 * DecimalValue(s[..|s| - 1]) + (s[|s| - 1] as int - '0' as int)
  }

  /** The first position of `sep` in `s`, or `|s|`. */
  function Find(s: Bytes, sep: Bytes): (k: nat)
    ensures k <= |s|
    ensures k < |s| ==> sep <= s[k..]
    ensures forall j :: 0 <= j < k ==> !(sep <= s[j..])
  {
    if s == [] then 0
    else if sep <= s then 0
    else
      var r := Find(s[1..], sep);
      assert forall j :: 1 <= j < |s| ==> s[j..] == s[1..][j - 1..];
      r + 1
  }

  predicate EndsWith(s: Bytes, suffix: Bytes) {
    |suffix| <= |s| && s[|s| - |suffix|..] == suffix
  }

  function LowerCase(s: Bytes): (r: Bytes)
    ensures |r| == |s|
  {
    if s == [] then []
    else [if IsUpper(s[0]) then (s[0] as int + 32) as char else s[0]] + LowerCase(s[1..])
  }

  // ---------------------------------------------------------------- hosts

  predicate HostLabel(part: Bytes) {
    && part != [] && part[0] != '-' && part[|part| - 1] != '-'
    && forall i :: 0 <= i < |part| ==> IsLower(part[i]) || IsDigit(part[i]) || part[i] == '-'
  }

  predicate OctetText(s: Bytes) {
    && 1 <= |s| <= 3 && (forall i :: 0 <= i < |s| ==> IsDigit(s[i]))
    && (|s| > 1 ==> s[0] != '0') && DecimalValue(s) <= 255
  }

  /** A dotted-quad literal. An IPv6 literal needs no case of its own: no host label admits `:`. */
  predicate Ipv4Literal(host: Bytes) {
    var parts := Split(host, '.');
    |parts| == 4 && forall i :: 0 <= i < 4 ==> OctetText(parts[i])
  }

  predicate HostShape(host: Bytes) {
    && host != [] && host[|host| - 1] != '.' && !Ipv4Literal(host)
    && forall i :: 0 <= i < |Split(host, '.')| ==> HostLabel(Split(host, '.')[i])
  }

  function ValidateHost(host: Bytes): Result<(), ValidationError> {
    if !HostShape(host) then Err(InvalidParams)
    else if |host| > MAX_SECRET_HOST_BYTES then Err(LimitExceeded)
    else Ok(())
  }

  /** A valid host holds no delimiter of the syntax around it. */
  lemma HostBytes(host: Bytes, i: nat)
    requires ValidateHost(host).Ok? && i < |host|
    ensures IsLower(host[i]) || IsDigit(host[i]) || host[i] == '-' || host[i] == '.'
  {
    JoinSplit(host, '.');
    JoinBytes(Split(host, '.'), i);
  }

  lemma {:induction false} JoinBytes(labels: seq<Bytes>, i: nat)
    requires labels != [] && (forall k :: 0 <= k < |labels| ==> HostLabel(labels[k]))
    requires i < |Join(labels, '.')|
    ensures
      var b := Join(labels, '.')[i];
      IsLower(b) || IsDigit(b) || b == '-' || b == '.'
  {
    if |labels| > 1 && i > |labels[0]| {
      JoinBytes(labels[1..], i - |labels[0]| - 1);
    }
  }

  // ---------------------------------------------------------------- origins

  const HTTPS: Bytes := "https://"

  function StripPort(authority: Bytes): Bytes {
    if EndsWith(authority, ":443") then authority[..|authority| - 4] else authority
  }

  function CanonicalOrigin(origin: Bytes): Result<Bytes, ValidationError> {
    if !(HTTPS <= origin) then Err(InvalidParams)
    else
      var host := StripPort(origin[8..]);
      var _ :- ValidateHost(host);
      Ok(HTTPS + host)
  }

  /** Host and port of what follows `://`. */
  function AuthorityParts(authority: Bytes, defaultPort: nat): Result<(Bytes, nat), ValidationError> {
    var c := Find(authority, ":");
    if c < |authority| then
      var port := ParseUnsigned(authority[c + 1..], 65535);
      if port.None? then Err(InvalidParams)
      else
        var _ :- ValidateHost(authority[..c]);
        Ok((authority[..c], port.value))
    else
      var _ :- ValidateHost(authority);
      Ok((authority, defaultPort))
  }

  datatype Origin = Origin(scheme: Bytes, host: Bytes, port: nat)

  function OriginParts(origin: Bytes): Result<Origin, ValidationError> {
    var k := Find(origin, "://");
    if k == |origin| then Err(InvalidParams)
    else
      var scheme := origin[..k];
      if scheme == [] || !All(scheme, IsLower) then Err(InvalidParams)
      else
        var parts :- AuthorityParts(origin[k + 3..], if scheme == "https" then 443 else 80);
        Ok(Origin(scheme, parts.0, parts.1))
  }

  // ---------------------------------------------------------------- locations

  predicate HeaderByte(b: byte) { IsAlphanumeric(b) || b in "!#$%&'*+-.^_`|~" }
  predicate QueryByte(b: byte) { IsAlphanumeric(b) || b in "._-" }
  predicate PointerByte(b: byte) { 0x21 <= b as int <= 0x7e }

  /** Every `~` of a JSON pointer starts one of the escapes `~0` and `~1`. */
  predicate PointerEscapes(s: Bytes) {
    forall i :: 0 <= i < |s| && s[i] == '~' ==> i + 1 < |s| && (s[i + 1] == '0' || s[i + 1] == '1')
  }

  predicate ReservedHeader(s: Bytes) {
    LowerCase(s) in ["host", "cookie", "content-length", "authorization"]
  }

  /** The verdict on where in a request a key is placed. */
  function LocationVerdict(location: Bytes): Result<(), ValidationError> {
    var c := Find(location, ":");
    if location == "authorization_bearer" then Ok(())
    else if c == |location| || c + 1 == |location| then Err(InvalidParams)
    else
      var value := location[c + 1..];
      var (shape, limit) :=
        if location[..c] == "header" then (All(value, HeaderByte) && !ReservedHeader(value), MAX_SECRET_HEADER_BYTES)
        else if location[..c] == "query" then (All(value, QueryByte), MAX_SECRET_QUERY_BYTES)
        else if location[..c] == "json_pointer" then
          (value[0] == '/' && All(value, PointerByte) && PointerEscapes(value), MAX_SECRET_POINTER_BYTES)
        else (false, 0);
      if !shape then Err(InvalidParams) else if |value| > limit then Err(LimitExceeded) else Ok(())
  }

  /** The pointer check as the source runs it: a character iterator that skips what follows `~`. */
  method PointerEscapesOk(s: Bytes) returns (ok: bool)
    ensures ok <==> PointerEscapes(s)
  {
    var i := 0;
    while i < |s|
      invariant 0 <= i <= |s|
      invariant forall j :: 0 <= j < i && s[j] == '~' ==> j + 1 < |s| && (s[j + 1] == '0' || s[j + 1] == '1')
    {
      var c := s[i];
      i := i + 1;
      if c == '~' {
        if i == |s| || !(s[i] == '0' || s[i] == '1') {
          return false;
        }
        i := i + 1;
      }
    }
    ok := true;
  }

  method ValidateLocation(location: Bytes) returns (r: Result<(), ValidationError>)
    ensures r == LocationVerdict(location)
  {
    if location == "authorization_bearer" {
      return Ok(());
    }
    var c := Find(location, ":");
    if c == |location| || c + 1 == |location| {
      return Err(InvalidParams);
    }
    var kind, value := location[..c], location[c + 1..];
    var limit;
    if kind == "header" {
      if !All(value, HeaderByte) || ReservedHeader(value) {
        return Err(InvalidParams);
      }
      limit := MAX_SECRET_HEADER_BYTES;
    } else if kind == "query" {
      if !All(value, QueryByte) {
        return Err(InvalidParams);
      }
      limit := MAX_SECRET_QUERY_BYTES;
    } else if kind == "json_pointer" {
      if value[0] != '/' || !All(value, PointerByte) {
        return Err(InvalidParams);
      }
      var escapes := PointerEscapesOk(value);
      if !escapes {
        return Err(InvalidParams);
      }
      limit := MAX_SECRET_POINTER_BYTES;
    } else {
      return Err(InvalidParams);
    }
    r := if |value| > limit then Err(LimitExceeded) else Ok(());
  }

  // ---------------------------------------------------------------- scopes and targets

  ghost function PrefixVerdict(prefix: Bytes): Result<(), ValidationError> {
    if !ValidPath(prefix) || EndsWith(prefix, "/") then Err(InvalidParams)
    else if |prefix| > MAX_SECRET_PATH_PREFIX_BYTES then Err(LimitExceeded)
    else Ok(())
  }

  ghost function ScopeVerdict(scope: SecretScope): Result<(), ValidationError> {
    match scope
    case ApiKeyScope(host, pathPrefix, location) =>
      var _ :- ValidateHost(host);
      var _ :- if pathPrefix.Some? then PrefixVerdict(pathPrefix.value) else Ok(());
      LocationVerdict(location)
    case SiteLoginScope(origin) =>
      var _ :- CanonicalOrigin(origin);
      Ok(())
  }

  method ValidateScope(scope: SecretScope) returns (r: Result<(), ValidationError>)
    ensures r == ScopeVerdict(scope)
  {
    hide CanonicalOrigin, LocationVerdict, ValidateHost, ValidPath;
    match scope
    case ApiKeyScope(host, pathPrefix, location) =>
      var h := ValidateHost(host);
      if h.Err? {
        return h;
      }
      if pathPrefix.Some? {
        var prefix := pathPrefix.value;
        var valid := ValidatePath(prefix);
        if !valid || EndsWith(prefix, "/") {
          return Err(InvalidParams);
        }
        if |prefix| > MAX_SECRET_PATH_PREFIX_BYTES {
          return Err(LimitExceeded);
        }
      }
      r := ValidateLocation(location);
    case SiteLoginScope(origin) =>
      var o := CanonicalOrigin(origin);
      r := if o.Err? then Err(o.error) else Ok(());
  }

  predicate SchemeByte(b: byte) { IsLower(b) || IsDigit(b) || b in "+-." }

  ghost function TargetVerdict(target: UseTarget): Result<(), ValidationError> {
    match target
    case ApiKeyTarget(scheme, host, _, path) =>
      if scheme == [] || !All(scheme, SchemeByte) then Err(InvalidParams)
      else
        var _ :- ValidateHost(host);
        if ValidPath(path) then Ok(()) else Err(InvalidParams)
    case SiteLoginTarget(origin) =>
      var _ :- OriginParts(origin);
      Ok(())
  }

  method ValidateTarget(target: UseTarget) returns (r: Result<(), ValidationError>)
    ensures r == TargetVerdict(target)
  {
    hide OriginParts, ValidateHost, ValidPath;
    match target
    case ApiKeyTarget(scheme, host, _, path) =>
      if scheme == [] || !All(scheme, SchemeByte) {
        return Err(InvalidParams);
      }
      var h := ValidateHost(host);
      if h.Err? {
        return h;
      }
      var valid := ValidatePath(path);
      r := if valid then Ok(()) else Err(InvalidParams);
    case SiteLoginTarget(origin) =>
      var o := OriginParts(origin);
      r := if o.Err? then Err(o.error) else Ok(());
  }

  // ---------------------------------------------------------------- matching

  predicate PathUnder(path: Bytes, prefix: Bytes) {
    path == prefix || (prefix <= path && "/" <= path[|prefix|..])
  }

  predicate Matches(target: UseTarget, scope: SecretScope) {
    match (target, scope)
    case (ApiKeyTarget(scheme, host, port, path), ApiKeyScope(expected, pathPrefix, _)) =>
      scheme == "https" && port == 443 && host == expected &&
      (pathPrefix.None? || PathUnder(path, pathPrefix.value))
    case (SiteLoginTarget(origin), SiteLoginScope(expected)) =>
      var parts := OriginParts(origin);
      parts.Ok? && parts.value.scheme == "https" && parts.value.port == 443 &&
      CanonicalOrigin(expected) == Ok(HTTPS + parts.value.host)
    case _ => false
  }

  /** The string-prefix test is exactly the segment-list prefix. */
  lemma PathUnderIsSegmentPrefix(path: Bytes, prefix: Bytes)
    ensures PathUnder(path, prefix) <==> Split(prefix, '/') <= Split(path, '/')
  {
    if PathUnder(path, prefix) && path != prefix {
      var rest := path[|prefix| + 1..];
      assert path[|prefix|] == path[|prefix|..][0] == "/"[0];
      assert path == prefix + ['/'] + rest;
      SplitAtSeparator(prefix, rest, '/');
    }
    if Split(prefix, '/') <= Split(path, '/') {
      SegmentPrefixIsPathUnder(path, prefix);
    }
  }

  lemma SegmentPrefixIsPathUnder(path: Bytes, prefix: Bytes)
    requires Split(prefix, '/') <= Split(path, '/')
    ensures PathUnder(path, prefix)
  {
    hide Split, Join;
    var xs, ys := Split(prefix, '/'), Split(path, '/')[|Split(prefix, '/')|..];
    assert Split(path, '/') == xs + ys;
    JoinSplit(prefix, '/');
    JoinSplit(path, '/');
    if ys == [] {
      assert xs + ys == xs;
    } else {
      JoinAppend(xs, ys, '/');
      assert path == prefix + ['/'] + Join(ys, '/');
    }
  }

  /** However a receiver reads an accepted path, it reads the same segments. */
  ghost predicate Unambiguous(path: Bytes) {
    && Unescape(path).Some?
    && var d := Unescape(path).value;
    && Unescape(d) == Some(d)
    && RemoveDots(path, []) == path
    && RemoveDots(d, []) == d
    && DecodesTo(Split(path, '/'), Split(d, '/'))
    && RemoveDots(WithoutParameters(d), []) == WithoutParameters(d)
    && Split(WithoutParameters(d), '/') == BareSegments(Split(d, '/'))
  }

  /** The path as a receiver reads it that drops the parameters of every segment. */
  function WithoutParameters(path: Bytes): Bytes {
    Join(BareSegments(Split(path, '/')), '/')
  }

  lemma {:induction false} SplitJoin(segments: seq<Bytes>, sep: byte)
    requires segments != [] && forall i :: 0 <= i < |segments| ==> sep !in segments[i]
    ensures Split(Join(segments, sep), sep) == segments
  {
    hide Split;
    SplitWithout(segments[0], sep);
    if |segments| > 1 {
      SplitJoin(segments[1..], sep);
      SplitAtSeparator(segments[0], Join(segments[1..], sep), sep);
    }
  }

  lemma {:induction false} SegmentsHoldNoSeparator(s: Bytes, sep: byte, i: nat)
    requires i < |Split(s, sep)|
    ensures sep !in Split(s, sep)[i]
  {
    if s != [] {
      var r := Split(s[1..], sep);
      if s[0] == sep {
        if i > 0 {
          SegmentsHoldNoSeparator(s[1..], sep, i - 1);
        }
      } else {
        SegmentsHoldNoSeparator(s[1..], sep, i);
        ExtendParts(s[0], r);
      }
    }
  }

  lemma {:induction false} FirstSegmentIsPrefix(s: Bytes, sep: byte)
    ensures Split(s, sep)[0] <= s
  {
    if s != [] && s[0] != sep {
      FirstSegmentIsPrefix(s[1..], sep);
      ExtendParts(s[0], Split(s[1..], sep));
    }
  }

  /** Dropping parameters keeps the segments apart and brings no dot segment to light. */
  lemma ParametersHideNothing(d: Bytes)
    requires d != [] && d[0] == '/' && forall seg :: seg in Split(d, '/') ==> !DotSegmentWithParameters(seg)
    ensures Split(WithoutParameters(d), '/') == BareSegments(Split(d, '/'))
    ensures RemoveDots(WithoutParameters(d), []) == WithoutParameters(d)
  {
    hide RemoveDots, Split, Bare, Join;
    var segments := Split(d, '/');
    var bare := BareSegments(segments);
    forall i | 0 <= i < |bare| ensures '/' !in bare[i] && !DotSegment(bare[i]) {
      SegmentsHoldNoSeparator(d, '/', i);
      BareIsPrefix(segments[i]);
      assert segments[i] in segments;
    }
    SplitJoin(bare, '/');
    LeadingSlash(d);
    StartsWithSlash(bare);
    CopiedThrough(WithoutParameters(d));
  }

  lemma BareIsPrefix(segment: Bytes)
    ensures Bare(segment) <= segment && forall b: byte :: b !in segment ==> b !in Bare(segment)
  {
    hide Split;
    FirstSegmentIsPrefix(segment, ';');
  }

  lemma LeadingSlash(d: Bytes)
    requires d != [] && d[0] == '/'
    ensures |Split(d, '/')| > 1 && Bare(Split(d, '/')[0]) == []
  {
    assert Split([], ';')[0] == [];
  }

  lemma StartsWithSlash(segments: seq<Bytes>)
    requires |segments| > 1 && segments[0] == []
    ensures Join(segments, '/') != [] && Join(segments, '/')[0] == '/'
  {
  }

  lemma ValidPathIsUnambiguous(path: Bytes)
    requires ValidPath(path)
    ensures Unambiguous(path)
  {
    hide RemoveDots, Split, PathByte;
    var d := Unescape(path).value;
    DecodeTwiceIsDecodeOnce(path);
    UnescapeSegmentwise(path);
    assert d[0] == '/';
    forall seg | seg in Split(d, '/') ensures !DotSegment(seg) {
      ParametersKeepDots(seg);
    }
    CopiedThrough(d);
    forall seg | seg in Split(path, '/') ensures !DotSegment(seg) {
      var i :| 0 <= i < |Split(path, '/')| && Split(path, '/')[i] == seg;
      DotsDecodeToThemselves(seg);
      assert Unescape(seg) == Some(Split(d, '/')[i]);
    }
    CopiedThrough(path);
    ParametersHideNothing(d);
  }

  lemma DotsDecodeToThemselves(seg: Bytes)
    ensures DotSegment(seg) ==> Unescape(seg) == Some(seg)
  {
    if DotSegment(seg) {
      UnescapeIdentity(seg);
    }
  }

  lemma ParametersKeepDots(seg: Bytes)
    ensures DotSegment(seg) ==> DotSegmentWithParameters(seg)
  {
    if DotSegment(seg) {
      SplitWithout(seg, ';');
    }
  }

  lemma {:induction false} SplitWithout(s: Bytes, sep: byte)
    requires sep !in s
    ensures Split(s, sep) == [s]
  {
    if s != [] {
      SplitWithout(s[1..], sep);
      assert [s[0]] + s[1..] == s;
    }
  }

  lemma CopiedThrough(s: Bytes)
    requires s != [] && s[0] == '/' && NoDotSegment(s)
    ensures RemoveDots(s, []) == s
  {
    hide RemoveDots;
    var t := s[1..];
    assert s == "/" + t;
    assert Split(s, '/') == [[]] + Split(t, '/');
    forall seg | seg in Split(t, '/') ensures !DotSegment(seg) {
      assert seg in Split(s, '/');
    }
    RemoveDotsIdentity(t, []);
    assert [] + "/" + t == s;
  }

  /** A release to an accepted target under an accepted scope goes to the scope's host over HTTPS
      and stays under its path prefix, before and after decoding, dot-segment removal and dropping
      path parameters. */
  lemma ReleaseConfinement(target: UseTarget, scope: SecretScope)
    requires target.ApiKeyTarget? && TargetVerdict(target).Ok? && ScopeVerdict(scope).Ok?
    requires Matches(target, scope)
    ensures scope.ApiKeyScope? && target.scheme == "https" && target.port == 443 && target.targetHost == scope.host
    ensures Unambiguous(target.path)
    ensures scope.pathPrefix.Some? ==>
      && Unambiguous(scope.pathPrefix.value)
      && Split(scope.pathPrefix.value, '/') <= Split(target.path, '/')
      && Split(Unescape(scope.pathPrefix.value).value, '/') <= Split(Unescape(target.path).value, '/')
      && Split(WithoutParameters(Unescape(scope.pathPrefix.value).value), '/')
         <= Split(WithoutParameters(Unescape(target.path).value), '/')
  {
    hide ValidPath, Split, Unescape, Bare, WithoutParameters, RemoveDots;
    ValidPathIsUnambiguous(target.path);
    if scope.pathPrefix.Some? {
      var prefix := scope.pathPrefix.value;
      ValidPathIsUnambiguous(prefix);
      PathUnderIsSegmentPrefix(target.path, prefix);
      DecodedPrefix(Split(prefix, '/'), Split(Unescape(prefix).value, '/'),
                    Split(target.path, '/'), Split(Unescape(target.path).value, '/'));
      BarePrefix(Split(Unescape(prefix).value, '/'), Split(Unescape(target.path).value, '/'));
    }
  }

  lemma BarePrefix(a: seq<Bytes>, b: seq<Bytes>)
    requires a <= b
    ensures BareSegments(a) <= BareSegments(b)
  {
    hide Bare;
  }

  lemma DecodedPrefix(a: seq<Bytes>, da: seq<Bytes>, b: seq<Bytes>, db: seq<Bytes>)
    requires DecodesTo(a, da) && DecodesTo(b, db) && a <= b
    ensures da <= db
  {
    hide Unescape;
    forall i | 0 <= i < |da| ensures da[i] == db[i] {
      assert a[i] == b[i];
    }
  }

  // ---------------------------------------------------------------- origin matching

  /** `authority` writes host `h` with no port or any spelling of port 443. */
  predicate AuthorityOf(authority: Bytes, h: Bytes) {
    || authority == h
    || (h < authority && authority[|h|] == ':' && ParseUnsigned(authority[|h| + 1..], 65535) == Some(443))
  }

  /** A login target matches an accepted login scope exactly when it writes the scope's host. */
  lemma SiteLoginMatchIsSameHost(origin: Bytes, expected: Field, h: Bytes)
    requires CanonicalOrigin(expected) == Ok(HTTPS + h)
    ensures Matches(SiteLoginTarget(origin), SiteLoginScope(expected)) <==>
      HTTPS <= origin && AuthorityOf(origin[8..], h)
  {
    hide AuthorityParts, AuthorityOf, ValidateHost, CanonicalOrigin;
    CanonicalHost(expected, h);
    if HTTPS <= origin {
      HttpsParts(origin);
      AuthorityPartsExact(origin[8..], h);
      if AuthorityParts(origin[8..], 443).Ok? {
        SchemeCancels(AuthorityParts(origin[8..], 443).value.0, h);
      }
    } else {
      HttpsSchemeStarts(origin);
    }
  }

  lemma SchemeCancels(a: Bytes, b: Bytes)
    ensures HTTPS + a == HTTPS + b <==> a == b
  {
    assert (HTTPS + a)[8..] == a && (HTTPS + b)[8..] == b;
  }

  lemma CanonicalHost(origin: Bytes, h: Bytes)
    requires CanonicalOrigin(origin) == Ok(HTTPS + h)
    ensures ValidateHost(h).Ok?
  {
    SchemeCancels(StripPort(origin[8..]), h);
  }

  lemma HttpsParts(origin: Bytes)
    requires HTTPS <= origin
    ensures
      var parts := AuthorityParts(origin[8..], 443);
      OriginParts(origin) == if parts.Err? then Err(parts.error) else Ok(Origin("https", parts.value.0, parts.value.1))
  {
    hide AuthorityParts;
    assert forall i :: 0 <= i < 8 ==> origin[i] == HTTPS[i];
    FindScheme(origin);
    assert origin[..5] == "https";
  }

  lemma HttpsSchemeStarts(origin: Bytes)
    ensures OriginParts(origin).Ok? && OriginParts(origin).value.scheme == "https" ==> HTTPS <= origin
  {
    hide AuthorityParts;
    var k := Find(origin, "://");
    if k < |origin| && origin[..k] == "https" {
      assert origin[5..][..3] == "://";
      assert origin == "https" + "://" + origin[8..];
      assert "https" + "://" == HTTPS;
    }
  }

  lemma FindScheme(origin: Bytes)
    requires HTTPS <= origin
    ensures Find(origin, "://") == 5
  {
    hide Find;
    var k := Find(origin, "://");
    assert origin[5..] == "://" + origin[8..] by {
      assert origin == HTTPS + origin[8..];
    }
    assert !(5 < k);
    NoEarlierColon(origin, k);
  }

  lemma NoEarlierColon(origin: Bytes, k: nat)
    requires HTTPS <= origin && k < |origin| && "://" <= origin[k..]
    ensures k >= 5
  {
    assert origin[k] == origin[k..][0] == ':';
    assert k < 8 ==> origin[k] == HTTPS[k];
  }

  lemma AuthorityPartsExact(authority: Bytes, h: Bytes)
    requires ValidateHost(h).Ok?
    ensures AuthorityParts(authority, 443) == Ok((h, 443)) <==> AuthorityOf(authority, h)
  {
    hide ValidateHost, ParseUnsigned;
    var c := Find(authority, ":");
    assert c < |authority| ==> authority[c] == authority[c..][0] == ":"[0];
    if AuthorityOf(authority, h) {
      assert authority == h + authority[|h|..];
      FindColon(h, authority[|h|..]);
    }
  }

  /** The first colon after a valid host is the one that ends it. */
  lemma FindColon(h: Bytes, rest: Bytes)
    requires ValidateHost(h).Ok? && (rest == [] || rest[0] == ':')
    ensures Find(h + rest, ":") == |h|
  {
    hide ValidateHost;
    var s := h + rest;
    var k := Find(s, ":");
    assert k < |s| ==> s[k] == s[k..][0] == ":"[0];
    NoColonInHost(h);
    assert forall j :: 0 <= j < |h| ==> s[j] == h[j] && h[j] in h;
    if rest != [] {
      assert s[|h|..] == rest && ":" <= rest;
    }
  }

  lemma NoColonInHost(h: Bytes)
    ensures ValidateHost(h).Ok? ==> ':' !in h
  {
    if ValidateHost(h).Ok? {
      forall i | 0 <= i < |h| ensures h[i] != ':' {
        HostBytes(h, i);
      }
    }
  }

  /** Matching is wider than comparing canonical origins: it also takes other spellings of the
      port, such as a leading zero. The two agree exactly on the canonical spellings. */
  lemma CanonicalOriginsAgreeIff(origin: Bytes, expected: Field, h: Bytes)
    requires CanonicalOrigin(expected) == Ok(HTTPS + h)
    ensures Matches(SiteLoginTarget(origin), SiteLoginScope(expected)) ==>
      && HTTPS <= origin
      && (CanonicalOrigin(origin) == CanonicalOrigin(expected) <==> origin[8..] == h || origin[8..] == h + ":443")
  {
    hide Matches, ValidateHost, ParseUnsigned, StripPort;
    CanonicalHost(expected, h);
    SiteLoginMatchIsSameHost(origin, expected, h);
    if Matches(SiteLoginTarget(origin), SiteLoginScope(expected)) {
      var authority := origin[8..];
      StripPortExact(authority, h);
      SchemeCancels(StripPort(authority), h);
    }
  }

  lemma StripPortExact(authority: Bytes, h: Bytes)
    requires ValidateHost(h).Ok? && AuthorityOf(authority, h)
    ensures StripPort(authority) == h && ValidateHost(StripPort(authority)).Ok? <==>
      authority == h || authority == h + ":443"
    ensures ValidateHost(StripPort(authority)).Ok? ==> StripPort(authority) == h
  {
    hide ValidateHost, ParseUnsigned;
    NoColonInHost(h);
    NoColonInHost(authority);
    if authority != h {
      var port := authority[|h| + 1..];
      assert authority == h + ":" + port;
      assert authority[|h|] == ':' && ':' in authority;
      PortText(port);
      SuffixIsPort(h, port);
    } else {
      SuffixHasColon(h);
    }
  }

  lemma SuffixHasColon(s: Bytes)
    ensures EndsWith(s, ":443") ==> ':' in s
  {
    if EndsWith(s, ":443") {
      assert s[|s| - 4] == s[|s| - 4..][0];
    }
  }

  /** A text after the last colon ends the authority with `:443` only when it is `443`. */
  lemma SuffixIsPort(h: Bytes, port: Bytes)
    requires |port| >= 3 && ':' !in port
    ensures EndsWith(h + ":" + port, ":443") <==> port == "443"
    ensures h + ":" + port == h + ":443" <==> port == "443"
  {
    var a := h + ":" + port;
    assert a[|h| + 1..] == port;
    assert port == "443" ==> a[|h|..] == ":443";
    assert |a| - 4 > |h| ==> a[|a| - 4] == port[|a| - 5 - |h|];
    if a[|a| - 4..] == ":443" {
      assert a[|a| - 4] == a[|a| - 4..][0] == ':';
      assert port == a[|a| - 4..][1..];
    }
  }

  lemma PortText(port: Bytes)
    requires ParseUnsigned(port, 65535) == Some(443)
    ensures |port| >= 3 && ':' !in port
  {
    var digits := if port[0] == '+' then port[1..] else port;
    forall i | 0 <= i < |port| ensures port[i] != ':' {
      var k := if port[0] == '+' then i - 1 else i;
      assert k >= 0 ==> port[i] == digits[k] && IsDigit(digits[k]);
    }
    DecimalBound(digits);
    assert Pow(10, 1) == 10 && Pow(10, 2) == 100;
  }

  lemma {:induction false} DecimalBound(s: Bytes)
    ensures DecimalValue(s) < Pow(10, |s|)
  {
    if s != [] && IsDigit(s[|s| - 1]) {
      DecimalBound(s[..|s| - 1]);
    }
  }

  /** A concrete target that matches although the canonical-origin comparison refuses it. */
  lemma LeadingZeroPortMatches()
    ensures Matches(SiteLoginTarget("https://a:0443"), SiteLoginScope("https://a"))
    ensures CanonicalOrigin("https://a:0443") != CanonicalOrigin("https://a")
  {
    hide Matches, ValidateHost, ParseUnsigned;
    var origin: Bytes, expected: Field := "https://a:0443", "https://a";
    assert origin[8..] == "a:0443" && expected[8..] == "a";
    OneLetterHost();
    assert !EndsWith("a", ":443");
    assert CanonicalOrigin(expected) == Ok(HTTPS + "a");
    PortWithLeadingZero();
    assert origin[8..][2..] == "0443";
    SiteLoginMatchIsSameHost(origin, expected, "a");
    CanonicalOriginsAgreeIff(origin, expected, "a");
    assert |"a:0443"| != |"a" + ":443"|;
  }

  lemma OneLetterHost()
    ensures ValidateHost("a").Ok?
  {
    SplitWithout("a", '.');
  }

  lemma PortWithLeadingZero()
    ensures ParseUnsigned("0443", 65535) == Some(443)
  {
    hide DecimalValue;
    DecimalNothing();
    DecimalAfter("", '0', "0");
    DecimalAfter("0", '4', "04");
    DecimalAfter("04", '4', "044");
    DecimalAfter("044", '3', "0443");
  }

  lemma DecimalNothing()
    ensures DecimalValue([]) == 0
  {
  }

  lemma DecimalAfter(s: Bytes, d: byte, t: Bytes)
    requires IsDigit(d) && t == s + [d]
    ensures DecimalValue(t) == 10 * DecimalValue(s) + (d as int - '0' as int)
  {
    DecimalPush(s, d);
  }

  lemma DecimalPush(s: Bytes, d: byte)
    requires IsDigit(d)
    ensures DecimalValue(s + [d]) == 10 * DecimalValue(s) + (d as int - '0' as int)
  {
    assert (s + [d])[..|s|] == s;
  }
}
