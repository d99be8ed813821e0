/** Approval statements: the objects a phone signs. They use a closed vocabulary of keys, so an
    object is a map from those keys; JSON text is not part of this model.
 */
module Approval {
  import opened Bytes
  import opened Scope
  import opened SecretCodec
  import Ulid

  datatype Key =
    | V | RequestId | MemberId | AskingMemberId | ScopeKey | Owner | Kind | Ref | Epoch | AgentId | Coverage
    | Secret | Name | Incarnation | Use | Host | PathPrefix | Location | OriginKey | Methods
    | Flow | FlowId | Version | CodeHash | InstallId | Durations | RequestExpiresAtMs

  datatype Json =
    | Null
    | Num(n: int)
    | Str(s: Bytes)
    | List(items: seq<Bytes>)
    | Obj(members: map<Key, Json>)

  const USE_STATEMENT_V1: Bytes := "ck-secret-use-statement/v1"
  const USE_STATEMENT_V2: Bytes := "ck-secret-use-statement/v2"
  const FLOW_STATEMENT_V1: Bytes := "ck-secret-flow-statement/v1"
  const FLOW_STATEMENT_V2: Bytes := "ck-secret-flow-statement/v2"
  const MAX_SECRET_JSON_INTEGER := 0x1f_ffff_ffff_ffff
  const MAX_ENVELOPE_ITEMS := 16

  // ---------------------------------------------------------------- methods

  /** Byte-wise lexicographic order on strings; a proper prefix comes first. */
  predicate Before(s: Bytes, t: Bytes) {
    t != [] && (s == [] || s[0] < t[0] || (s[0] == t[0] && Before(s[1..], t[1..])))
  }

  lemma {:induction false} BeforeTrichotomy(s: Bytes, t: Bytes)
    ensures Before(s, t) || s == t || Before(t, s)
    ensures !(Before(s, t) && Before(t, s)) && !Before(s, s)
    decreases |s|
  {
    if s != [] {
      if t != [] {
        BeforeTrichotomy(s[1..], t[1..]);
        assert s == [s[0]] + s[1..] && t == [t[0]] + t[1..];
      }
      BeforeTrichotomy(s[1..], s[1..]);
    }
  }

  lemma {:induction false} BeforeTransitive(s: Bytes, t: Bytes, u: Bytes)
    requires Before(s, t) && Before(t, u)
    ensures Before(s, u)
    decreases |s|
  {
    if s != [] && s[0] == t[0] && t[0] == u[0] {
      BeforeTransitive(s[1..], t[1..], u[1..]);
    }
  }

  ghost predicate Increasing(xs: seq<Bytes>) {
    forall i, j :: 0 <= i < j < |xs| ==> Before(xs[i], xs[j])
  }

  function Insert(x: Bytes, xs: seq<Bytes>): seq<Bytes> {
    if xs == [] || !Before(xs[0], x) then [x] + xs else [xs[0]] + Insert(x, xs[1..])
  }

  /** The sorted vector; any sort yields it. */
  function Sorted(xs: seq<Bytes>): seq<Bytes> {
    if xs == [] then [] else Insert(xs[0], Sorted(xs[1..]))
  }

  predicate MethodOk(m: Bytes) {
    1 <= |m| <= 16 && All(m, IsUpper)
  }

  ghost predicate Distinct(xs: seq<Bytes>) {
    forall i, j :: 0 <= i < j < |xs| ==> xs[i] != xs[j]
  }

  ghost predicate ValidMethods(xs: seq<Bytes>) {
    xs != [] && Distinct(xs) && forall i :: 0 <= i < |xs| ==> MethodOk(xs[i])
  }

  function Elements(xs: seq<Bytes>): set<Bytes> {
    set x | x in xs
  }

  lemma {:induction false} InsertMultiset(x: Bytes, xs: seq<Bytes>)
    ensures multiset(Insert(x, xs)) == multiset(xs) + multiset{x}
    ensures |Insert(x, xs)| == |xs| + 1
  {
    hide Before;
    if xs != [] && Before(xs[0], x) {
      InsertMultiset(x, xs[1..]);
      assert xs == [xs[0]] + xs[1..];
    }
  }

  lemma {:induction false} SortedMultiset(xs: seq<Bytes>)
    ensures multiset(Sorted(xs)) == multiset(xs) && |Sorted(xs)| == |xs|
  {
    if xs != [] {
      SortedMultiset(xs[1..]);
      InsertMultiset(xs[0], Sorted(xs[1..]));
      assert xs == [xs[0]] + xs[1..];
    }
  }

  /** Adjacent order is enough for the whole. */
  ghost predicate Ascending(xs: seq<Bytes>) {
    forall i :: 0 <= i < |xs| - 1 ==> !Before(xs[i + 1], xs[i])
  }

  lemma {:induction false} InsertAscending(x: Bytes, xs: seq<Bytes>)
    requires Ascending(xs)
    ensures Ascending(Insert(x, xs))
  {
    hide Before;
    if xs != [] && Before(xs[0], x) {
      assert Ascending(xs[1..]) by {
        forall i | 0 <= i < |xs| - 2 ensures !Before(xs[1..][i + 1], xs[1..][i]) {
          assert xs[1..][i + 1] == xs[i + 2] && xs[1..][i] == xs[i + 1];
        }
      }
      InsertAscending(x, xs[1..]);
      BeforeTrichotomy(xs[0], x);
      var r := Insert(x, xs[1..]);
      assert r[0] == x || (xs[1..] != [] && r[0] == xs[1]);
      assert Insert(x, xs) == [xs[0]] + r;
    } else {
      assert Insert(x, xs) == [x] + xs;
    }
  }

  lemma {:induction false} SortedAscending(xs: seq<Bytes>)
    ensures Ascending(Sorted(xs))
  {
    if xs != [] {
      SortedAscending(xs[1..]);
      InsertAscending(xs[0], Sorted(xs[1..]));
    }
  }

  /** Ascending without equal neighbours is strictly increasing throughout. */
  lemma {:induction false} StrictFromNeighbours(xs: seq<Bytes>, i: nat, j: nat)
    requires Ascending(xs) && (forall k :: 0 <= k < |xs| - 1 ==> xs[k] != xs[k + 1]) && i < j < |xs|
    ensures Before(xs[i], xs[j])
    decreases j
  {
    BeforeTrichotomy(xs[j - 1], xs[j]);
    assert xs[j - 1] != xs[(j - 1) + 1] && !Before(xs[(j - 1) + 1], xs[j - 1]);
    if i < j - 1 {
      StrictFromNeighbours(xs, i, j - 1);
      BeforeTransitive(xs[i], xs[j - 1], xs[j]);
    }
  }

  method SortedFlowMethods(methods: seq<Bytes>) returns (r: Result<seq<Bytes>, ValidationError>)
    ensures r.Ok? <==> ValidMethods(methods)
    ensures r.Ok? ==> r.value == Sorted(methods) && Increasing(r.value) && multiset(r.value) == multiset(methods)
  {
    hide Before, MethodOk;
    if methods == [] || exists i :: 0 <= i < |methods| && !MethodOk(methods[i]) {
      return Err(InvalidParams);
    }
    var sorted := Sorted(methods);
    SortedMultiset(methods);
    SortedAscending(methods);
    for k := 0 to |sorted| - 1
      invariant forall i :: 0 <= i < k ==> sorted[i] != sorted[i + 1]
    {
      if sorted[k] == sorted[k + 1] {
        RepeatedElement(sorted, k, k + 1, methods);
        return Err(InvalidParams);
      }
    }
    forall i, j | 0 <= i < j < |sorted| ensures Before(sorted[i], sorted[j]) {
      StrictFromNeighbours(sorted, i, j);
    }
    IncreasingDistinct(sorted);
    DistinctOfMultiset(sorted, methods);
    r := Ok(sorted);
  }

  lemma IncreasingDistinct(xs: seq<Bytes>)
    requires Increasing(xs)
    ensures Distinct(xs)
  {
    hide Before;
    forall i, j | 0 <= i < j < |xs| ensures xs[i] != xs[j] {
      assert Before(xs[i], xs[j]);
      BeforeTrichotomy(xs[i], xs[i]);
    }
  }

  /** Distinctness is a property of the multiset: no element counts twice. */
  lemma {:induction false} DistinctIffCounts(xs: seq<Bytes>)
    ensures Distinct(xs) <==> forall x :: x in xs ==> multiset(xs)[x] == 1
  {
    if xs != [] {
      var rest := xs[1..];
      DistinctIffCounts(rest);
      assert xs == [xs[0]] + rest;
      assert multiset(xs) == multiset{xs[0]} + multiset(rest);
      if Distinct(xs) {
        assert Distinct(rest);
        assert xs[0] !in rest;
      }
      if forall x :: x in xs ==> multiset(xs)[x] == 1 {
        assert xs[0] in xs && xs[0] !in rest;
        forall x | x in rest ensures multiset(rest)[x] == 1 {
          assert x in xs;
        }
      }
    }
  }

  lemma DistinctOfMultiset(xs: seq<Bytes>, ys: seq<Bytes>)
    requires Distinct(xs) && multiset(xs) == multiset(ys)
    ensures Distinct(ys)
  {
    DistinctIffCounts(xs);
    DistinctIffCounts(ys);
    forall y | y in ys ensures multiset(ys)[y] == 1 {
      assert y in multiset(xs);
    }
  }

  lemma RepeatedElement(xs: seq<Bytes>, i: nat, j: nat, ys: seq<Bytes>)
    requires i < j < |xs| && xs[i] == xs[j] && multiset(xs) == multiset(ys)
    ensures !Distinct(ys)
  {
    if Distinct(ys) {
      DistinctOfMultiset(ys, xs);
    }
  }

  // ---------------------------------------------------------------- one order per method set

  /** Strictly increasing lists over one set are one list. */
  lemma {:induction false} IncreasingUnique(xs: seq<Bytes>, ys: seq<Bytes>)
    requires Increasing(xs) && Increasing(ys) && Elements(xs) == Elements(ys)
    ensures xs == ys
    decreases |xs|
  {
    hide Before;
    NoElements(xs);
    NoElements(ys);
    if xs != [] {
      assert xs[0] in Elements(ys) && ys[0] in Elements(xs);
      SmallestFirst(xs, ys);
      TailElements(xs);
      TailElements(ys);
      IncreasingUnique(xs[1..], ys[1..]);
      assert xs == [xs[0]] + xs[1..] && ys == [ys[0]] + ys[1..];
    }
  }

  lemma SmallestFirst(xs: seq<Bytes>, ys: seq<Bytes>)
    requires xs != [] && ys != [] && Increasing(xs) && Increasing(ys) && xs[0] in ys && ys[0] in xs
    ensures xs[0] == ys[0]
  {
    hide Before;
    BeforeTrichotomy(xs[0], ys[0]);
    FirstIsLeast(xs, ys[0]);
    FirstIsLeast(ys, xs[0]);
  }

  lemma FirstIsLeast(xs: seq<Bytes>, x: Bytes)
    requires Increasing(xs) && x in xs
    ensures x == xs[0] || Before(xs[0], x)
  {
  }

  lemma NoElements(xs: seq<Bytes>)
    ensures Elements(xs) == {} <==> xs == []
  {
    if xs != [] {
      assert xs[0] in Elements(xs);
    }
  }

  lemma TailElements(xs: seq<Bytes>)
    requires xs != [] && Increasing(xs)
    ensures Increasing(xs[1..]) && Elements(xs[1..]) == Elements(xs) - {xs[0]}
  {
    hide Before;
    IncreasingDistinct(xs);
    forall x | x in Elements(xs) - {xs[0]} ensures x in Elements(xs[1..]) {
      var i :| 0 <= i < |xs| && xs[i] == x;
      assert xs[1..][i - 1] == x;
    }
    forall x | x in Elements(xs[1..]) ensures x in Elements(xs) - {xs[0]} {
      var i :| 0 <= i < |xs[1..]| && xs[1..][i] == x;
      assert xs[i + 1] == x;
    }
  }

  lemma SortedIncreasing(xs: seq<Bytes>)
    requires Distinct(xs)
    ensures Increasing(Sorted(xs)) && Elements(Sorted(xs)) == Elements(xs)
  {
    hide Before, Sorted;
    SortedMultiset(xs);
    SortedAscending(xs);
    var s := Sorted(xs);
    DistinctOfMultiset(xs, s);
    forall i, j | 0 <= i < j < |s| ensures Before(s[i], s[j]) {
      StrictFromNeighbours(s, i, j);
    }
    forall x ensures x in s <==> x in xs {
      assert x in s <==> x in multiset(s);
      assert x in xs <==> x in multiset(xs);
    }
  }

  /** The signed list depends on the method set alone. */
  lemma MethodListIsCanonical(xs: seq<Bytes>, ys: seq<Bytes>)
    requires ValidMethods(xs) && ValidMethods(ys)
    ensures Sorted(xs) == Sorted(ys) <==> Elements(xs) == Elements(ys)
  {
    hide Sorted;
    SortedIncreasing(xs);
    SortedIncreasing(ys);
    if Elements(xs) == Elements(ys) {
      IncreasingUnique(Sorted(xs), Sorted(ys));
    }
  }

  // ---------------------------------------------------------------- statements

  datatype FlowIdentity = FlowIdentity(flowId: Bytes, version: u64, codeHash: Bytes, installId: Bytes)

  predicate Printable(b: byte) { 0x20 <= b as int <= 0x7e }

  predicate FlowIdentityOk(f: FlowIdentity) {
    && 1 <= |f.flowId| <= 256 && All(f.flowId, Printable)
    && 1 <= f.version <= MAX_SECRET_JSON_INTEGER
    && |f.codeHash| == 64 && All(f.codeHash, IsLowerHex)
    && 1 <= |f.installId| <= 256 && All(f.installId, Printable)
  }

  datatype AskingScope = AskingScope(owner: Bytes, kind: Bytes, scopeRef: Bytes, epoch: u64)

  datatype SecretUse = SecretUse(name: Bytes, scope: AskingScope, coverage: Bytes, agentId: Option<Bytes>)

  /** The identity every statement carries. */
  datatype Request = Request(id: Bytes, member: Bytes, incarnation: Bytes, expiry: i64)

  function SecretObject(name: Bytes, scope: SecretScope, incarnation: Bytes): Json {
    Obj(map[Name := Str(name), Kind := Str(ScopeKind(scope)), Incarnation := Str(incarnation)])
  }

  function UseObject(scope: SecretScope): Json {
    match scope
    case ApiKeyScope(host, pathPrefix, location) =>
      Obj(map[Host := Str(host), PathPrefix := Str(OrEmpty(pathPrefix)), Location := Str(location)])
    case SiteLoginScope(origin) => Obj(map[OriginKey := Str(origin)])
  }

  function FlowUseObject(scope: SecretScope, methods: Option<seq<Bytes>>): Json {
    match scope
    case ApiKeyScope(host, pathPrefix, location) =>
      Obj(map[Host := Str(host), PathPrefix := Str(OrEmpty(pathPrefix)), Location := Str(location),
              Methods := List(if methods.None? then [] else Sorted(methods.value))])
    case SiteLoginScope(origin) => Obj(map[OriginKey := Str(origin)])
  }

  function FlowObject(f: FlowIdentity): Json {
    Obj(map[FlowId := Str(f.flowId), Version := Num(f.version), CodeHash := Str(f.codeHash),
            InstallId := Str(f.installId)])
  }

  function AskingObject(a: AskingScope): Json {
    Obj(map[Owner := Str(a.owner), Kind := Str(a.kind), Ref := Str(a.scopeRef), Epoch := Num(a.epoch)])
  }

  function ApprovalStatement(r: Request, call: SecretUse, scope: SecretScope): Json {
    Obj(map[
      V := Str(USE_STATEMENT_V1), RequestId := Str(r.id), MemberId := Str(r.member),
      ScopeKey := AskingObject(call.scope),
      AgentId := if call.agentId.None? then Null else Str(call.agentId.value),
      Coverage := Str(call.coverage), Secret := SecretObject(call.name, scope, r.incarnation),
      Use := UseObject(scope),
      Durations := List(if call.coverage == "agent_and_workers" then ["permanent"]
                        else ["once", "hour", "session", "permanent"]),
      RequestExpiresAtMs := Num(r.expiry)])
  }

  /** Which pairs of scope and methods a flow statement takes. */
  ghost predicate FlowUseOk(scope: SecretScope, methods: Option<seq<Bytes>>) {
    if scope.ApiKeyScope? then methods.Some? && ValidMethods(methods.value) else methods.None?
  }

  ghost predicate FlowOk(f: FlowIdentity, scope: SecretScope, methods: Option<seq<Bytes>>) {
    FlowIdentityOk(f) && f.flowId != FLOW_STATEMENT_V1 && f.flowId != USE_STATEMENT_V1 && FlowUseOk(scope, methods)
  }

  function FlowObjectOf(
    r: Request, name: Bytes, f: FlowIdentity, scope: SecretScope, methods: Option<seq<Bytes>>): Json
  {
    Obj(map[
      V := Str(FLOW_STATEMENT_V1), RequestId := Str(r.id), MemberId := Str(r.member), Flow := FlowObject(f),
      Secret := SecretObject(name, scope, r.incarnation), Use := FlowUseObject(scope, methods),
      Durations := List(["version"]), RequestExpiresAtMs := Num(r.expiry)])
  }

  method FlowApprovalStatement(
    r: Request, name: Bytes, f: FlowIdentity, scope: SecretScope, methods: Option<seq<Bytes>>)
    returns (s: Result<Json, ValidationError>)
    ensures s.Ok? <==> FlowOk(f, scope, methods)
    ensures s.Ok? ==> s.value == FlowObjectOf(r, name, f, scope, methods)
  {
    hide FlowIdentityOk, ValidMethods, Sorted;
    if !FlowIdentityOk(f) || f.flowId == FLOW_STATEMENT_V1 || f.flowId == USE_STATEMENT_V1 {
      return Err(InvalidParams);
    }
    if scope.ApiKeyScope? && methods.Some? {
      var sorted := SortedFlowMethods(methods.value);
      if sorted.Err? {
        return Err(InvalidParams);
      }
    } else if scope.ApiKeyScope? || methods.Some? {
      return Err(InvalidParams);
    }
    s := Ok(FlowObjectOf(r, name, f, scope, methods));
  }

  /** A forwarded statement: the local one with the asker added and the tag raised. */
  function Forwarded(statement: Json, asker: Bytes, tag: Bytes): Json
    requires statement.Obj?
  {
    if asker == [] then statement
    else Obj(statement.members[AskingMemberId := Str(asker)][V := Str(tag)])
  }

  method FlowApprovalStatementForAsker(
    r: Request, name: Bytes, f: FlowIdentity, scope: SecretScope, methods: Option<seq<Bytes>>, asker: Bytes)
    returns (s: Result<Json, ValidationError>)
    ensures s.Ok? <==>
      FlowOk(f, scope, methods) && (asker != [] ==> f.flowId != USE_STATEMENT_V2 && f.flowId != FLOW_STATEMENT_V2)
    ensures s.Ok? ==> s.value == Signed(FlowStatement(r, name, f, scope, methods, asker))
  {
    hide FlowOk;
    if asker == [] {
      s := FlowApprovalStatement(r, name, f, scope, methods);
      return;
    }
    if f.flowId == USE_STATEMENT_V2 || f.flowId == FLOW_STATEMENT_V2 {
      return Err(InvalidParams);
    }
    var local := FlowApprovalStatement(r, name, f, scope, methods);
    if local.Err? {
      return Err(local.error);
    }
    var members := local.value.members;
    members := members[AskingMemberId := Str(asker)];
    members := members[V := Str(FLOW_STATEMENT_V2)];
    s := Ok(Obj(members));
  }

  // ---------------------------------------------------------------- canonical statements

  lemma SecretObjectInjective(n1: Bytes, s1: SecretScope, i1: Bytes, n2: Bytes, s2: SecretScope, i2: Bytes)
    requires SecretObject(n1, s1, i1) == SecretObject(n2, s2, i2)
    ensures n1 == n2 && i1 == i2 && s1.ApiKeyScope? == s2.ApiKeyScope?
  {
    var a, b := SecretObject(n1, s1, i1).members, SecretObject(n2, s2, i2).members;
    assert a[Name] == b[Name] && a[Incarnation] == b[Incarnation] && a[Kind] == b[Kind];
    KindsDiffer();
  }

  lemma UseObjectInjective(s1: SecretScope, s2: SecretScope)
    requires ScopeVerdict(s1).Ok? && ScopeVerdict(s2).Ok? && s1.ApiKeyScope? == s2.ApiKeyScope?
    requires UseObject(s1) == UseObject(s2)
    ensures s1 == s2
  {
    hide ScopeVerdict;
    var a, b := UseObject(s1).members, UseObject(s2).members;
    if s1.ApiKeyScope? {
      assert a[Host] == b[Host] && a[PathPrefix] == b[PathPrefix] && a[Location] == b[Location];
      assert ScopeFields(s1) == ScopeFields(s2);
    } else {
      assert a[OriginKey] == b[OriginKey];
    }
    ValidScopesSameFields(s1, s2);
  }

  lemma FlowUseObjectInjective(s1: SecretScope, m1: Option<seq<Bytes>>, s2: SecretScope, m2: Option<seq<Bytes>>)
    requires ScopeVerdict(s1).Ok? && ScopeVerdict(s2).Ok? && s1.ApiKeyScope? == s2.ApiKeyScope?
    requires FlowUseOk(s1, m1) && FlowUseOk(s2, m2)
    ensures FlowUseObject(s1, m1) == FlowUseObject(s2, m2) ==> s1 == s2 && SameMethods(m1, m2)
  {
    hide ScopeVerdict, Sorted, ValidMethods;
    if FlowUseObject(s1, m1) != FlowUseObject(s2, m2) {
      return;
    }
    var a, b := FlowUseObject(s1, m1).members, FlowUseObject(s2, m2).members;
    if s1.ApiKeyScope? {
      assert a[Host] == b[Host] && a[PathPrefix] == b[PathPrefix] && a[Location] == b[Location];
      assert a[Methods] == b[Methods];
      assert ScopeFields(s1) == ScopeFields(s2);
      MethodListIsCanonical(m1.value, m2.value);
    } else {
      assert a[OriginKey] == b[OriginKey];
    }
    ValidScopesSameFields(s1, s2);
  }

  predicate SameMethods(m1: Option<seq<Bytes>>, m2: Option<seq<Bytes>>) {
    m1.Some? == m2.Some? && (m1.Some? ==> Elements(m1.value) == Elements(m2.value))
  }

  lemma FlowObjectInjective(f: FlowIdentity, g: FlowIdentity)
    requires FlowObject(f) == FlowObject(g)
    ensures f == g
  {
    var a, b := FlowObject(f).members, FlowObject(g).members;
    assert a[FlowId] == b[FlowId] && a[Version] == b[Version] && a[CodeHash] == b[CodeHash];
    assert a[InstallId] == b[InstallId];
  }

  /** Over accepted scopes a flow statement is canonical: two are equal exactly when they agree on
      request, name, flow, scope and method set, in whatever order the methods were given. */
  lemma FlowStatementsAreCanonical(
    r1: Request, n1: Bytes, f1: FlowIdentity, s1: SecretScope, m1: Option<seq<Bytes>>,
    r2: Request, n2: Bytes, f2: FlowIdentity, s2: SecretScope, m2: Option<seq<Bytes>>)
    requires FlowOk(f1, s1, m1) && FlowOk(f2, s2, m2) && ScopeVerdict(s1).Ok? && ScopeVerdict(s2).Ok?
    ensures FlowObjectOf(r1, n1, f1, s1, m1) == FlowObjectOf(r2, n2, f2, s2, m2) <==>
      r1 == r2 && n1 == n2 && f1 == f2 && s1 == s2 && SameMethods(m1, m2)
  {
    hide ScopeVerdict, FlowIdentityOk, ValidMethods, Sorted, FlowUseObject, SecretObject, FlowObject;
    var x, y := FlowObjectOf(r1, n1, f1, s1, m1), FlowObjectOf(r2, n2, f2, s2, m2);
    if x == y {
      var a, b := x.members, y.members;
      assert a[RequestId] == b[RequestId] && a[MemberId] == b[MemberId];
      assert a[RequestExpiresAtMs] == b[RequestExpiresAtMs];
      assert a[Flow] == b[Flow] && a[Secret] == b[Secret] && a[Use] == b[Use];
      FlowObjectInjective(f1, f2);
      SecretObjectInjective(n1, s1, r1.incarnation, n2, s2, r2.incarnation);
      FlowUseObjectInjective(s1, m1, s2, m2);
    }
    if r1 == r2 && n1 == n2 && f1 == f2 && s1 == s2 && SameMethods(m1, m2) {
      SameMethodsSameUse(s1, m1, m2);
    }
  }

  lemma SameMethodsSameUse(s: SecretScope, m1: Option<seq<Bytes>>, m2: Option<seq<Bytes>>)
    requires FlowUseOk(s, m1) && FlowUseOk(s, m2) && SameMethods(m1, m2)
    ensures FlowUseObject(s, m1) == FlowUseObject(s, m2)
  {
    hide Sorted, ValidMethods;
    if s.ApiKeyScope? {
      MethodListIsCanonical(m1.value, m2.value);
    }
  }

  lemma AskingObjectInjective(a: AskingScope, b: AskingScope)
    requires AskingObject(a) == AskingObject(b)
    ensures a == b
  {
    var x, y := AskingObject(a).members, AskingObject(b).members;
    assert x[Owner] == y[Owner] && x[Kind] == y[Kind] && x[Ref] == y[Ref] && x[Epoch] == y[Epoch];
  }

  /** A use statement determines the request, the call and the accepted scope it is about. */
  lemma ApprovalStatementInjective(
    r1: Request, c1: SecretUse, s1: SecretScope, r2: Request, c2: SecretUse, s2: SecretScope)
    requires ScopeVerdict(s1).Ok? && ScopeVerdict(s2).Ok?
    ensures ApprovalStatement(r1, c1, s1) == ApprovalStatement(r2, c2, s2) <==> r1 == r2 && c1 == c2 && s1 == s2
  {
    hide ApprovalStatement, ScopeVerdict;
    SameStatement(r1, c1, s1, r2, c2, s2);
  }

  lemma SameStatement(
    r1: Request, c1: SecretUse, s1: SecretScope, r2: Request, c2: SecretUse, s2: SecretScope)
    requires ScopeVerdict(s1).Ok? && ScopeVerdict(s2).Ok?
    ensures ApprovalStatement(r1, c1, s1) == ApprovalStatement(r2, c2, s2) ==> r1 == r2 && c1 == c2 && s1 == s2
  {
    hide ScopeVerdict, UseObject, SecretObject, AskingObject;
    if ApprovalStatement(r1, c1, s1) != ApprovalStatement(r2, c2, s2) {
      return;
    }
    var a, b := ApprovalStatement(r1, c1, s1).members, ApprovalStatement(r2, c2, s2).members;
    assert a[RequestId] == b[RequestId] && a[MemberId] == b[MemberId];
    assert a[RequestExpiresAtMs] == b[RequestExpiresAtMs] && a[Coverage] == b[Coverage];
    assert a[ScopeKey] == b[ScopeKey] && a[AgentId] == b[AgentId] && a[Secret] == b[Secret] && a[Use] == b[Use];
    AskingObjectInjective(c1.scope, c2.scope);
    SecretObjectInjective(c1.name, s1, r1.incarnation, c2.name, s2, r2.incarnation);
    UseObjectInjective(s1, s2);
  }

  // ---------------------------------------------------------------- forwarded statements

  /** What a phone is asked to approve; `asker` is empty for a request made at this vault. */
  datatype Statement =
    | UseStatement(request: Request, call: SecretUse, scope: SecretScope, asker: Bytes)
    | FlowStatement(
        request: Request, name: Bytes, flow: FlowIdentity, scope: SecretScope, methods: Option<seq<Bytes>>,
        asker: Bytes)

  /** The same statement as if it were made at this vault. */
  function Local(s: Statement): Statement {
    s.(asker := [])
  }

  function LocalObject(s: Statement): Json {
    match s
    case UseStatement(r, call, scope, _) => ApprovalStatement(r, call, scope)
    case FlowStatement(r, name, f, scope, methods, _) => FlowObjectOf(r, name, f, scope, methods)
  }

  function LocalTag(s: Statement): Bytes {
    if s.UseStatement? then USE_STATEMENT_V1 else FLOW_STATEMENT_V1
  }

  function RaisedTag(s: Statement): Bytes {
    if s.UseStatement? then USE_STATEMENT_V2 else FLOW_STATEMENT_V2
  }

  /** The object that is signed. */
  function Signed(s: Statement): Json {
    Forwarded(LocalObject(s), s.asker, RaisedTag(s))
  }

  /** A statement the vault makes, over a scope it accepted. */
  ghost predicate Made(s: Statement) {
    && ScopeVerdict(s.scope).Ok?
    && (s.FlowStatement? ==> FlowOk(s.flow, s.scope, s.methods))
  }

  /** One approval: everything agrees, the methods as a set. */
  ghost predicate SameApproval(s: Statement, t: Statement) {
    && s.UseStatement? == t.UseStatement? && s.request == t.request && s.scope == t.scope && s.asker == t.asker
    && (s.UseStatement? ==> s.call == t.call)
    && (s.FlowStatement? ==> s.name == t.name && s.flow == t.flow && SameMethods(s.methods, t.methods))
  }

  method ApprovalStatementForAsker(r: Request, call: SecretUse, scope: SecretScope, asker: Bytes) returns (s: Json)
    ensures s == Signed(UseStatement(r, call, scope, asker))
  {
    hide ApprovalStatement;
    LocalObjects(UseStatement(r, call, scope, asker));
    var members := LocalObject(UseStatement(r, call, scope, asker)).members;
    if asker != [] {
      members := members[AskingMemberId := Str(asker)];
      members := members[V := Str(USE_STATEMENT_V2)];
    }
    s := Obj(members);
  }

  lemma LocalObjects(s: Statement)
    ensures LocalObject(s).Obj? && AskingMemberId !in LocalObject(s).members
    ensures V in LocalObject(s).members && LocalObject(s).members[V] == Str(LocalTag(s))
  {
    hide FlowUseObject, UseObject, SecretObject, FlowObject, AskingObject;
  }

  lemma TagsDiffer(s: Statement, t: Statement)
    ensures LocalTag(s) != RaisedTag(t)
    ensures LocalTag(s) == LocalTag(t) <==> s.UseStatement? == t.UseStatement?
    ensures RaisedTag(s) == RaisedTag(t) <==> s.UseStatement? == t.UseStatement?
  {
    assert |USE_STATEMENT_V1| == |USE_STATEMENT_V2| == 26 && |FLOW_STATEMENT_V1| == |FLOW_STATEMENT_V2| == 27;
    assert USE_STATEMENT_V1[25] != USE_STATEMENT_V2[25] && FLOW_STATEMENT_V1[26] != FLOW_STATEMENT_V2[26];
  }

  /** The tag tells the kind of a signed object and whether it was forwarded; the asker is in it. */
  lemma SignedShape(s: Statement)
    ensures Signed(s).Obj? && V in Signed(s).members
    ensures Signed(s).members[V] == Str(if s.asker == [] then LocalTag(s) else RaisedTag(s))
    ensures AskingMemberId in Signed(s).members <==> s.asker != []
    ensures s.asker != [] ==> Signed(s).members[AskingMemberId] == Str(s.asker)
  {
    hide LocalObject, LocalTag, RaisedTag;
    LocalObjects(s);
  }

  /** Take the asker out again and lower the tag. */
  function Erased(statement: Json, tag: Bytes): Json
    requires statement.Obj?
  {
    Obj((statement.members - {AskingMemberId})[V := Str(tag)])
  }

  lemma ErasedIsLocal(s: Statement)
    ensures Signed(s).Obj? && Erased(Signed(s), LocalTag(s)) == LocalObject(s)
  {
    hide LocalObject, LocalTag, RaisedTag;
    LocalObjects(s);
    SignedShape(s);
    var m := Erased(Signed(s), LocalTag(s)).members;
    assert m.Keys == LocalObject(s).members.Keys;
    assert m == LocalObject(s).members;
  }

  /** A forwarded statement erases to the one made at this vault, and is no statement made at this
      vault, use or flow. */
  lemma ForwardingIsFaithful(s: Statement, t: Statement)
    requires s.asker != []
    ensures Signed(s).Obj? && Erased(Signed(s), LocalTag(s)) == Signed(Local(s))
    ensures Signed(s) != Signed(Local(t))
  {
    hide LocalObject, Signed, LocalTag, RaisedTag;
    ErasedIsLocal(s);
    LocalIsSignedAsIs(s);
    SignedShape(s);
    SignedShape(Local(t));
  }

  lemma LocalIsSignedAsIs(s: Statement)
    ensures Signed(Local(s)) == LocalObject(s)
  {
    LocalObjects(s);
  }

  /** Signed objects are canonical: over accepted scopes two are equal exactly when they are one
      approval, asker included, whatever kinds they are and in whatever order methods were given. */
  lemma SignedIsCanonical(s: Statement, t: Statement)
    requires Made(s) && Made(t)
    ensures Signed(s) == Signed(t) <==> SameApproval(s, t)
  {
    hide LocalObject, Signed, LocalTag, RaisedTag, Made, SameApproval;
    SignedShape(s);
    SignedShape(t);
    TagsDiffer(s, t);
    TagsDiffer(t, s);
    if Signed(s) == Signed(t) {
      assert s.UseStatement? == t.UseStatement? && s.asker == t.asker;
      assert LocalTag(s) == LocalTag(t);
      ErasedIsLocal(s);
      ErasedIsLocal(t);
      LocalIsCanonical(s, t);
    }
    if SameApproval(s, t) {
      SameSigned(s, t);
    }
  }

  lemma SameSigned(s: Statement, t: Statement)
    requires Made(s) && Made(t) && SameApproval(s, t)
    ensures Signed(s) == Signed(t)
  {
    hide LocalObject, Made;
    LocalIsCanonical(s, t);
  }

  lemma LocalIsCanonical(s: Statement, t: Statement)
    requires Made(s) && Made(t) && s.UseStatement? == t.UseStatement? && s.asker == t.asker
    ensures LocalObject(s) == LocalObject(t) <==> SameApproval(s, t)
  {
    hide ApprovalStatement, FlowObjectOf, ScopeVerdict, FlowOk;
    if s.FlowStatement? {
      FlowStatementsAreCanonical(s.request, s.name, s.flow, s.scope, s.methods,
                                 t.request, t.name, t.flow, t.scope, t.methods);
    } else {
      ApprovalStatementInjective(s.request, s.call, s.scope, t.request, t.call, t.scope);
    }
  }

  // ---------------------------------------------------------------- the envelope's items

  datatype ApprovalItem = ApprovalItem(requestId: Bytes, statementSha256: Bytes)

  predicate ItemOk(item: ApprovalItem) {
    Ulid.RequestIdOk(item.requestId) && |item.statementSha256| == 64 && All(item.statementSha256, IsLowerHex)
  }

  /** The item checks of envelope verification: one to sixteen well-formed items, no request twice. */
  method ItemsOk(items: seq<ApprovalItem>) returns (ok: bool)
    ensures ok <==>
      && 1 <= |items| <= MAX_ENVELOPE_ITEMS
      && (forall i :: 0 <= i < |items| ==> ItemOk(items[i]))
      && (forall i, j :: 0 <= i < j < |items| ==> items[i].requestId != items[j].requestId)
  {
    hide ItemOk;
    if items == [] || |items| > MAX_ENVELOPE_ITEMS {
      return false;
    }
    var ids: set<Bytes> := {};
    for k := 0 to |items|
      invariant ids == set i | 0 <= i < k :: items[i].requestId
      invariant forall i :: 0 <= i < k ==> ItemOk(items[i])
      invariant forall i, j :: 0 <= i < j < k ==> items[i].requestId != items[j].requestId
    {
      if !ItemOk(items[k]) || items[k].requestId in ids {
        return false;
      }
      ids := ids + {items[k].requestId};
    }
    ok := true;
  }
}
